/** The traffic factor of tools.py: the time-of-day heuristic, the live ratio
    from the traffic provider clamped to [0.8, 2.0] and rounded to two
    decimals, and the Heavy / Moderate / Light reading of a factor.  The clock
    is a parameter (`hour`), and the provider's answer is a parameter
    (`data`). */
module Traffic {
  import opened Common

  /** `datetime.now().hour`. */
  type Hour = h: int | 0 <= h < 24

  /** Multiplier by time of day: morning rush, evening rush, lunch, night. */
  function EstimateTrafficFromTime(hour: Hour): (f: real)
    ensures f == 0.8 || f == 1.0 || f == 1.2 || f == 1.5 || f == 1.6
  {
    if 7 <= hour <= 10 then 1.5
    else if 17 <= hour <= 19 then 1.6
    else if 12 <= hour <= 14 then 1.2
    else if 0 <= hour <= 5 then 0.8
    else 1.0
  }

  /** The same heuristic written as a table, one entry per hour from 0 to 23. */
  const HourlyFactors: seq<real> :=
    [0.8, 0.8, 0.8, 0.8, 0.8, 0.8, 1.0, 1.5, 1.5, 1.5, 1.5, 1.0,
     1.2, 1.2, 1.2, 1.0, 1.0, 1.6, 1.6, 1.6, 1.0, 1.0, 1.0, 1.0]

  lemma EstimateMatchesTable(hour: Hour)
    ensures |HourlyFactors| == 24
    ensures EstimateTrafficFromTime(hour) == HourlyFactors[hour]
  {
  }

  /** The provider's route summary; either key may be missing. */
  datatype TrafficSummary = TrafficSummary(
    noTrafficTravelTimeInSeconds: Option<real>,
    travelTimeInSeconds: Option<real>)

  const MinFactor: real := 0.8
  const MaxFactor: real := 2.0

  function Clamp(x: real): (c: real)
    ensures MinFactor <= c <= MaxFactor
    ensures MinFactor <= x <= MaxFactor ==> c == x
  {
    if x < MinFactor then MinFactor else if x > MaxFactor then MaxFactor else x
  }

  /** Python's `round(x, 2)` over exact reals: to the nearest hundredth, ties
      to the even hundredth. */
  function Round2(x: real): real {
    var scaled := x * 100.0;
    var n := scaled.Floor;
    var frac := scaled - n as real;
    var m := if frac > 0.5 then n + 1
             else if frac < 0.5 then n
             else if n % 2 == 0 then n else n + 1;
    m as real / 100.0
  }

  /** Rounding moves a value by at most half a hundredth. */
  lemma Round2IsNearest(x: real)
    ensures -0.005 <= Round2(x) - x <= 0.005
  {
    var scaled := x * 100.0;
    var n := scaled.Floor;
    assert n as real <= scaled < n as real + 1.0;
  }

  /** Rounding keeps a value inside [0.8, 2.0], whose bounds are hundredths. */
  lemma Round2KeepsRange(x: real)
    requires MinFactor <= x <= MaxFactor
    ensures MinFactor <= Round2(x) <= MaxFactor
  {
    var scaled := x * 100.0;
    var n := scaled.Floor;
    assert 80.0 <= scaled <= 200.0;
    assert n as real <= scaled < n as real + 1.0;
    assert 80 <= n <= 200;
    if n == 200 {
      assert scaled == 200.0;
    }
  }

  /** `calculate_traffic`: the live ratio travel time / free-flow time when the
      provider answered with both times, 1.0 when the free-flow time is zero,
      and the hour heuristic otherwise. */
  function CalculateTraffic(data: Option<TrafficSummary>, hour: Hour): (f: real)
    ensures MinFactor <= f <= MaxFactor
  {
    match data
    case None => EstimateTrafficFromTime(hour)
    case Some(d) =>
      if d.noTrafficTravelTimeInSeconds.None? || d.travelTimeInSeconds.None? then
        EstimateTrafficFromTime(hour)
      else if d.noTrafficTravelTimeInSeconds.value == 0.0 then 1.0
      else
        var c := Clamp(d.travelTimeInSeconds.value / d.noTrafficTravelTimeInSeconds.value);
        Round2KeepsRange(c);
        Round2(c)
  }

  /** What each branch of `calculate_traffic` yields: without a complete
      summary the heuristic, with a zero free-flow time exactly 1.0, and
      otherwise a value within half a hundredth of the clamped ratio. */
  lemma CalculateTrafficCases(data: Option<TrafficSummary>, hour: Hour)
    ensures data.None? ==> CalculateTraffic(data, hour) == EstimateTrafficFromTime(hour)
    ensures data.Some? && (data.value.noTrafficTravelTimeInSeconds.None?
                           || data.value.travelTimeInSeconds.None?)
            ==> CalculateTraffic(data, hour) == EstimateTrafficFromTime(hour)
    ensures data.Some? && data.value.noTrafficTravelTimeInSeconds == Some(0.0)
            && data.value.travelTimeInSeconds.Some?
            ==> CalculateTraffic(data, hour) == 1.0
    ensures data.Some? && data.value.noTrafficTravelTimeInSeconds.Some?
            && data.value.travelTimeInSeconds.Some?
            && data.value.noTrafficTravelTimeInSeconds.value != 0.0
            ==> var ratio := data.value.travelTimeInSeconds.value
                             / data.value.noTrafficTravelTimeInSeconds.value;
                -0.005 <= CalculateTraffic(data, hour) - Clamp(ratio) <= 0.005
  {
    if data.Some? && data.value.noTrafficTravelTimeInSeconds.Some?
       && data.value.travelTimeInSeconds.Some?
       && data.value.noTrafficTravelTimeInSeconds.value != 0.0
    {
      Round2IsNearest(Clamp(data.value.travelTimeInSeconds.value
                            / data.value.noTrafficTravelTimeInSeconds.value));
    }
  }

  datatype TrafficLevel = Light | Moderate | Heavy {
    function Rank(): nat {
      match this
      case Light => 0
      case Moderate => 1
      case Heavy => 2
    }

    function Advice(): string {
      match this
      case Heavy => "Consider delaying by 1-2 hours or use alternative route"
      case Moderate => "Expect minor delays, monitor conditions"
      case Light => "Good time to depart"
    }
  }

  /** The reading of a factor used by the route and traffic reports. */
  function LevelOf(factor: real): (l: TrafficLevel)
    ensures l == Heavy <==> factor >= 1.5
    ensures l == Light <==> factor < 1.2
  {
    if factor >= 1.5 then Heavy else if factor >= 1.2 then Moderate else Light
  }

  /** A larger factor never reads as lighter traffic. */
  lemma LevelIsMonotonic(f1: real, f2: real)
    requires f1 <= f2
    ensures LevelOf(f1).Rank() <= LevelOf(f2).Rank()
  {
  }

  /** With no live data, the rush hours read as Heavy, lunch time as Moderate
      and every other hour as Light. */
  lemma HeuristicLevels(hour: Hour)
    ensures (7 <= hour <= 10 || 17 <= hour <= 19) <==> LevelOf(EstimateTrafficFromTime(hour)) == Heavy
    ensures 12 <= hour <= 14 <==> LevelOf(EstimateTrafficFromTime(hour)) == Moderate
  {
  }
}

/** The file-name fragment tools.py derives from a place name for its map
    files: spaces become underscores, commas are dropped, and at most 30
    characters are kept. */
module MapNames {
  import opened Text

  const MaxNameLength: nat := 30

  function SafeName(place: string): (r: string)
    ensures |r| <= MaxNameLength
    ensures ' ' !in r && ',' !in r
  {
    var t := DeleteChar(ReplaceChar(place, ' ', '_'), ',');
    DeleteCharKeeps(ReplaceChar(place, ' ', '_'), ',', ' ');
    if |t| <= MaxNameLength then t else t[..MaxNameLength]
  }

  /** A name that is already short and free of spaces and commas is kept. */
  lemma {:induction false} SafeNameFixesSafe(name: string)
    requires |name| <= MaxNameLength && ' ' !in name && ',' !in name
    ensures SafeName(name) == name
  {
    assert ReplaceChar(name, ' ', '_') == name;
  }

  /** A name without commas keeps its first thirty characters, each space
      turned into an underscore and every other character as it was. */
  lemma SafeNameWithoutCommas(place: string)
    requires ',' !in place
    ensures |SafeName(place)| == (if |place| <= MaxNameLength then |place| else MaxNameLength)
    ensures forall i :: 0 <= i < |SafeName(place)| ==>
      SafeName(place)[i] == (if place[i] == ' ' then '_' else place[i])
  {
    var u := ReplaceChar(place, ' ', '_');
    assert ',' !in u;
  }

  /** The commas of a name are dropped and nothing else depends on them:
      the name is made safe as if it had none. */
  lemma SafeNameDropsCommas(place: string)
    ensures SafeName(place) == SafeName(DeleteChar(place, ','))
  {
    ReplaceThenDelete(place, ' ', '_', ',');
    var d := DeleteChar(place, ',');
    assert ',' !in ReplaceChar(d, ' ', '_');
  }

  /** Applying the transform twice is applying it once. */
  lemma SafeNameIdempotent(place: string)
    ensures SafeName(SafeName(place)) == SafeName(place)
  {
    SafeNameFixesSafe(SafeName(place));
  }
}
