/** Weather in api/api.py: the record `get_weather_data` shapes from the
    OpenWeather current-weather response, and the additive risk factor and
    warnings `get_weather_along_route` derives from the records at the two
    ends of a route.  The HTTP request and the API key lookup are parameters;
    the warning texts are kept as values, without their formatting. */
module Weather {
  import opened Common

  datatype Condition = Condition(main: string, description: string)

  /** The parts of the provider's JSON that are read.  `rain1h` is absent when
      either `rain` or `rain.1h` is; `visibilityM` is in metres. */
  datatype OwmResponse = OwmResponse(
    temp: real, feelsLike: real, humidity: real,
    weather: seq<Condition>,
    windSpeed: real,
    rain1h: Option<real>,
    visibilityM: Option<real>)

  datatype WeatherRecord = WeatherRecord(
    temperature: real, feelsLike: real,
    condition: string, description: string,
    humidity: real, windSpeed: real,
    rain: real,          // mm in the last hour
    visibilityKm: real)

  const DefaultVisibilityM: real := 10000.0

  /** `get_weather_data`: no record without an API key, when the request
      failed (`response` is `None`), or when the `weather` list is empty (the
      `IndexError` is caught); otherwise the shaped record. */
  function GetWeatherData(hasApiKey: bool, response: Option<OwmResponse>): (r: Option<WeatherRecord>)
    ensures r.Some? <==> hasApiKey && response.Some? && |response.value.weather| > 0
    ensures r.Some? ==> r.value.rain == response.value.rain1h.GetOr(0.0)
    ensures r.Some? ==> r.value.visibilityKm * 1000.0 == response.value.visibilityM.GetOr(DefaultVisibilityM)
    ensures r.Some? ==> r.value.condition == response.value.weather[0].main
    ensures r.Some? ==> r.value.description == response.value.weather[0].description
    ensures r.Some? ==> r.value.temperature == response.value.temp && r.value.feelsLike == response.value.feelsLike
    ensures r.Some? ==> r.value.humidity == response.value.humidity && r.value.windSpeed == response.value.windSpeed
  {
    if !hasApiKey then None
    else match response
      case None => None
      case Some(d) =>
        if |d.weather| == 0 then None
        else Some(WeatherRecord(
          d.temp, d.feelsLike, d.weather[0].main, d.weather[0].description,
          d.humidity, d.windSpeed, d.rain1h.GetOr(0.0),
          d.visibilityM.GetOr(DefaultVisibilityM) / 1000.0))
  }

  /** A response without rain or visibility reads as a dry hour with 10 km of
      visibility. */
  lemma WeatherDefaults(r: OwmResponse)
    requires |r.weather| > 0 && r.rain1h.None? && r.visibilityM.None?
    ensures GetWeatherData(true, Some(r)).Some?
    ensures GetWeatherData(true, Some(r)).value.rain == 0.0
    ensures GetWeatherData(true, Some(r)).value.visibilityKm == 10.0
  {
  }

  datatype Warning =
    | HeavyRainAtOrigin(rainMm: real)
    | LightRainAtOrigin(rainMm: real)
    | LowVisibilityAtOrigin(visibilityKm: real)
    | StrongWindsAtOrigin(windSpeed: real)
    | HeavyRainAtDestination(rainMm: real)
  {
    /** Position of the check that emits the warning: origin rain, origin
        visibility, origin wind, destination rain. */
    function Rank(): nat {
      match this
      case HeavyRainAtOrigin(_) => 0
      case LightRainAtOrigin(_) => 0
      case LowVisibilityAtOrigin(_) => 1
      case StrongWindsAtOrigin(_) => 2
      case HeavyRainAtDestination(_) => 3
    }
  }

  /** One detected risk: what it adds to the factor and the warning it
      reports, if any. */
  datatype Hazard = Hazard(weight: real, warning: Option<Warning>)

  const HeavyRainMm: real := 2.5
  const LightRainMm: real := 0.5
  const LowVisibilityKm: real := 1.0
  const StrongWindMs: real := 15.0
  const MaxWeatherFactor: real := 1.8

  /** Rain at the origin: heavy and light rain exclude each other. */
  function OriginRain(w: WeatherRecord): seq<Hazard> {
    if w.rain > HeavyRainMm then [Hazard(0.3, Some(HeavyRainAtOrigin(w.rain)))]
    else if w.rain > LightRainMm then [Hazard(0.15, Some(LightRainAtOrigin(w.rain)))]
    else []
  }

  function OriginVisibility(w: WeatherRecord): seq<Hazard> {
    if w.visibilityKm < LowVisibilityKm then [Hazard(0.2, Some(LowVisibilityAtOrigin(w.visibilityKm)))] else []
  }

  function OriginWind(w: WeatherRecord): seq<Hazard> {
    if w.windSpeed > StrongWindMs then [Hazard(0.1, Some(StrongWindsAtOrigin(w.windSpeed)))] else []
  }

  /** The risks seen at the origin, in the order they are checked. */
  function OriginHazards(w: WeatherRecord): seq<Hazard> {
    OriginRain(w) + OriginVisibility(w) + OriginWind(w)
  }

  /** The risks seen at the destination: only rain, and light rain is silent. */
  function DestinationHazards(w: WeatherRecord): seq<Hazard> {
    if w.rain > HeavyRainMm then [Hazard(0.2, Some(HeavyRainAtDestination(w.rain)))]
    else if w.rain > LightRainMm then [Hazard(0.1, None)]
    else []
  }

  /** Every risk along the route; a missing record contributes none. */
  function Hazards(origin: Option<WeatherRecord>, destination: Option<WeatherRecord>): seq<Hazard> {
    (if origin.Some? then OriginHazards(origin.value) else [])
    + (if destination.Some? then DestinationHazards(destination.value) else [])
  }

  function TotalWeight(hs: seq<Hazard>): real {
    if hs == [] then 0.0 else hs[0].weight + TotalWeight(hs[1..])
  }

  function WarningsOf(hs: seq<Hazard>): seq<Warning> {
    if hs == [] then []
    else (if hs[0].warning.Some? then [hs[0].warning.value] else []) + WarningsOf(hs[1..])
  }

  function Min(a: real, b: real): real {
    if a <= b then a else b
  }

  datatype WeatherReport = WeatherReport(
    origin: Option<WeatherRecord>,
    destination: Option<WeatherRecord>,
    weatherFactor: real,
    warnings: seq<Warning>)

  lemma {:induction false} TotalWeightAppend(a: seq<Hazard>, b: seq<Hazard>)
    ensures TotalWeight(a + b) == TotalWeight(a) + TotalWeight(b)
  {
    if a != [] {
      TotalWeightAppend(a[1..], b);
      assert (a + b)[1..] == a[1..] + b;
    } else {
      assert a + b == b;
    }
  }

  lemma {:induction false} WarningsAppend(a: seq<Hazard>, b: seq<Hazard>)
    ensures WarningsOf(a + b) == WarningsOf(a) + WarningsOf(b)
  {
    if a != [] {
      WarningsAppend(a[1..], b);
      assert (a + b)[1..] == a[1..] + b;
    } else {
      assert a + b == b;
    }
  }

  /** The weight and warnings of at most one risk. */
  lemma SlotEffect(slot: seq<Hazard>)
    requires |slot| <= 1
    ensures TotalWeight(slot) == if slot == [] then 0.0 else slot[0].weight
    ensures WarningsOf(slot) == if slot == [] || slot[0].warning.None? then [] else [slot[0].warning.value]
  {
  }

  /** The origin's risks add up slot by slot: rain, visibility, wind. */
  lemma OriginEffect(w: WeatherRecord)
    ensures TotalWeight(OriginHazards(w))
         == TotalWeight(OriginRain(w)) + TotalWeight(OriginVisibility(w)) + TotalWeight(OriginWind(w))
    ensures WarningsOf(OriginHazards(w))
         == WarningsOf(OriginRain(w)) + WarningsOf(OriginVisibility(w)) + WarningsOf(OriginWind(w))
  {
    AddSlot(OriginRain(w) + OriginVisibility(w), OriginWind(w));
    AddSlot(OriginRain(w), OriginVisibility(w));
  }

  /** Without a destination record only the origin's risks count. */
  lemma OriginOnly(origin: Option<WeatherRecord>)
    ensures Hazards(origin, None) == if origin.Some? then OriginHazards(origin.value) else []
  {
    var o := if origin.Some? then OriginHazards(origin.value) else [];
    assert o + [] == o;
  }

  /** The destination's risks come after the origin's. */
  lemma RouteEffect(origin: Option<WeatherRecord>, destination: Option<WeatherRecord>)
    ensures var d := if destination.Some? then DestinationHazards(destination.value) else [];
            TotalWeight(Hazards(origin, destination)) == TotalWeight(Hazards(origin, None)) + TotalWeight(d)
            && WarningsOf(Hazards(origin, destination)) == WarningsOf(Hazards(origin, None)) + WarningsOf(d)
  {
    var d := if destination.Some? then DestinationHazards(destination.value) else [];
    assert Hazards(origin, None) + d == Hazards(origin, destination);
    AddSlot(Hazards(origin, None), d);
  }

  /** Adding the risks of one check adds their weights and their warnings. */
  lemma AddSlot(hs: seq<Hazard>, slot: seq<Hazard>)
    ensures TotalWeight(hs + slot) == TotalWeight(hs) + TotalWeight(slot)
    ensures WarningsOf(hs + slot) == WarningsOf(hs) + WarningsOf(slot)
  {
    TotalWeightAppend(hs, slot);
    WarningsAppend(hs, slot);
  }

  /** The origin's checks in `get_weather_along_route`: rain (heavy or
      light), then visibility, then wind, each adding its weight to the
      factor and its warning to the list. */
  method AddOriginRisks(w: WeatherRecord, factor: real, warnings: seq<Warning>)
    returns (factor': real, warnings': seq<Warning>)
    ensures factor' == factor + TotalWeight(OriginHazards(w))
    ensures warnings' == warnings + WarningsOf(OriginHazards(w))
  {
    factor', warnings' := factor, warnings;
    if w.rain > HeavyRainMm {
      factor' := factor' + 0.3;
      warnings' := warnings' + [HeavyRainAtOrigin(w.rain)];
    } else if w.rain > LightRainMm {
      factor' := factor' + 0.15;
      warnings' := warnings' + [LightRainAtOrigin(w.rain)];
    }
    SlotEffect(OriginRain(w));
    assert factor' == factor + TotalWeight(OriginRain(w));
    assert warnings' == warnings + WarningsOf(OriginRain(w));
    ghost var f1, w1 := factor', warnings';

    if w.visibilityKm < LowVisibilityKm {
      factor' := factor' + 0.2;
      warnings' := warnings' + [LowVisibilityAtOrigin(w.visibilityKm)];
    }
    SlotEffect(OriginVisibility(w));
    assert factor' == f1 + TotalWeight(OriginVisibility(w));
    assert warnings' == w1 + WarningsOf(OriginVisibility(w));
    ghost var f2, w2 := factor', warnings';

    if w.windSpeed > StrongWindMs {
      factor' := factor' + 0.1;
      warnings' := warnings' + [StrongWindsAtOrigin(w.windSpeed)];
    }
    SlotEffect(OriginWind(w));
    assert factor' == f2 + TotalWeight(OriginWind(w));
    assert warnings' == w2 + WarningsOf(OriginWind(w));
    OriginEffect(w);
  }

  /** The destination's check in `get_weather_along_route`: heavy rain adds
      its weight and a warning, light rain only its weight. */
  method AddDestinationRisks(w: WeatherRecord, factor: real, warnings: seq<Warning>)
    returns (factor': real, warnings': seq<Warning>)
    ensures factor' == factor + TotalWeight(DestinationHazards(w))
    ensures warnings' == warnings + WarningsOf(DestinationHazards(w))
  {
    factor', warnings' := factor, warnings;
    if w.rain > HeavyRainMm {
      factor' := factor' + 0.2;
      warnings' := warnings' + [HeavyRainAtDestination(w.rain)];
    } else if w.rain > LightRainMm {
      factor' := factor' + 0.1;
    }
    SlotEffect(DestinationHazards(w));
  }

  /** `get_weather_along_route`: starting from 1.0, adds the weight of every
      risk at the origin and the destination, appends the warnings in the
      order of the checks, and caps the factor at 1.8. */
  method WeatherAlongRoute(origin: Option<WeatherRecord>, destination: Option<WeatherRecord>)
    returns (report: WeatherReport)
    ensures report.origin == origin && report.destination == destination
    ensures report.weatherFactor == Min(1.0 + TotalWeight(Hazards(origin, destination)), MaxWeatherFactor)
    ensures report.warnings == WarningsOf(Hazards(origin, destination))
    ensures 1.0 <= report.weatherFactor <= MaxWeatherFactor
    ensures |report.warnings| <= 4
  {
    var weatherFactor := 1.0;
    var warnings: seq<Warning> := [];
    if origin.Some? {
      weatherFactor, warnings := AddOriginRisks(origin.value, weatherFactor, warnings);
    }
    OriginOnly(origin);
    assert weatherFactor == 1.0 + TotalWeight(Hazards(origin, None));
    assert warnings == WarningsOf(Hazards(origin, None));

    if destination.Some? {
      weatherFactor, warnings := AddDestinationRisks(destination.value, weatherFactor, warnings);
    }
    RouteEffect(origin, destination);
    ReportBounds(origin, destination);
    report := WeatherReport(origin, destination, Min(weatherFactor, MaxWeatherFactor), warnings);
  }

  /** The origin contributes at most 0.3 + 0.2 + 0.1, the destination at most
      0.2, and nothing is ever subtracted. */
  lemma HazardWeightBounds(origin: Option<WeatherRecord>, destination: Option<WeatherRecord>)
    ensures 0.0 <= TotalWeight(Hazards(origin, destination)) <= 0.8
  {
    var o := if origin.Some? then OriginHazards(origin.value) else [];
    var d := if destination.Some? then DestinationHazards(destination.value) else [];
    TotalWeightAppend(o, d);
    if origin.Some? {
      var w := origin.value;
      TotalWeightAppend(OriginRain(w) + OriginVisibility(w), OriginWind(w));
      TotalWeightAppend(OriginRain(w), OriginVisibility(w));
    }
  }

  /** The factor lies in [1.0, 1.8], and over exact reals the cap at 1.8 never
      cuts: the uncapped sum is already at most 1.8. */
  lemma WeatherFactorBounds(origin: Option<WeatherRecord>, destination: Option<WeatherRecord>)
    ensures 1.0 + TotalWeight(Hazards(origin, destination)) <= MaxWeatherFactor
    ensures Min(1.0 + TotalWeight(Hazards(origin, destination)), MaxWeatherFactor)
            == 1.0 + TotalWeight(Hazards(origin, destination))
    ensures 1.0 <= Min(1.0 + TotalWeight(Hazards(origin, destination)), MaxWeatherFactor) <= MaxWeatherFactor
  {
    HazardWeightBounds(origin, destination);
  }

  ghost predicate RanksIncrease(ws: seq<Warning>) {
    forall i, j :: 0 <= i < j < |ws| ==> ws[i].Rank() < ws[j].Rank()
  }

  ghost predicate RanksAtLeast(ws: seq<Warning>, r: nat) {
    forall i :: 0 <= i < |ws| ==> r <= ws[i].Rank()
  }

  /** Putting at most one warning of rank `r` in front of warnings of higher
      rank keeps the ranks increasing. */
  lemma PrependSlot(a: seq<Warning>, rest: seq<Warning>, r: nat)
    requires |a| <= 1 && (a != [] ==> a[0].Rank() == r)
    requires RanksIncrease(rest) && RanksAtLeast(rest, r + 1)
    ensures RanksIncrease(a + rest) && RanksAtLeast(a + rest, r)
  {
    if a != [] {
      assert forall k :: 1 <= k < |a + rest| ==> (a + rest)[k] == rest[k - 1];
    } else {
      assert a + rest == rest;
    }
  }

  /** Each check reports at most one warning, of its own rank. */
  lemma SlotWarnings(w: WeatherRecord)
    ensures |WarningsOf(OriginRain(w))| <= 1
    ensures WarningsOf(OriginRain(w)) != [] ==> WarningsOf(OriginRain(w))[0].Rank() == 0
    ensures |WarningsOf(OriginVisibility(w))| <= 1
    ensures WarningsOf(OriginVisibility(w)) != [] ==> WarningsOf(OriginVisibility(w))[0].Rank() == 1
    ensures |WarningsOf(OriginWind(w))| <= 1
    ensures WarningsOf(OriginWind(w)) != [] ==> WarningsOf(OriginWind(w))[0].Rank() == 2
    ensures |WarningsOf(DestinationHazards(w))| <= 1
    ensures WarningsOf(DestinationHazards(w)) != [] ==> WarningsOf(DestinationHazards(w))[0].Rank() == 3
  {
  }

  /** The warnings along a route, check by check. */
  lemma WarningsBySlot(origin: Option<WeatherRecord>, destination: Option<WeatherRecord>)
    ensures WarningsOf(Hazards(origin, destination))
         == (if origin.Some? then WarningsOf(OriginRain(origin.value))
                                  + (WarningsOf(OriginVisibility(origin.value))
                                     + WarningsOf(OriginWind(origin.value)))
             else [])
            + (if destination.Some? then WarningsOf(DestinationHazards(destination.value)) else [])
  {
    var o := if origin.Some? then OriginHazards(origin.value) else [];
    var d := if destination.Some? then DestinationHazards(destination.value) else [];
    WarningsAppend(o, d);
    if origin.Some? {
      var w := origin.value;
      WarningsAppend(OriginRain(w) + OriginVisibility(w), OriginWind(w));
      WarningsAppend(OriginRain(w), OriginVisibility(w));
    }
  }

  lemma Regroup(a: seq<Warning>, b: seq<Warning>, c: seq<Warning>, d: seq<Warning>)
    ensures a + (b + c) + d == a + (b + (c + d))
  {
  }

  /** Warnings come in the order origin rain, origin visibility, origin wind,
      destination rain, each at most once; so there are at most four, and
      heavy and light rain at the origin never both appear. */
  lemma WarningsOrdered(origin: Option<WeatherRecord>, destination: Option<WeatherRecord>)
    ensures RanksIncrease(WarningsOf(Hazards(origin, destination)))
    ensures |WarningsOf(Hazards(origin, destination))| <= 4
  {
    WarningsBySlot(origin, destination);
    var wd := if destination.Some? then WarningsOf(DestinationHazards(destination.value)) else [];
    if destination.Some? {
      SlotWarnings(destination.value);
    }
    assert RanksIncrease(wd) && RanksAtLeast(wd, 3);
    if origin.Some? {
      OriginBeforeDestination(origin.value, wd);
    } else {
      assert [] + wd == wd;
    }
  }

  /** The origin's warnings, check by check, come before the destination's. */
  lemma OriginBeforeDestination(w: WeatherRecord, wd: seq<Warning>)
    requires RanksIncrease(wd) && RanksAtLeast(wd, 3) && |wd| <= 1
    ensures RanksIncrease(WarningsOf(OriginRain(w)) + (WarningsOf(OriginVisibility(w)) + WarningsOf(OriginWind(w))) + wd)
    ensures |WarningsOf(OriginRain(w)) + (WarningsOf(OriginVisibility(w)) + WarningsOf(OriginWind(w))) + wd| <= 4
  {
    SlotWarnings(w);
    var wr, wv, ww := WarningsOf(OriginRain(w)), WarningsOf(OriginVisibility(w)), WarningsOf(OriginWind(w));
    var r3 := ww + wd;
    PrependSlot(ww, wd, 2);
    var r2 := wv + r3;
    PrependSlot(wv, r3, 1);
    PrependSlot(wr, r2, 0);
    Regroup(wr, wv, ww, wd);
    assert wr + (wv + ww) + wd == wr + r2;
  }

  lemma ReportBounds(origin: Option<WeatherRecord>, destination: Option<WeatherRecord>)
    ensures 1.0 <= Min(1.0 + TotalWeight(Hazards(origin, destination)), MaxWeatherFactor) <= MaxWeatherFactor
    ensures |WarningsOf(Hazards(origin, destination))| <= 4
  {
    WeatherFactorBounds(origin, destination);
    WarningsOrdered(origin, destination);
  }

  /** Light rain at the destination (over 0.5 and at most 2.5 mm) raises the
      factor by 0.1 but reports nothing: the warnings are those of the origin
      alone. */
  lemma DestinationLightRainIsSilent(origin: Option<WeatherRecord>, w: WeatherRecord)
    requires LightRainMm < w.rain <= HeavyRainMm
    ensures WarningsOf(Hazards(origin, Some(w))) == WarningsOf(Hazards(origin, None))
    ensures TotalWeight(Hazards(origin, Some(w))) == TotalWeight(Hazards(origin, None)) + 0.1
  {
    var o := if origin.Some? then OriginHazards(origin.value) else [];
    assert Hazards(origin, None) == o;
    assert Hazards(origin, Some(w)) == o + [Hazard(0.1, None)];
    AddSlot(o, [Hazard(0.1, None)]);
  }

  /** Without either record the factor is 1.0 and nothing is reported. */
  lemma NoRecordsNoRisk()
    ensures Hazards(None, None) == []
    ensures Min(1.0 + TotalWeight(Hazards(None, None)), MaxWeatherFactor) == 1.0
  {
  }
}
