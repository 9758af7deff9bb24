/** The multi-destination planner (`multi_route_planner`, tools.py): geocode
    the origin and the destinations, try every visiting order of the
    destinations that were found, walk each order leg by leg with the routing
    provider, and keep the fastest order that can be driven completely. The
    geocoder and the routing provider are parameters; the report text and the
    map are not modelled. */
module MultiStop {
  import opened Common
  import opened Osrm
  import opened Perms

  /** A destination that was found: its name and coordinates. */
  datatype Stop = Stop(name: string, coords: Point)

  /** The route dictionary the provider returns for one leg. The planner reads
      `duration` and `distance` (seconds and metres) and falls back on
      `duration_min` and `distance_km` (minutes and kilometres). */
  datatype LegRoute = LegRoute(duration: Option<real>, distance: Option<real>,
                               durationMin: Option<real>, distanceKm: Option<real>)

  /** The routing provider, from one point to another. */
  type Provider = (Point, Point) -> Option<LegRoute>
  /** The geocoder, from a place name to its coordinates. */
  type Geocoder = string -> Option<Point>

  /** One driven leg of an order. */
  datatype Segment = Segment(from: Point, to: string, duration: real, distance: real)

  // ---------------------------------------------------------------------
  // One leg
  // ---------------------------------------------------------------------

  /** The leg's duration in seconds: `duration` if it is there and not zero,
      otherwise `duration_min` times 60 if that is there, otherwise 0. */
  function LegDuration(route: LegRoute): real {
    var d := route.duration.GetOr(0.0);
    if d == 0.0 && route.durationMin.Some? then route.durationMin.value * 60.0 else d
  }

  /** The leg's distance in metres, by the same rule with `distance_km` times 1000. */
  function LegDistance(route: LegRoute): real {
    var d := route.distance.GetOr(0.0);
    if d == 0.0 && route.distanceKm.Some? then route.distanceKm.value * 1000.0 else d
  }

  /** The dictionary `get_route_osrm` gives the planner: minutes and kilometres only. */
  function FromOsrm(summary: RouteSummary): LegRoute {
    LegRoute(None, None, Some(summary.durationMin), Some(summary.distanceKm))
  }

  /** Reading an OSRM answer through the planner's unit rule gives back the
      service's own seconds and metres. */
  lemma OsrmLegRoundTrip(response: Option<Response>)
    requires GetRouteOsrm(response).Some?
    ensures LegDuration(FromOsrm(GetRouteOsrm(response).value)) == response.value.routes.value[0].duration
    ensures LegDistance(FromOsrm(GetRouteOsrm(response).value)) == response.value.routes.value[0].distance
  {
  }

  /** The leg from `from` to `stop`: none if the provider has no route or the
      duration is not positive. */
  function LegOf(provider: Provider, from: Point, stop: Stop): (r: Option<Segment>)
    ensures r.Some? ==> r.value.from == from && r.value.to == stop.name && r.value.duration > 0.0
  {
    var route := provider(from, stop.coords);
    if route.None? || LegDuration(route.value) <= 0.0 then None
    else Some(Segment(from, stop.name, LegDuration(route.value), LegDistance(route.value)))
  }

  // ---------------------------------------------------------------------
  // One order
  // ---------------------------------------------------------------------

  /** Where leg i of `order` starts: the origin for the first leg, the
      previous stop otherwise. */
  function StartOf(origin: Point, order: seq<Stop>, i: nat): Point
    requires i < |order|
  {
    if i == 0 then origin else order[i - 1].coords
  }

  function Prepend(done: seq<Segment>, rest: Option<seq<Segment>>): Option<seq<Segment>> {
    if rest.None? then None else Some(done + rest.value)
  }

  /** The legs of `order` driven from `from`, or none as soon as one leg fails. */
  function WalkFrom(provider: Provider, from: Point, order: seq<Stop>): Option<seq<Segment>>
    decreases |order|
  {
    if order == [] then Some([])
    else
      var leg := LegOf(provider, from, order[0]);
      if leg.None? then None
      else Prepend([leg.value], WalkFrom(provider, order[0].coords, order[1..]))
  }

  lemma PrependNothing(walk: Option<seq<Segment>>)
    ensures Prepend([], walk) == walk
  {
    if walk.Some? {
      assert [] + walk.value == walk.value;
    }
  }

  lemma PrependTwice(done: seq<Segment>, s: Segment, walk: Option<seq<Segment>>)
    ensures Prepend(done, Prepend([s], walk)) == Prepend(done + [s], walk)
  {
    if walk.Some? {
      assert done + ([s] + walk.value) == (done + [s]) + walk.value;
    }
  }

  function TotalTime(segments: seq<Segment>): real {
    if segments == [] then 0.0
    else TotalTime(segments[..|segments| - 1]) + segments[|segments| - 1].duration
  }

  function TotalDistance(segments: seq<Segment>): real {
    if segments == [] then 0.0
    else TotalDistance(segments[..|segments| - 1]) + segments[|segments| - 1].distance
  }

  /** A drivable order has one leg per stop; leg i starts where the previous
      stop is (the origin for the first) and ends at stop i. And an order is
      drivable exactly when each of those legs is. */
  lemma {:induction false} WalkShape(provider: Provider, from: Point, order: seq<Stop>)
    ensures WalkFrom(provider, from, order).Some? <==>
      forall i :: 0 <= i < |order| ==> LegOf(provider, StartOf(from, order, i), order[i]).Some?
    ensures WalkFrom(provider, from, order).Some? ==>
      var segments := WalkFrom(provider, from, order).value;
      |segments| == |order|
      && forall i :: 0 <= i < |order| ==>
           LegOf(provider, StartOf(from, order, i), order[i]) == Some(segments[i])
           && segments[i].from == StartOf(from, order, i)
           && segments[i].to == order[i].name
           && segments[i].duration > 0.0
    decreases |order|
  {
    if order != [] {
      var rest := order[1..];
      WalkShape(provider, order[0].coords, rest);
      forall i | 1 <= i < |order|
        ensures StartOf(from, order, i) == StartOf(order[0].coords, rest, i - 1)
      {
      }
    }
  }

  /** Every leg takes time, so a drivable order of at least one stop takes time. */
  lemma {:induction false} TotalTimePositive(segments: seq<Segment>)
    requires forall i :: 0 <= i < |segments| ==> segments[i].duration > 0.0
    ensures segments != [] ==> TotalTime(segments) > 0.0
    ensures TotalTime(segments) >= 0.0
  {
    if segments != [] {
      TotalTimePositive(segments[..|segments| - 1]);
    }
  }

  lemma TotalsAppend(segments: seq<Segment>, s: Segment)
    ensures TotalTime(segments + [s]) == TotalTime(segments) + s.duration
    ensures TotalDistance(segments + [s]) == TotalDistance(segments) + s.distance
  {
    assert (segments + [s])[..|segments|] == segments;
  }

  // ---------------------------------------------------------------------
  // The search over orders
  // ---------------------------------------------------------------------

  /** The order kept so far: its position among the orders tried, its legs
      and its total time. */
  datatype Choice = Choice(index: nat, order: seq<Stop>, segments: seq<Segment>, time: real)

  /** The order the planner keeps after trying `orders` in turn: a drivable
      order replaces the kept one only when it is strictly faster. */
  function BestOf(provider: Provider, origin: Point, orders: seq<seq<Stop>>): Option<Choice>
    decreases |orders|
  {
    if orders == [] then None
    else
      var n := |orders| - 1;
      var kept := BestOf(provider, origin, orders[..n]);
      var walk := WalkFrom(provider, origin, orders[n]);
      if walk.Some? && (kept.None? || TotalTime(walk.value) < kept.value.time)
      then Some(Choice(n, orders[n], walk.value, TotalTime(walk.value)))
      else kept
  }

  /** The kept order is drivable, is the fastest of all drivable orders, and
      every drivable order tried before it is strictly slower; nothing is kept
      exactly when no order is drivable. */
  lemma {:induction false} BestOfIsFirstFastest(provider: Provider, origin: Point, orders: seq<seq<Stop>>)
    ensures BestOf(provider, origin, orders).None? <==>
      forall k :: 0 <= k < |orders| ==> WalkFrom(provider, origin, orders[k]).None?
    ensures BestOf(provider, origin, orders).Some? ==>
      var c := BestOf(provider, origin, orders).value;
      c.index < |orders| && c.order == orders[c.index]
      && WalkFrom(provider, origin, c.order) == Some(c.segments)
      && c.time == TotalTime(c.segments)
      && (forall k :: 0 <= k < |orders| && WalkFrom(provider, origin, orders[k]).Some? ==>
            c.time <= TotalTime(WalkFrom(provider, origin, orders[k]).value))
      && (forall k :: 0 <= k < c.index && WalkFrom(provider, origin, orders[k]).Some? ==>
            c.time < TotalTime(WalkFrom(provider, origin, orders[k]).value))
    decreases |orders|
  {
    if orders != [] {
      var n := |orders| - 1;
      var prefix := orders[..n];
      BestOfIsFirstFastest(provider, origin, prefix);
      assert forall k :: 0 <= k < n ==> prefix[k] == orders[k];
    }
  }

  // ---------------------------------------------------------------------
  // Geocoding
  // ---------------------------------------------------------------------

  /** The destinations the geocoder finds, in the order given; the others are dropped. */
  function Geocoded(geocode: Geocoder, names: seq<string>): seq<Stop> {
    if names == [] then []
    else
      var rest := Geocoded(geocode, names[..|names| - 1]);
      var last := names[|names| - 1];
      if geocode(last).Some? then rest + [Stop(last, geocode(last).value)] else rest
  }

  /** Every stop kept is a destination at the coordinates the geocoder gives
      it, and every destination the geocoder finds is kept. */
  lemma {:induction false} GeocodedKeepsFound(geocode: Geocoder, names: seq<string>)
    ensures forall s :: s in Geocoded(geocode, names) ==> s.name in names && geocode(s.name) == Some(s.coords)
    ensures forall n :: n in names && geocode(n).Some? ==> Stop(n, geocode(n).value) in Geocoded(geocode, names)
    ensures |Geocoded(geocode, names)| <= |names|
  {
    if names != [] {
      var init := names[..|names| - 1];
      GeocodedKeepsFound(geocode, init);
      assert names == init + [names[|names| - 1]];
    }
  }

  // ---------------------------------------------------------------------
  // The planner
  // ---------------------------------------------------------------------

  /** An order that is kept visits at least one stop. */
  lemma KeptOrderNotEmpty(provider: Provider, start: Point, stops: seq<Stop>)
    requires stops != []
    ensures BestOf(provider, start, Permutations(stops)).Some? ==> BestOf(provider, start, Permutations(stops)).value.order != []
  {
    var orders := Permutations(stops);
    BestOfIsFirstFastest(provider, start, orders);
    PermutationLengths(stops);
    if BestOf(provider, start, orders).Some? {
      assert BestOf(provider, start, orders).value.order in orders;
    }
  }

  /** How the planner ends. */
  datatype Outcome =
    | OriginNotFound(origin: string)
    | NoValidDestinations
    | NoValidRoute(tested: nat)
    | Planned(origin: string, order: seq<Stop>, totalTime: real, segments: seq<Segment>)

  /** What `BestOf` keeps, as the planner's three variables `best_time` (none
      standing for infinity), `best_order` and `best_routes`. */
  predicate Keeps(kept: Option<Choice>, bestTime: Option<real>, bestOrder: Option<seq<Stop>>, bestRoutes: seq<Segment>) {
    if kept.None? then bestTime.None? && bestOrder.None? && bestRoutes == []
    else bestTime == Some(kept.value.time) && bestOrder == Some(kept.value.order) && bestRoutes == kept.value.segments
  }

  /** One visiting order driven leg by leg from `start`: each leg's time and
      distance fall back to the minutes and kilometres fields when zero, and
      the first leg that is missing or takes no time makes the order
      invalid. */
  method DriveOrder(provider: Provider, start: Point, order: seq<Stop>)
    returns (valid: bool, segments: seq<Segment>, totalTime: real, totalDistance: real)
    ensures valid <==> WalkFrom(provider, start, order).Some?
    ensures valid ==> WalkFrom(provider, start, order) == Some(segments)
    ensures valid ==> totalTime == TotalTime(segments) && totalDistance == TotalDistance(segments)
  {
    totalTime, totalDistance := 0.0, 0.0;
    var current := start;
    valid := true;
    segments := [];
    var k := 0;
    assert order[k..] == order;
    PrependNothing(WalkFrom(provider, start, order));
    while k < |order|
      invariant 0 <= k <= |order|
      invariant WalkFrom(provider, start, order) == Prepend(segments, WalkFrom(provider, current, order[k..]))
      invariant totalTime == TotalTime(segments) && totalDistance == TotalDistance(segments)
    {
      var stop := order[k];
      assert order[k..][1..] == order[k + 1..];
      var route := provider(current, stop.coords);
      if route.Some? {
        var duration := route.value.duration.GetOr(0.0);
        var distance := route.value.distance.GetOr(0.0);
        if duration == 0.0 && route.value.durationMin.Some? {
          duration := route.value.durationMin.value * 60.0;
        }
        if distance == 0.0 && route.value.distanceKm.Some? {
          distance := route.value.distanceKm.value * 1000.0;
        }
        if duration > 0.0 {
          var segment := Segment(current, stop.name, duration, distance);
          assert LegOf(provider, current, stop) == Some(segment);
          TotalsAppend(segments, segment);
          PrependTwice(segments, segment, WalkFrom(provider, stop.coords, order[k + 1..]));
          totalTime := totalTime + duration;
          totalDistance := totalDistance + distance;
          segments := segments + [segment];
          current := stop.coords;
        } else {
          valid := false;
          break;
        }
      } else {
        valid := false;
        break;
      }
      k := k + 1;
    }
    if valid {
      assert order[k..] == [];
      assert segments + [] == segments;
    }
    assert valid <==> WalkFrom(provider, start, order).Some?;
    assert valid ==> WalkFrom(provider, start, order) == Some(segments) && totalTime == TotalTime(segments);
  }

  /** Without the origin's coordinates, or without any destination's, there
      is nothing to plan. Otherwise every order of the found destinations is
      tried, and the planner ends with the first fastest drivable order, or
      with the number of orders tried when none is drivable. */
  method MultiRoutePlanner(origin: string, destinations: seq<string>, geocode: Geocoder, provider: Provider)
    returns (outcome: Outcome)
    ensures geocode(origin).None? ==> outcome == OriginNotFound(origin)
    ensures geocode(origin).Some? && Geocoded(geocode, destinations) == [] ==> outcome == NoValidDestinations
    ensures geocode(origin).Some? && Geocoded(geocode, destinations) != [] ==>
      var start, stops := geocode(origin).value, Geocoded(geocode, destinations);
      var kept := BestOf(provider, start, Permutations(stops));
      (kept.None? ==> outcome == NoValidRoute(Factorial(|stops|)))
      && (kept.Some? ==> outcome == Planned(origin, kept.value.order, kept.value.time, kept.value.segments))
  {
    var originCoords := geocode(origin);
    if originCoords.None? {
      return OriginNotFound(origin);
    }
    var start := originCoords.value;

    var stops: seq<Stop> := [];
    var d := 0;
    while d < |destinations|
      invariant 0 <= d <= |destinations|
      invariant stops == Geocoded(geocode, destinations[..d])
    {
      var dest := destinations[d];
      var coords := geocode(dest);
      assert destinations[..d + 1][..d] == destinations[..d];
      if coords.Some? {
        stops := stops + [Stop(dest, coords.value)];
      }
      d := d + 1;
    }
    assert destinations[..d] == destinations;
    if stops == [] {
      return NoValidDestinations;
    }

    var orders := Permutations(stops);
    var bestTime: Option<real> := None;
    var bestOrder: Option<seq<Stop>> := None;
    var bestRoutes: seq<Segment> := [];
    var tested: nat := 0;
    var i := 0;
    while i < |orders|
      invariant 0 <= i <= |orders|
      invariant tested == i
      invariant Keeps(BestOf(provider, start, orders[..i]), bestTime, bestOrder, bestRoutes)
    {
      var order := orders[i];
      tested := tested + 1;
      var valid, segments, totalTime, totalDistance := DriveOrder(provider, start, order);
      assert orders[..i + 1][..i] == orders[..i];
      if valid && (bestTime.None? || totalTime < bestTime.value) {
        bestTime := Some(totalTime);
        bestOrder := Some(order);
        bestRoutes := segments;
      }
      i := i + 1;
    }
    assert orders[..i] == orders;
    PermutationCount(stops);

    KeptOrderNotEmpty(provider, start, stops);
    if bestOrder.None? || bestOrder.value == [] {
      return NoValidRoute(tested);
    }
    return Planned(origin, bestOrder.value, bestTime.value, bestRoutes);
  }

  /** When the planner finds nothing drivable, no visiting order of the
      found destinations can be driven completely. */
  lemma {:induction false} NoPlanMeansNoDrivableOrder(provider: Provider, start: Point, stops: seq<Stop>)
    requires BestOf(provider, start, Permutations(stops)).None?
    ensures forall p :: multiset(p) == multiset(stops) ==> WalkFrom(provider, start, p).None?
  {
    var orders := Permutations(stops);
    BestOfIsFirstFastest(provider, start, orders);
    forall p | multiset(p) == multiset(stops)
      ensures WalkFrom(provider, start, p).None?
    {
      PermutationsAreComplete(stops, p);
      var k :| 0 <= k < |orders| && orders[k] == p;
    }
  }

  /** What the planner's answer means: the planned order visits exactly the
      destinations that were found, is drivable with the legs reported, one
      per destination, takes the reported time, and no visiting order of
      those destinations is faster. */
  lemma {:induction false} PlannedIsOptimal(provider: Provider, start: Point, stops: seq<Stop>)
    requires BestOf(provider, start, Permutations(stops)).Some?
    ensures var c := BestOf(provider, start, Permutations(stops)).value;
      multiset(c.order) == multiset(stops)
      && WalkFrom(provider, start, c.order) == Some(c.segments)
      && |c.segments| == |stops|
      && c.time == TotalTime(c.segments)
      && (forall p :: multiset(p) == multiset(stops) && WalkFrom(provider, start, p).Some? ==>
            c.time <= TotalTime(WalkFrom(provider, start, p).value))
  {
    var orders := Permutations(stops);
    BestOfIsFirstFastest(provider, start, orders);
    var c := BestOf(provider, start, orders).value;
    PermutationsAreReorderings(stops);
    assert c.order in orders;
    PermutationLengths(stops);
    WalkShape(provider, start, c.order);
    forall p | multiset(p) == multiset(stops) && WalkFrom(provider, start, p).Some?
      ensures c.time <= TotalTime(WalkFrom(provider, start, p).value)
    {
      PermutationsAreComplete(stops, p);
      var k :| 0 <= k < |orders| && orders[k] == p;
    }
  }

  /** Among equally fast orders the planner keeps the first one
      `itertools.permutations` yields: every drivable order before it is
      strictly slower. */
  lemma {:induction false} PlannedIsFirstAmongTies(provider: Provider, start: Point, stops: seq<Stop>, k: nat)
    requires BestOf(provider, start, Permutations(stops)).Some?
    requires k < BestOf(provider, start, Permutations(stops)).value.index
    requires k < |Permutations(stops)|
    requires WalkFrom(provider, start, Permutations(stops)[k]).Some?
    ensures BestOf(provider, start, Permutations(stops)).value.time
          < TotalTime(WalkFrom(provider, start, Permutations(stops)[k]).value)
  {
    BestOfIsFirstFastest(provider, start, Permutations(stops));
  }

  /** With one destination there is one order: the planner drives it if it can. */
  lemma OneStop(provider: Provider, start: Point, stop: Stop)
    ensures BestOf(provider, start, Permutations([stop])).Some? <==> LegOf(provider, start, stop).Some?
  {
    SingleOrder(stop);
    assert [[stop]][..0] == [];
    assert [stop][1..] == [];
    var leg := LegOf(provider, start, stop);
    if leg.Some? {
      assert WalkFrom(provider, stop.coords, []) == Some([]);
      assert WalkFrom(provider, start, [stop]) == Some([leg.value] + []);
    }
  }

  /** With two destinations the planner takes the second order only when it
      is strictly faster than the first; on a tie the given order wins. */
  lemma TwoStops(provider: Provider, start: Point, a: Stop, b: Stop)
    requires WalkFrom(provider, start, [a, b]).Some? && WalkFrom(provider, start, [b, a]).Some?
    ensures var kept := BestOf(provider, start, Permutations([a, b]));
      var ab, ba := TotalTime(WalkFrom(provider, start, [a, b]).value), TotalTime(WalkFrom(provider, start, [b, a]).value);
      kept.Some? && kept.value.order == (if ba < ab then [b, a] else [a, b])
  {
    TwoOrders(a, b);
    var orders := [[a, b], [b, a]];
    assert orders[..1] == [[a, b]] && orders[..1][..0] == [];
    var w := WalkFrom(provider, start, [a, b]).value;
    assert BestOf(provider, start, []) == None;
    assert BestOf(provider, start, [[a, b]]) == Some(Choice(0, [a, b], w, TotalTime(w)));
  }
}
