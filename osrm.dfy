/** The three readers of the OSRM routing service's answer (api/api.py):
    the first route of a response, the list of alternatives, and every route
    with its turn-by-turn instructions. The HTTP request is not modelled: a
    response is given already parsed, and `None` stands for a request that
    failed (timeout, error status, unreadable body), which every reader
    catches. */
module Osrm {
  import opened Common

  /** A coordinate pair, latitude first. */
  type Point = (real, real)

  /** A step's `maneuver` object; both of its keys may be missing. */
  datatype Maneuver = Maneuver(kind: Option<string>, modifier: Option<string>)

  /** One step of a leg: metres, seconds, and the optional manoeuvre and road name. */
  datatype Step = Step(distance: real, duration: real, maneuver: Option<Maneuver>, name: Option<string>)

  /** One leg of a route; its `steps` key may be missing. */
  datatype Leg = Leg(steps: Option<seq<Step>>)

  /** The route's line as GeoJSON coordinates. */
  datatype Geometry = LineString(coordinates: seq<Point>)

  /** One route of a response: metres, seconds, the line and the optional legs. */
  datatype Route = Route(distance: real, duration: real, geometry: Geometry, legs: Option<seq<Leg>>)

  /** A parsed response: the status `code` and the `routes`, either of which may be missing. */
  datatype Response = Response(code: Option<string>, routes: Option<seq<Route>>)

  /** The status the service reports on success. */
  const OkCode: string := "Ok"

  /** The response says "Ok" and carries at least one route. */
  predicate HasRoutes(data: Response) {
    data.code == Some(OkCode) && data.routes.Some? && data.routes.value != []
  }

  // ---------------------------------------------------------------------
  // get_route_osrm
  // ---------------------------------------------------------------------

  /** What `get_route_osrm` returns: kilometres, minutes, the line and the first leg's steps. */
  datatype RouteSummary = RouteSummary(distanceKm: real, durationMin: real, geometry: Geometry, steps: seq<Step>)

  /** The first route in kilometres and minutes. Without an "Ok" code, without
      routes, or with a first route that has no first leg (the lookup fails and
      the error is caught) there is no route. */
  function GetRouteOsrm(response: Option<Response>): (r: Option<RouteSummary>)
    ensures r.Some? <==>
      response.Some? && HasRoutes(response.value)
      && response.value.routes.value[0].legs.Some? && response.value.routes.value[0].legs.value != []
    ensures r.Some? ==>
      var route := response.value.routes.value[0];
      r.value.distanceKm * 1000.0 == route.distance
      && r.value.durationMin * 60.0 == route.duration
      && r.value.geometry == route.geometry
      && r.value.steps == route.legs.value[0].steps.GetOr([])
  {
    if response.None? || !HasRoutes(response.value) then None
    else
      var route := response.value.routes.value[0];
      if route.legs.None? || route.legs.value == [] then None
      else Some(RouteSummary(route.distance / 1000.0, route.duration / 60.0, route.geometry,
                             route.legs.value[0].steps.GetOr([])))
  }

  // ---------------------------------------------------------------------
  // get_alternative_routes_osrm
  // ---------------------------------------------------------------------

  /** One entry of `get_alternative_routes_osrm`. */
  datatype Alternative = Alternative(distanceKm: real, durationMin: real)

  /** One entry per route of an "Ok" response, in the response's order, in
      kilometres and minutes; nothing otherwise. A missing `routes` key is read
      as no routes. */
  method AlternativeRoutes(response: Option<Response>) returns (routes: seq<Alternative>)
    ensures response.None? || response.value.code != Some(OkCode) ==> routes == []
    ensures response.Some? && response.value.code == Some(OkCode) ==>
      var given := response.value.routes.GetOr([]);
      |routes| == |given|
      && forall i :: 0 <= i < |given| ==>
           routes[i].distanceKm * 1000.0 == given[i].distance
           && routes[i].durationMin * 60.0 == given[i].duration
  {
    routes := [];
    if response.None? || response.value.code != Some(OkCode) {
      return;
    }
    var given := response.value.routes.GetOr([]);
    var i := 0;
    while i < |given|
      invariant 0 <= i <= |given|
      invariant |routes| == i
      invariant forall n :: 0 <= n < i ==>
        routes[n].distanceKm * 1000.0 == given[n].distance
        && routes[n].durationMin * 60.0 == given[n].duration
    {
      var route := given[i];
      routes := routes + [Alternative(route.distance / 1000.0, route.duration / 60.0)];
      i := i + 1;
    }
  }

  // ---------------------------------------------------------------------
  // get_detailed_route_with_instructions
  // ---------------------------------------------------------------------

  /** One turn-by-turn instruction. */
  datatype Instruction = Instruction(distanceKm: real, durationMin: real, instruction: string,
                                     roadName: string, direction: string)

  /** A route numbered from 1 with its instructions. */
  datatype DetailedRoute = DetailedRoute(routeNumber: nat, distanceKm: real, durationMin: real,
                                         instructions: seq<Instruction>)

  const DefaultManeuver: string := "continue"
  const DefaultRoadName: string := "Unnamed road"
  const DefaultDirection: string := ""

  /** A step as an instruction: kilometres and minutes, the manoeuvre's type
      (by default "continue"), the road name (by default "Unnamed road") and
      the manoeuvre's modifier (by default empty). */
  function InstructionOf(step: Step): (r: Instruction)
    ensures r.distanceKm * 1000.0 == step.distance && r.durationMin * 60.0 == step.duration
    ensures step.maneuver.None? || step.maneuver.value.kind.None? ==> r.instruction == DefaultManeuver
    ensures step.maneuver.Some? && step.maneuver.value.kind.Some? ==> r.instruction == step.maneuver.value.kind.value
    ensures step.maneuver.None? || step.maneuver.value.modifier.None? ==> r.direction == DefaultDirection
    ensures step.maneuver.Some? && step.maneuver.value.modifier.Some? ==> r.direction == step.maneuver.value.modifier.value
    ensures step.name.None? ==> r.roadName == DefaultRoadName
    ensures step.name.Some? ==> r.roadName == step.name.value
  {
    var m := step.maneuver.GetOr(Maneuver(None, None));
    Instruction(step.distance / 1000.0, step.duration / 60.0,
                m.kind.GetOr(DefaultManeuver), step.name.GetOr(DefaultRoadName), m.modifier.GetOr(DefaultDirection))
  }

  /** The instructions of a sequence of steps, one per step. */
  function InstructionsOf(steps: seq<Step>): (r: seq<Instruction>)
    ensures |r| == |steps|
  {
    seq(|steps|, i requires 0 <= i < |steps| => InstructionOf(steps[i]))
  }

  /** The steps of all legs, leg after leg; a leg without `steps` has none. */
  function AllSteps(legs: seq<Leg>): seq<Step> {
    if legs == [] then [] else AllSteps(legs[..|legs| - 1]) + legs[|legs| - 1].steps.GetOr([])
  }

  lemma InstructionsAppend(a: seq<Step>, b: seq<Step>)
    ensures InstructionsOf(a + b) == InstructionsOf(a) + InstructionsOf(b)
  {
  }

  /** The steps of two runs of legs are the steps of the first run followed by those of the second. */
  lemma {:induction false} AllStepsAppend(a: seq<Leg>, b: seq<Leg>)
    ensures AllSteps(a + b) == AllSteps(a) + AllSteps(b)
    decreases |b|
  {
    if b == [] {
      assert a + b == a;
    } else {
      var b' := b[..|b| - 1];
      assert (a + b)[..|a + b| - 1] == a + b';
      AllStepsAppend(a, b');
    }
  }

  /** Leg j's steps appear together, after those of every earlier leg and
      before those of every later leg. */
  lemma {:induction false} StepsOfLegInPlace(legs: seq<Leg>, j: nat)
    requires j < |legs|
    ensures AllSteps(legs) == AllSteps(legs[..j]) + legs[j].steps.GetOr([]) + AllSteps(legs[j + 1..])
  {
    var pre, one, post := legs[..j], [legs[j]], legs[j + 1..];
    assert legs == (pre + one) + post;
    AllStepsAppend(pre + one, post);
    AllStepsAppend(pre, one);
    assert one[..0] == [];
    assert AllSteps(one) == legs[j].steps.GetOr([]);
  }

  /** Every route of an "Ok" response with routes, numbered from 1, in
      kilometres and minutes, with the instructions of all its legs' steps in
      order; no result otherwise. A missing `legs` key is read as no legs. */
  method DetailedRoutes(response: Option<Response>) returns (r: Option<seq<DetailedRoute>>)
    ensures r.Some? <==> response.Some? && HasRoutes(response.value)
    ensures r.Some? ==>
      var given := response.value.routes.value;
      |r.value| == |given|
      && forall i :: 0 <= i < |given| ==>
           r.value[i].routeNumber == i + 1
           && r.value[i].distanceKm * 1000.0 == given[i].distance
           && r.value[i].durationMin * 60.0 == given[i].duration
           && r.value[i].instructions == InstructionsOf(AllSteps(given[i].legs.GetOr([])))
  {
    if response.None? || !HasRoutes(response.value) {
      return None;
    }
    var given := response.value.routes.value;
    var all: seq<DetailedRoute> := [];
    var i := 0;
    while i < |given|
      invariant 0 <= i <= |given|
      invariant |all| == i
      invariant forall n :: 0 <= n < i ==>
        all[n].routeNumber == n + 1
        && all[n].distanceKm * 1000.0 == given[n].distance
        && all[n].durationMin * 60.0 == given[n].duration
        && all[n].instructions == InstructionsOf(AllSteps(given[n].legs.GetOr([])))
    {
      var route := given[i];
      var legs := route.legs.GetOr([]);
      var instructions: seq<Instruction> := [];
      var j := 0;
      while j < |legs|
        invariant 0 <= j <= |legs|
        invariant instructions == InstructionsOf(AllSteps(legs[..j]))
      {
        var steps := legs[j].steps.GetOr([]);
        var k := 0;
        while k < |steps|
          invariant 0 <= k <= |steps|
          invariant instructions == InstructionsOf(AllSteps(legs[..j]) + steps[..k])
        {
          assert steps[..k + 1] == steps[..k] + [steps[k]];
          InstructionsAppend(AllSteps(legs[..j]) + steps[..k], [steps[k]]);
          assert AllSteps(legs[..j]) + steps[..k + 1] == AllSteps(legs[..j]) + steps[..k] + [steps[k]];
          instructions := instructions + [InstructionOf(steps[k])];
          k := k + 1;
        }
        assert steps[..k] == steps;
        assert legs[..j + 1][..j] == legs[..j];
        j := j + 1;
      }
      assert legs[..j] == legs;
      all := all + [DetailedRoute(i + 1, route.distance / 1000.0, route.duration / 60.0, instructions)];
      i := i + 1;
    }
    r := Some(all);
  }
}
