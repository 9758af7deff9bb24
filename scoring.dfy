/** Choosing the best of the routes the routing service offers between two
    points (`find_optimal_route`, tools.py). Each route gets a score that mixes
    its time, stretched by traffic and weather, with its fuel cost; the routes
    are then sorted by score and the first one is the optimum. The traffic
    factor and the weather report are given as inputs: they come from the
    Traffic and Weather modules. */
module Scoring {
  import opened Common
  import opened Osrm
  import opened Sorting
  import Weather

  /** The fuel price per kilometre the score assumes. */
  const FuelCostPerKm: real := 8.0
  /** The weights of time and of cost in the score. */
  const TimeWeight: real := 0.6
  const CostWeight: real := 0.4

  /** A route with its score and what the score is made of. */
  datatype ScoredRoute = ScoredRoute(
    routeNum: nat,
    distanceKm: real,
    durationMin: real,
    adjustedDuration: real,
    estimatedCost: real,
    score: real,
    instructions: seq<Instruction>,
    weatherWarnings: seq<Weather.Warning>)

  /** What `find_optimal_route` returns. */
  datatype Optimization = Optimization(
    optimal: ScoredRoute,
    allRoutes: seq<ScoredRoute>,
    weatherData: Weather.WeatherReport,
    trafficFactor: real)

  /** The score of a route of the given minutes and kilometres. */
  function Score(durationMin: real, distanceKm: real, trafficFactor: real, weatherFactor: real): real {
    TimeWeight * (durationMin * trafficFactor * weatherFactor) + CostWeight * (distanceKm * FuelCostPerKm)
  }

  function ScoreOf(r: ScoredRoute): real {
    r.score
  }

  /** A route with its adjusted time, fuel cost and score. */
  function Scored(route: DetailedRoute, trafficFactor: real, weather: Weather.WeatherReport): (r: ScoredRoute)
    ensures r.score == Score(route.durationMin, route.distanceKm, trafficFactor, weather.weatherFactor)
    ensures r.score == TimeWeight * r.adjustedDuration + CostWeight * r.estimatedCost
    ensures r.adjustedDuration == route.durationMin * trafficFactor * weather.weatherFactor
    ensures r.estimatedCost == route.distanceKm * FuelCostPerKm
    ensures r.routeNum == route.routeNumber && r.instructions == route.instructions
    ensures r.distanceKm == route.distanceKm && r.durationMin == route.durationMin
    ensures r.weatherWarnings == weather.warnings
  {
    var adjusted := route.durationMin * trafficFactor * weather.weatherFactor;
    var cost := route.distanceKm * FuelCostPerKm;
    ScoredRoute(route.routeNumber, route.distanceKm, route.durationMin, adjusted, cost,
                adjusted * TimeWeight + cost * CostWeight, route.instructions, weather.warnings)
  }

  /** Every route scored, in the order given. */
  function ScoredAll(routes: seq<DetailedRoute>, trafficFactor: real, weather: Weather.WeatherReport): (r: seq<ScoredRoute>)
    ensures |r| == |routes|
  {
    seq(|routes|, i requires 0 <= i < |routes| => Scored(routes[i], trafficFactor, weather))
  }

  lemma ScoredAllSnoc(routes: seq<DetailedRoute>, route: DetailedRoute, trafficFactor: real, weather: Weather.WeatherReport)
    ensures ScoredAll(routes + [route], trafficFactor, weather)
         == ScoredAll(routes, trafficFactor, weather) + [Scored(route, trafficFactor, weather)]
  {
  }

  /** A route that is no longer and no slower than another never scores
      worse, as long as the factors are not negative. */
  lemma ScoreIsMonotonic(d1: real, k1: real, d2: real, k2: real, trafficFactor: real, weatherFactor: real)
    requires d1 <= d2 && k1 <= k2
    requires 0.0 <= trafficFactor && 0.0 <= weatherFactor
    ensures Score(d1, k1, trafficFactor, weatherFactor) <= Score(d2, k2, trafficFactor, weatherFactor)
  {
    var f := trafficFactor * weatherFactor;
    assert 0.0 <= f;
    assert d1 * trafficFactor * weatherFactor == d1 * f;
    assert d2 * trafficFactor * weatherFactor == d2 * f;
    assert d1 * f <= d2 * f;
  }

  /** Without routes there is nothing to choose. Otherwise every route is
      scored; `allRoutes` holds them all, sorted by score, keeping the service's
      order among equal scores; `optimal` is the first of them and no route
      scores lower. */
  method FindOptimalRoute(detailed: Option<seq<DetailedRoute>>, trafficFactor: real, weather: Weather.WeatherReport)
    returns (r: Option<Optimization>)
    ensures r.None? <==> detailed.None? || detailed.value == []
    ensures r.Some? ==>
      var scored := ScoredAll(detailed.value, trafficFactor, weather);
      r.value.allRoutes == SortBy(scored, ScoreOf)
      && multiset(r.value.allRoutes) == multiset(scored)
      && SortedBy(r.value.allRoutes, ScoreOf)
      && (forall v :: WithKey(r.value.allRoutes, ScoreOf, v) == WithKey(scored, ScoreOf, v))
      && r.value.optimal == r.value.allRoutes[0]
      && (forall x :: x in scored ==> r.value.optimal.score <= x.score)
      && r.value.weatherData == weather
      && r.value.trafficFactor == trafficFactor
  {
    if detailed.None? || detailed.value == [] {
      return None;
    }
    var routes := detailed.value;
    var scored: seq<ScoredRoute> := [];
    var i := 0;
    while i < |routes|
      invariant 0 <= i <= |routes|
      invariant scored == ScoredAll(routes[..i], trafficFactor, weather)
    {
      var route := routes[i];
      var adjusted := route.durationMin * trafficFactor * weather.weatherFactor;
      var cost := route.distanceKm * FuelCostPerKm;
      var score := adjusted * TimeWeight + cost * CostWeight;
      var entry := ScoredRoute(route.routeNumber, route.distanceKm, route.durationMin, adjusted, cost,
                               score, route.instructions, weather.warnings);
      assert entry == Scored(route, trafficFactor, weather);
      assert routes[..i + 1] == routes[..i] + [route];
      ScoredAllSnoc(routes[..i], route, trafficFactor, weather);
      scored := scored + [entry];
      i := i + 1;
    }
    assert routes[..i] == routes;
    SortByOrdersAndPermutes(scored, ScoreOf);
    HeadIsMinimal(scored, ScoreOf);
    forall v ensures WithKey(SortBy(scored, ScoreOf), ScoreOf, v) == WithKey(scored, ScoreOf, v) {
      SortByIsStable(scored, ScoreOf, v);
    }
    var sorted := SortBy(scored, ScoreOf);
    r := Some(Optimization(sorted[0], sorted, weather, trafficFactor));
  }

  /** The optimal score depends only on which routes are offered, not on the
      order the service lists them in. */
  lemma {:induction false} OptimalScoreIgnoresOrder(a: seq<ScoredRoute>, b: seq<ScoredRoute>)
    requires a != [] && multiset(a) == multiset(b)
    ensures SortBy(b, ScoreOf) != []
    ensures SortBy(a, ScoreOf)[0].score == SortBy(b, ScoreOf)[0].score
  {
    assert b != [] by {
      assert a[0] in multiset(a);
    }
    HeadIsMinimal(a, ScoreOf);
    HeadIsMinimal(b, ScoreOf);
    var ha, hb := SortBy(a, ScoreOf)[0], SortBy(b, ScoreOf)[0];
    assert ha in a && hb in b;
    assert ha in b by {
      assert ha in multiset(b);
    }
    assert hb in a by {
      assert hb in multiset(a);
    }
  }
}
