/** The delivery cost estimate (`real_cost_optimizer`, tools.py): every
    available vehicle that can carry the load gets a quote made of a base fee,
    fuel and driver time, scaled by the traffic and weather factors and by a
    surcharge when the load nearly fills the vehicle; the cheapest quote is
    recommended. The traffic and weather factors are given as inputs, and so
    is whether each place name was found. */
module Cost {
  import opened Sorting

  datatype Vehicle = Vehicle(id: string, kind: string, capacityKg: real, fuelCostPerKm: real,
                             speedKmph: real, available: bool)

  /** The fixed fleet. */
  const RealVehicles: seq<Vehicle> := [
    Vehicle("BIKE-001", "Motorcycle", 30.0, 2.5, 40.0, true),
    Vehicle("VAN-001", "Small Van", 500.0, 8.0, 50.0, true),
    Vehicle("TRUCK-001", "Light Truck", 2000.0, 15.0, 45.0, true),
    Vehicle("TRUCK-002", "Heavy Truck", 5000.0, 25.0, 40.0, true)
  ]

  const BaseFee: real := 150.0
  /** What the driver costs per hour. */
  const DriverCostPerHour: real := 200.0
  /** A load above this share of the capacity counts as nearly full. */
  const NearCapacityShare: real := 0.8
  const NearCapacitySurcharge: real := 1.15

  /** Every vehicle of a fleet can carry something. */
  predicate PositiveCapacities(fleet: seq<Vehicle>) {
    forall v :: v in fleet ==> v.capacityKg > 0.0
  }

  lemma RealVehiclesCarry()
    ensures PositiveCapacities(RealVehicles)
  {
  }

  /** The vehicles that are available and can carry `weightKg`, in fleet order. */
  function Suitable(fleet: seq<Vehicle>, weightKg: real): (r: seq<Vehicle>)
    ensures forall v :: v in r <==> v in fleet && v.capacityKg >= weightKg && v.available
    ensures |r| <= |fleet|
  {
    if fleet == [] then []
    else
      var rest := Suitable(fleet[1..], weightKg);
      if fleet[0].capacityKg >= weightKg && fleet[0].available then [fleet[0]] + rest else rest
  }

  /** One vehicle's quote with its parts. */
  datatype Quote = Quote(vehicle: Vehicle, totalCost: real, fuelCost: real, driverCost: real,
                         trafficFactor: real, weatherFactor: real)

  function TotalCostOf(q: Quote): real {
    q.totalCost
  }

  /** The surcharge factor: 1.15 when the load takes more than 80% of the
      capacity, 1 otherwise. */
  function CapacityMultiplier(weightKg: real, capacityKg: real): (m: real)
    requires capacityKg > 0.0
    ensures m == NearCapacitySurcharge <==> weightKg > NearCapacityShare * capacityKg
    ensures m == 1.0 <==> weightKg <= NearCapacityShare * capacityKg
  {
    var usage := weightKg / capacityKg;
    if usage > NearCapacityShare then NearCapacitySurcharge else 1.0
  }

  /** The quote for one vehicle: the base fee, the fuel for the distance
      and the driver's hours, scaled by the traffic and weather factors and
      by the surcharge for a nearly full vehicle. */
  function QuoteFor(v: Vehicle, distanceKm: real, weightKg: real, durationMin: real,
                    trafficFactor: real, weatherFactor: real): (q: Quote)
    requires v.capacityKg > 0.0
    ensures q.vehicle == v
    ensures q.fuelCost == distanceKm * v.fuelCostPerKm
    ensures q.driverCost == (durationMin / 60.0) * DriverCostPerHour
    ensures q.totalCost == (BaseFee + q.fuelCost + q.driverCost) * trafficFactor * weatherFactor
                           * CapacityMultiplier(weightKg, v.capacityKg)
    ensures q.trafficFactor == trafficFactor && q.weatherFactor == weatherFactor
  {
    var fuel := distanceKm * v.fuelCostPerKm;
    var driver := (durationMin / 60.0) * DriverCostPerHour;
    Quote(v, (BaseFee + fuel + driver) * trafficFactor * weatherFactor * CapacityMultiplier(weightKg, v.capacityKg),
          fuel, driver, trafficFactor, weatherFactor)
  }

  /** The quotes of the given vehicles, in order. */
  function QuotesFor(vehicles: seq<Vehicle>, distanceKm: real, weightKg: real, durationMin: real,
                     trafficFactor: real, weatherFactor: real): (r: seq<Quote>)
    requires PositiveCapacities(vehicles)
    ensures |r| == |vehicles|
    ensures forall i :: 0 <= i < |vehicles| ==> r[i].vehicle == vehicles[i]
  {
    seq(|vehicles|, i requires 0 <= i < |vehicles| =>
      QuoteFor(vehicles[i], distanceKm, weightKg, durationMin, trafficFactor, weatherFactor))
  }

  /** How the optimiser ends. With a suitable vehicle but a place name that was
      not found, the traffic lookup indexes the missing coordinates before its
      `try` and the optimiser stops with an error. */
  datatype CostOutcome =
    | NoVehicleAvailable(weightKg: real)
    | LocationNotFound
    | Recommended(best: Quote, options: seq<Quote>)

  /** Without a vehicle that can carry the load there is no estimate; without
      both places there is an error. Otherwise every suitable vehicle is quoted,
      the quotes are sorted by total cost (keeping fleet order among equal
      costs) and the first, cheapest one is recommended. */
  method RealCostOptimizer(originFound: bool, destinationFound: bool, distanceKm: real, weightKg: real,
                           durationMin: real, trafficFactor: real, weatherFactor: real)
    returns (outcome: CostOutcome)
    ensures Suitable(RealVehicles, weightKg) == [] ==> outcome == NoVehicleAvailable(weightKg)
    ensures Suitable(RealVehicles, weightKg) != [] && !(originFound && destinationFound) ==> outcome == LocationNotFound
    ensures Suitable(RealVehicles, weightKg) != [] && originFound && destinationFound ==>
      var quotes := QuotesFor(Suitable(RealVehicles, weightKg), distanceKm, weightKg, durationMin,
                              trafficFactor, weatherFactor);
      outcome.Recommended?
      && outcome.options == SortBy(quotes, TotalCostOf)
      && multiset(outcome.options) == multiset(quotes)
      && SortedBy(outcome.options, TotalCostOf)
      && (forall v :: WithKey(outcome.options, TotalCostOf, v) == WithKey(quotes, TotalCostOf, v))
      && outcome.best == outcome.options[0]
      && (forall q :: q in quotes ==> outcome.best.totalCost <= q.totalCost)
  {
    var suitable := Suitable(RealVehicles, weightKg);
    if suitable == [] {
      return NoVehicleAvailable(weightKg);
    }
    if !(originFound && destinationFound) {
      return LocationNotFound;
    }
    RealVehiclesCarry();
    var options := QuoteVehicles(suitable, distanceKm, weightKg, durationMin, trafficFactor, weatherFactor);
    SortByOrdersAndPermutes(options, TotalCostOf);
    HeadIsMinimal(options, TotalCostOf);
    forall v ensures WithKey(SortBy(options, TotalCostOf), TotalCostOf, v) == WithKey(options, TotalCostOf, v) {
      SortByIsStable(options, TotalCostOf, v);
    }
    var sorted := SortBy(options, TotalCostOf);
    return Recommended(sorted[0], sorted);
  }

  /** The loop that quotes every suitable vehicle in turn. */
  method QuoteVehicles(suitable: seq<Vehicle>, distanceKm: real, weightKg: real, durationMin: real,
                       trafficFactor: real, weatherFactor: real)
    returns (options: seq<Quote>)
    requires PositiveCapacities(suitable)
    ensures options == QuotesFor(suitable, distanceKm, weightKg, durationMin, trafficFactor, weatherFactor)
  {
    options := [];
    var i := 0;
    while i < |suitable|
      invariant 0 <= i <= |suitable|
      invariant options == QuotesFor(suitable[..i], distanceKm, weightKg, durationMin, trafficFactor, weatherFactor)
    {
      var vehicle := suitable[i];
      var quote := QuoteFor(vehicle, distanceKm, weightKg, durationMin, trafficFactor, weatherFactor);
      assert suitable[..i + 1] == suitable[..i] + [vehicle];
      QuotesSnoc(suitable[..i], vehicle, distanceKm, weightKg, durationMin, trafficFactor, weatherFactor);
      options := options + [quote];
      i := i + 1;
    }
    assert suitable[..i] == suitable;
  }

  lemma QuotesSnoc(vehicles: seq<Vehicle>, v: Vehicle, distanceKm: real, weightKg: real, durationMin: real,
                   trafficFactor: real, weatherFactor: real)
    requires PositiveCapacities(vehicles + [v])
    ensures PositiveCapacities(vehicles)
    ensures QuotesFor(vehicles + [v], distanceKm, weightKg, durationMin, trafficFactor, weatherFactor)
         == QuotesFor(vehicles, distanceKm, weightKg, durationMin, trafficFactor, weatherFactor)
            + [QuoteFor(v, distanceKm, weightKg, durationMin, trafficFactor, weatherFactor)]
  {
  }

  /** A 100 kg load over 50 km and 60 minutes with neutral factors: the
      motorcycle cannot carry it; the Small Van costs 150 + 400 + 200 = 750,
      the Light Truck 1100 and the Heavy Truck 1600, none with a surcharge. */
  lemma HundredKiloExample()
    ensures Suitable(RealVehicles, 100.0) == RealVehicles[1..]
    ensures QuotesFor(RealVehicles[1..], 50.0, 100.0, 60.0, 1.0, 1.0)[0].totalCost == 750.0
    ensures QuotesFor(RealVehicles[1..], 50.0, 100.0, 60.0, 1.0, 1.0)[1].totalCost == 1100.0
    ensures QuotesFor(RealVehicles[1..], 50.0, 100.0, 60.0, 1.0, 1.0)[2].totalCost == 1600.0
    ensures SortBy(QuotesFor(RealVehicles[1..], 50.0, 100.0, 60.0, 1.0, 1.0), TotalCostOf)[0].vehicle.id == "VAN-001"
  {
    HundredKiloFleet();
    var fleet := RealVehicles[1..];
    var quotes := QuotesFor(fleet, 50.0, 100.0, 60.0, 1.0, 1.0);
    HundredKiloQuote(fleet[0], 400.0);
    HundredKiloQuote(fleet[1], 750.0);
    HundredKiloQuote(fleet[2], 1250.0);
    HeadIsMinimal(quotes, TotalCostOf);
    var head := SortBy(quotes, TotalCostOf)[0];
    assert head in quotes;
    assert head.totalCost <= quotes[0].totalCost;
  }

  lemma HundredKiloFleet()
    ensures Suitable(RealVehicles, 100.0) == RealVehicles[1..]
  {
    assert Suitable(RealVehicles[3..], 100.0) == [RealVehicles[3]];
    assert Suitable(RealVehicles[2..], 100.0) == RealVehicles[2..];
  }

  /** One vehicle's quote for the 100 kg example, given its fuel cost. */
  lemma HundredKiloQuote(v: Vehicle, fuel: real)
    requires v.capacityKg >= 500.0 && fuel == 50.0 * v.fuelCostPerKm
    ensures QuoteFor(v, 50.0, 100.0, 60.0, 1.0, 1.0).totalCost == BaseFee + fuel + 200.0
  {
    assert CapacityMultiplier(100.0, v.capacityKg) == 1.0;
  }

  /** With non-negative prices and factors, a trip that is no longer and no
      slower never gets a higher quote from the same vehicle for the same load. */
  lemma LongerTripsCostMore(v: Vehicle, d1: real, d2: real, weightKg: real, m1: real, m2: real,
                            trafficFactor: real, weatherFactor: real)
    requires v.capacityKg > 0.0 && v.fuelCostPerKm >= 0.0
    requires 0.0 <= d1 <= d2 && 0.0 <= m1 <= m2
    requires trafficFactor >= 0.0 && weatherFactor >= 0.0
    ensures QuoteFor(v, d1, weightKg, m1, trafficFactor, weatherFactor).totalCost
         <= QuoteFor(v, d2, weightKg, m2, trafficFactor, weatherFactor).totalCost
  {
    var c := CapacityMultiplier(weightKg, v.capacityKg);
    var b1 := BaseFee + d1 * v.fuelCostPerKm + (m1 / 60.0) * DriverCostPerHour;
    var b2 := BaseFee + d2 * v.fuelCostPerKm + (m2 / 60.0) * DriverCostPerHour;
    ScaleKeepsOrder(d1, d2, v.fuelCostPerKm);
    ScaleKeepsOrder(b1, b2, trafficFactor);
    ScaleKeepsOrder(b1 * trafficFactor, b2 * trafficFactor, weatherFactor);
    ScaleKeepsOrder(b1 * trafficFactor * weatherFactor, b2 * trafficFactor * weatherFactor, c);
  }

  lemma ScaleKeepsOrder(a: real, b: real, k: real)
    requires a <= b && k >= 0.0
    ensures a * k <= b * k
  {
  }

  /** A load above 80% of a vehicle's capacity costs 15% more than the same
      trip with a lighter load. */
  lemma NearlyFullCostsMore(v: Vehicle, distanceKm: real, light: real, heavy: real, durationMin: real,
                            trafficFactor: real, weatherFactor: real)
    requires v.capacityKg > 0.0
    requires light <= NearCapacityShare * v.capacityKg < heavy
    ensures QuoteFor(v, distanceKm, heavy, durationMin, trafficFactor, weatherFactor).totalCost
         == NearCapacitySurcharge * QuoteFor(v, distanceKm, light, durationMin, trafficFactor, weatherFactor).totalCost
  {
  }
}
