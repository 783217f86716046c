/**
 * The route estimator (optimizeRoute). It runs no search: it costs one baseline
 * route of a fixed 160.8 km with the cost model, scales the baseline's distance,
 * fuel and time down by an improvement profile chosen by priority, and reports
 * the savings.
 */
module RouteEstimator {
  import opened Wrappers
  import opened CostModel

  /** Fractional reductions of distance, fuel and time for one priority. */
  datatype Improvement = Improvement(distance: real, fuel: real, time: real)

  const Improvements: map<string, Improvement> := map[
    "balanced" := Improvement(0.12, 0.15, 0.10),
    "fuel"     := Improvement(0.08, 0.22, 0.05),
    "distance" := Improvement(0.18, 0.12, 0.08),
    "time"     := Improvement(0.10, 0.10, 0.18),
    "carbon"   := Improvement(0.15, 0.20, 0.12)
  ]

  /** The fixed baseline distance (km), baseline area (km2), area gain and fuel price (RM per litre). */
  const BaseDistance: real := 160.8
  const BaseArea: real := 450.0
  const AreaGain: real := 1.15
  const FuelPrice: real := 2.5

  /**
   * The caller's parameter object. `vehicleType` and `fuelType` are None when
   * the property is absent, in which case "truck" and "diesel" are used.
   */
  datatype Parameters = Parameters(
    startLocation: string,
    destinations: seq<string>,
    loadCapacity: real,
    currentLoad: real,
    areaCoverage: real,
    priority: string,
    vehicleType: Option<string>,
    fuelType: Option<string>)

  datatype Metrics = Metrics(
    distance: real, fuel: real, co2: real, time: real, area: real, loadUtilization: real)

  datatype Savings = Savings(
    distance: real, fuel: real, co2: real, time: real, cost: real,
    distancePercent: real, fuelPercent: real, co2Percent: real, timePercent: real)

  datatype OptimizationResult = OptimizationResult(current: Metrics, optimized: Metrics, savings: Savings)

  /** The profile for a priority; a priority outside the table gets the balanced profile. */
  function ImprovementFor(priority: string): (imp: Improvement)
    ensures 0.0 < imp.distance < 1.0 && 0.0 < imp.fuel < 1.0 && 0.0 < imp.time < 1.0
    ensures priority in Improvements ==> imp == Improvements[priority]
    ensures priority !in Improvements ==> imp == Improvements["balanced"]
  {
    if priority in Improvements then Improvements[priority] else Improvements["balanced"]
  }

  /** The vehicle type after destructuring: the given one, or "truck" when it is omitted. */
  function VehicleOf(p: Parameters): (v: string)
    ensures p.vehicleType.Some? ==> v == p.vehicleType.value
    ensures p.vehicleType.None? ==> v == "truck"
  {
    p.vehicleType.GetOr("truck")
  }

  /** The fuel type after destructuring: the given one, or "diesel" when it is omitted. */
  function FuelTypeOf(p: Parameters): (f: string)
    ensures p.fuelType.Some? ==> f == p.fuelType.value
    ensures p.fuelType.None? ==> f == "diesel"
  {
    p.fuelType.GetOr("diesel")
  }

  /** The baseline travel time is at least 214 minutes, so it is never 0. */
  lemma BaseTimePositive(stops: nat)
    ensures TravelTime(BaseDistance, stops) >= 214
  {
  }

  /** The current route: the cost model on the fixed baseline distance, one stop per destination. */
  function BaselineMetrics(load: real, capacity: real, stops: nat, vehicleType: string, fuelType: string): Metrics
    requires capacity != 0.0
  {
    var fuel := Fuel(BaseDistance, load, capacity, vehicleType).value;
    Metrics(BaseDistance, fuel, CO2(fuel, fuelType), TravelTime(BaseDistance, stops) as real,
            BaseArea, (load / capacity) * 100.0)
  }

  /** The projected route: distance, fuel and time scaled down, CO2 recomputed from the fuel, area 15% larger. */
  function OptimizedMetrics(current: Metrics, imp: Improvement, fuelType: string): Metrics
  {
    var fuel := current.fuel * (1.0 - imp.fuel);
    Metrics(current.distance * (1.0 - imp.distance), fuel, CO2(fuel, fuelType),
            current.time * (1.0 - imp.time), current.area * AreaGain, current.loadUtilization)
  }

  /** Savings of the optimized over the current route: differences, cost at the fuel price, percentages of the baseline. */
  function SavingsBetween(current: Metrics, optimized: Metrics): Savings
    requires current.distance != 0.0 && current.fuel != 0.0 && current.co2 != 0.0 && current.time != 0.0
  {
    var distanceSaved := current.distance - optimized.distance;
    var fuelSaved := current.fuel - optimized.fuel;
    var co2Saved := current.co2 - optimized.co2;
    var timeSaved := current.time - optimized.time;
    Savings(distanceSaved, fuelSaved, co2Saved, timeSaved, fuelSaved * FuelPrice,
            (distanceSaved / current.distance) * 100.0,
            (fuelSaved / current.fuel) * 100.0,
            (co2Saved / current.co2) * 100.0,
            (timeSaved / current.time) * 100.0)
  }

  /**
   * optimizeRoute. Where the source would produce Infinity or NaN (a zero
   * capacity, or percentages of a zero baseline fuel) the model reports which.
   */
  function OptimizeRoute(p: Parameters): (r: Result<OptimizationResult, CostError>)
    ensures r == Err(ZeroCapacity) <==> p.loadCapacity == 0.0
    ensures r == Err(ZeroBaselineFuel) <==> p.loadCapacity != 0.0 && p.currentLoad == -10.0 / 3.0 * p.loadCapacity
    ensures r.Err? ==> r == Err(ZeroCapacity) || r == Err(ZeroBaselineFuel)
  {
    if p.loadCapacity == 0.0 then Err(ZeroCapacity)
    else
      var fuelType := FuelTypeOf(p);
      var current := BaselineMetrics(p.currentLoad, p.loadCapacity, |p.destinations|, VehicleOf(p), fuelType);
      BaselineFuelZero(p);
      if current.fuel == 0.0 then Err(ZeroBaselineFuel)
      else
        BaseTimePositive(|p.destinations|);
        CO2NonZero(current.fuel, fuelType);
        var optimized := OptimizedMetrics(current, ImprovementFor(p.priority), fuelType);
        Ok(OptimizationResult(current, optimized, SavingsBetween(current, optimized)))
  }

  lemma CO2NonZero(fuel: real, fuelType: string)
    requires fuel != 0.0
    ensures CO2(fuel, fuelType) != 0.0
  {
    var k := EmissionFactor(fuelType);
    assert fuel * k != 0.0;
  }

  /** The baseline fuel is zero exactly when the load is -10/3 of the capacity. */
  lemma BaselineFuelZero(p: Parameters)
    requires p.loadCapacity != 0.0
    ensures Fuel(BaseDistance, p.currentLoad, p.loadCapacity, VehicleOf(p)).value == 0.0
        <==> p.currentLoad == -10.0 / 3.0 * p.loadCapacity
  {
  }

  // ---------------------------------------------------------------------------
  // Properties of the estimate

  /** A priority outside the table gives exactly the balanced estimate. */
  lemma UnknownPriorityIsBalanced(p: Parameters)
    requires p.priority !in Improvements
    ensures OptimizeRoute(p) == OptimizeRoute(p.(priority := "balanced"))
  {
  }

  /** The baseline is the cost model applied to a fixed 160.8 km route with one stop per destination. */
  lemma BaselineFromCostModel(p: Parameters)
    requires OptimizeRoute(p).Ok?
    ensures var c := OptimizeRoute(p).value.current;
      && c.distance == 160.8
      && c.fuel == Fuel(160.8, p.currentLoad, p.loadCapacity, VehicleOf(p)).value
      && c.co2 == CO2(c.fuel, FuelTypeOf(p))
      && c.time == TravelTime(160.8, |p.destinations|) as real
      && c.area == 450.0
  {
  }

  /** How a successful estimate is assembled from its three parts. */
  lemma EstimateParts(p: Parameters)
    requires OptimizeRoute(p).Ok?
    ensures var r := OptimizeRoute(p).value;
      && p.loadCapacity != 0.0
      && r.current == BaselineMetrics(p.currentLoad, p.loadCapacity, |p.destinations|, VehicleOf(p), FuelTypeOf(p))
      && r.current.fuel != 0.0 && r.current.time >= 214.0
      && r.optimized == OptimizedMetrics(r.current, ImprovementFor(p.priority), FuelTypeOf(p))
      && r.savings == SavingsBetween(r.current, r.optimized)
  {
    BaseTimePositive(|p.destinations|);
  }

  /** The fixed terms: baseline distance 160.8 km, area 450 km2 grown to 517.5 km2, load utilization unchanged. */
  lemma FixedTerms(p: Parameters)
    requires OptimizeRoute(p).Ok?
    ensures var r := OptimizeRoute(p).value;
      && r.current.distance == 160.8
      && r.current.area == 450.0 && r.optimized.area == 517.5
      && r.optimized.loadUtilization == r.current.loadUtilization == p.currentLoad / p.loadCapacity * 100.0
  {
    EstimateParts(p);
  }

  /** Scaling by a profile with fractions in (0, 1) lowers a positive distance, time and fuel, and the CO2 with the fuel. */
  lemma OptimizedMetricsLower(c: Metrics, imp: Improvement, fuelType: string)
    requires 0.0 < imp.distance < 1.0 && 0.0 < imp.fuel < 1.0 && 0.0 < imp.time < 1.0
    requires c.co2 == CO2(c.fuel, fuelType)
    ensures var o := OptimizedMetrics(c, imp, fuelType);
      && (c.distance > 0.0 ==> o.distance < c.distance)
      && (c.time > 0.0 ==> o.time < c.time)
      && (c.fuel > 0.0 ==> o.fuel < c.fuel && o.co2 < c.co2)
  {
  }

  /** The optimized estimate is strictly better in distance and time, and in fuel and CO2 whenever the baseline fuel is positive. */
  lemma OptimizedIsBetter(p: Parameters)
    requires OptimizeRoute(p).Ok?
    ensures var r := OptimizeRoute(p).value;
      && r.optimized.distance < r.current.distance && r.savings.distance > 0.0
      && r.optimized.time < r.current.time && r.savings.time > 0.0
      && (r.current.fuel > 0.0 ==>
            r.optimized.fuel < r.current.fuel && r.savings.fuel > 0.0
            && r.optimized.co2 < r.current.co2 && r.savings.co2 > 0.0 && r.savings.cost > 0.0)
  {
    var r := OptimizeRoute(p).value;
    EstimateParts(p);
    OptimizedMetricsLower(r.current, ImprovementFor(p.priority), FuelTypeOf(p));
  }

  /** Each percentage saved is the profile's fraction times 100; CO2 saved is fuel saved times the factor; cost is fuel saved at 2.50. */
  lemma ProfileSavings(c: Metrics, imp: Improvement, fuelType: string)
    requires c.distance != 0.0 && c.fuel != 0.0 && c.time != 0.0
    requires c.co2 == CO2(c.fuel, fuelType)
    ensures CO2(c.fuel, fuelType) != 0.0
    ensures var o := OptimizedMetrics(c, imp, fuelType);
      var sv := SavingsBetween(c, o);
      && sv.distancePercent == imp.distance * 100.0
      && sv.fuelPercent == imp.fuel * 100.0
      && sv.timePercent == imp.time * 100.0
      && sv.co2 == sv.fuel * EmissionFactor(fuelType)
      && sv.co2Percent == sv.fuelPercent
      && sv.cost == sv.fuel * 2.5
  {
    CO2NonZero(c.fuel, fuelType);
    ScaledSavings(c, OptimizedMetrics(c, imp, fuelType), imp, EmissionFactor(fuelType));
  }

  /** ProfileSavings for any positive emission factor k. */
  lemma ScaledSavings(c: Metrics, o: Metrics, imp: Improvement, k: real)
    requires c.distance != 0.0 && c.fuel != 0.0 && c.time != 0.0 && k > 0.0
    requires c.co2 == c.fuel * k && o.co2 == o.fuel * k
    requires o.distance == c.distance * (1.0 - imp.distance)
    requires o.fuel == c.fuel * (1.0 - imp.fuel)
    requires o.time == c.time * (1.0 - imp.time)
    ensures c.co2 != 0.0
    ensures var sv := SavingsBetween(c, o);
      && sv.distancePercent == imp.distance * 100.0
      && sv.fuelPercent == imp.fuel * 100.0
      && sv.timePercent == imp.time * 100.0
      && sv.co2 == sv.fuel * k
      && sv.co2Percent == sv.fuelPercent
      && sv.cost == sv.fuel * 2.5
  {
    FractionSaved(c.distance, imp.distance);
    FractionSaved(c.fuel, imp.fuel);
    FractionSaved(c.time, imp.time);
    ProportionalSavings(c.fuel, o.fuel, k);
  }

  /** The same for the estimate itself: savings are the differences, percentages follow the profile, CO2 follows fuel. */
  lemma SavingsConsistent(p: Parameters)
    requires OptimizeRoute(p).Ok?
    ensures var r, imp := OptimizeRoute(p).value, ImprovementFor(p.priority);
      && r.savings.distance == r.current.distance - r.optimized.distance
      && r.savings.fuel == r.current.fuel - r.optimized.fuel
      && r.savings.co2 == r.current.co2 - r.optimized.co2
      && r.savings.time == r.current.time - r.optimized.time
      && r.savings.distancePercent == imp.distance * 100.0
      && r.savings.fuelPercent == imp.fuel * 100.0
      && r.savings.timePercent == imp.time * 100.0
      && r.savings.co2 == r.savings.fuel * EmissionFactor(FuelTypeOf(p))
      && r.savings.co2Percent == r.savings.fuelPercent
      && r.savings.cost == r.savings.fuel * 2.5
  {
    var r := OptimizeRoute(p).value;
    EstimateParts(p);
    ProfileSavings(r.current, ImprovementFor(p.priority), FuelTypeOf(p));
  }

  /** Reducing a non-zero baseline by the fraction f saves f * 100 percent of it. */
  lemma FractionSaved(base: real, f: real)
    requires base != 0.0
    ensures ((base - base * (1.0 - f)) / base) * 100.0 == f * 100.0
  {
    assert base - base * (1.0 - f) == base * f;
    assert (base * f) / base == f;
  }

  lemma ProportionalSavings(f: real, g: real, k: real)
    requires f != 0.0 && k != 0.0
    ensures f * k - g * k == (f - g) * k
    ensures ((f * k - g * k) / (f * k)) * 100.0 == ((f - g) / f) * 100.0
  {
    RatioScale(f - g, f, k);
  }

  lemma RatioScale(a: real, b: real, k: real)
    requires b != 0.0 && k != 0.0
    ensures (a * k) / (b * k) == a / b
  {
    assert (a / b) * (b * k) == a * k;
  }

  /** Only the number of destinations reaches the estimate: their names, the start location and the area target do not. */
  lemma OnlyStopCountMatters(p: Parameters, q: Parameters)
    requires |p.destinations| == |q.destinations|
    requires p.loadCapacity == q.loadCapacity && p.currentLoad == q.currentLoad
    requires p.priority == q.priority && p.vehicleType == q.vehicleType && p.fuelType == q.fuelType
    ensures OptimizeRoute(p) == OptimizeRoute(q)
  {
  }

  /** The default parameters of the dashboard: a diesel truck carrying 3500 of 5000 kg to four destinations. */
  const DefaultParameters: Parameters := Parameters(
    "TCS Warehouse KL", ["Petaling Jaya", "Shah Alam", "Subang Jaya", "Klang"],
    5000.0, 3500.0, 500.0, "balanced", Some("truck"), Some("diesel"))

  /** The estimate for the default parameters, worked out in exact arithmetic. */
  lemma DefaultEstimate()
    ensures OptimizeRoute(DefaultParameters).Ok?
    ensures var r := OptimizeRoute(DefaultParameters).value;
      && r.current.fuel == 23.34816 && r.current.co2 == 62.5730688 && r.current.time == 274.0
      && r.optimized.distance == 141.504 && r.optimized.fuel == 19.845936 && r.optimized.time == 246.6
      && r.savings.distance == 19.296 && r.savings.fuel == 3.502224 && r.savings.time == 27.4
      && r.current.loadUtilization == 70.0
  {
    var p := DefaultParameters;
    assert Fuel(BaseDistance, 3500.0, 5000.0, "truck").value == 23.34816;
    assert TravelTime(BaseDistance, 4) == 274;
  }
}
