/**
 * The route cost model: route distance, fuel, CO2, travel time and area
 * coverage. The great-circle (haversine) distance between two coordinates is
 * not modelled; every member that needs it takes it as the parameter `dist`.
 */
module CostModel {
  import opened Wrappers
  import DummyData

  /** A point in decimal degrees; waypoint names are never read by the cost model. */
  datatype Coordinate = Coordinate(lat: real, lng: real)

  /** The great-circle distance in kilometres, supplied by the caller. */
  type DistanceFn = (Coordinate, Coordinate) -> real

  /** The cases in which the source's arithmetic leaves the finite numbers. */
  datatype CostError =
    | ZeroCapacity      // load / capacity with capacity 0 gives Infinity or NaN
    | ZeroBaselineFuel  // savings percentages of a zero baseline fuel are 0 / 0

  // ---------------------------------------------------------------------------
  // Rounding

  /** JavaScript's Math.round: the nearest integer, halves rounded up. */
  function JsRound(x: real): (r: int)
    ensures r as real - 0.5 <= x < r as real + 0.5
  {
    (x + 0.5).Floor
  }

  /** Rounding commutes with adding a whole number. */
  lemma JsRoundShift(x: real, n: int)
    ensures JsRound(x + n as real) == JsRound(x) + n
  {
  }

  // ---------------------------------------------------------------------------
  // Route distance

  /** Sum of the distances between consecutive waypoints, in route order. */
  function PathLength(ws: seq<Coordinate>, dist: DistanceFn): real
    decreases |ws|
  {
    if |ws| < 2 then 0.0
    else PathLength(ws[..|ws| - 1], dist) + dist(ws[|ws| - 2], ws[|ws| - 1])
  }

  /** calculateRouteDistance: the loop accumulating the route's legs in order. */
  method RouteDistance(ws: seq<Coordinate>, dist: DistanceFn) returns (total: real)
    ensures total == PathLength(ws, dist)
  {
    total := 0.0;
    var i := 0;
    while i < |ws| - 1
      invariant |ws| == 0 ==> i == 0 && total == 0.0
      invariant |ws| > 0 ==> i < |ws| && total == PathLength(ws[..i + 1], dist)
    {
      assert ws[..i + 2][..i + 1] == ws[..i + 1];
      total := total + dist(ws[i], ws[i + 1]);
      i := i + 1;
    }
    if |ws| > 0 {
      assert ws[..i + 1] == ws;
    }
  }

  /** A route of no or one waypoint has length 0. */
  lemma PathLengthShort(ws: seq<Coordinate>, dist: DistanceFn)
    requires |ws| <= 1
    ensures PathLength(ws, dist) == 0.0
  {
  }

  /** Appending a waypoint adds exactly one leg, from the old last waypoint. */
  lemma PathLengthAppend(ws: seq<Coordinate>, w: Coordinate, dist: DistanceFn)
    requires |ws| >= 1
    ensures PathLength(ws + [w], dist) == PathLength(ws, dist) + dist(ws[|ws| - 1], w)
  {
    assert (ws + [w])[..|ws|] == ws;
  }

  /** Joining two routes adds the two lengths and the one leg between them. */
  lemma {:induction false} PathLengthConcat(a: seq<Coordinate>, b: seq<Coordinate>, dist: DistanceFn)
    requires |a| >= 1 && |b| >= 1
    ensures PathLength(a + b, dist)
         == PathLength(a, dist) + dist(a[|a| - 1], b[0]) + PathLength(b, dist)
    decreases |b|
  {
    if |b| == 1 {
      PathLengthAppend(a, b[0], dist);
      assert a + b == a + [b[0]];
    } else {
      var b' := b[..|b| - 1];
      var x := b[|b| - 1];
      assert b == b' + [x];
      assert a + b == (a + b') + [x];
      PathLengthConcat(a, b', dist);
      PathLengthAppend(a + b', x, dist);
      PathLengthAppend(b', x, dist);
    }
  }

  /** Prepending a waypoint adds exactly one leg, to the old first waypoint. */
  lemma PathLengthPrepend(w: Coordinate, ws: seq<Coordinate>, dist: DistanceFn)
    requires |ws| >= 1
    ensures PathLength([w] + ws, dist) == dist(w, ws[0]) + PathLength(ws, dist)
  {
    PathLengthConcat([w], ws, dist);
  }

  /** Under the explicit assumption that distances are non-negative, so is a route. */
  lemma {:induction false} PathLengthNonNegative(ws: seq<Coordinate>, dist: DistanceFn)
    requires forall p, q :: dist(p, q) >= 0.0
    ensures PathLength(ws, dist) >= 0.0
    decreases |ws|
  {
    if |ws| >= 2 {
      PathLengthNonNegative(ws[..|ws| - 1], dist);
    }
  }

  /** The waypoints in the opposite order. */
  function Reverse(ws: seq<Coordinate>): (r: seq<Coordinate>)
    ensures |r| == |ws|
    ensures forall i :: 0 <= i < |ws| ==> r[i] == ws[|ws| - 1 - i]
  {
    if ws == [] then [] else Reverse(ws[1..]) + [ws[0]]
  }

  /** Under the explicit assumption of a symmetric distance, a route reversed has the same length. */
  lemma {:induction false} PathLengthReverse(ws: seq<Coordinate>, dist: DistanceFn)
    requires forall p, q :: dist(p, q) == dist(q, p)
    ensures PathLength(Reverse(ws), dist) == PathLength(ws, dist)
    decreases |ws|
  {
    if |ws| >= 2 {
      var r := ws[1..];
      assert ws == [ws[0]] + r;
      PathLengthReverse(r, dist);
      PathLengthAppend(Reverse(r), ws[0], dist);
      PathLengthPrepend(ws[0], r, dist);
    }
  }

  // ---------------------------------------------------------------------------
  // Fuel

  /** Litres per 100 km: 12 for a truck, 8 for every other vehicle type. */
  function BaseFuelRate(vehicleType: string): (rate: real)
    ensures rate == 12.0 <==> vehicleType == "truck"
    ensures rate == 8.0 <==> vehicleType != "truck"
  {
    if vehicleType == "truck" then 12.0 else 8.0
  }

  /** calculateFuel: base rate scaled by the load factor 1 + 0.3 * load / capacity. */
  function Fuel(distance: real, load: real, capacity: real, vehicleType: string): (r: Result<real, CostError>)
    ensures r.Err? <==> capacity == 0.0
    ensures r.Err? ==> r.error == ZeroCapacity
  {
    if capacity == 0.0 then Err(ZeroCapacity)
    else
      var loadFactor := 1.0 + (load / capacity) * 0.3;
      var fuelPer100km := BaseFuelRate(vehicleType) * loadFactor;
      Ok((distance / 100.0) * fuelPer100km)
  }

  /** The rate used is 12 L/100 km for "truck" and 8 L/100 km otherwise. */
  lemma FuelFormula(distance: real, load: real, capacity: real, vehicleType: string)
    requires capacity != 0.0
    ensures vehicleType == "truck" ==>
      Fuel(distance, load, capacity, vehicleType).value == distance / 100.0 * 12.0 * (1.0 + load / capacity * 0.3)
    ensures vehicleType != "truck" ==>
      Fuel(distance, load, capacity, vehicleType).value == distance / 100.0 * 8.0 * (1.0 + load / capacity * 0.3)
  {
  }

  /** With a positive capacity and a non-negative distance, more load never burns less fuel. */
  lemma FuelMonotoneInLoad(distance: real, load1: real, load2: real, capacity: real, vehicleType: string)
    requires capacity > 0.0 && distance >= 0.0 && load1 <= load2
    ensures Fuel(distance, load1, capacity, vehicleType).value <= Fuel(distance, load2, capacity, vehicleType).value
  {
  }

  /** Between empty and full load the fuel lies between 1.0 and 1.3 times the base consumption. */
  lemma FuelBounds(distance: real, load: real, capacity: real, vehicleType: string)
    requires capacity > 0.0 && distance >= 0.0 && 0.0 <= load <= capacity
    ensures distance / 100.0 * BaseFuelRate(vehicleType)
         <= Fuel(distance, load, capacity, vehicleType).value
         <= distance / 100.0 * BaseFuelRate(vehicleType) * 1.3
  {
    FuelMonotoneInLoad(distance, 0.0, load, capacity, vehicleType);
    FuelMonotoneInLoad(distance, load, capacity, capacity, vehicleType);
  }

  // ---------------------------------------------------------------------------
  // CO2

  /** The emission factor for a fuel type; an unknown (or zero) entry falls back to diesel. */
  function EmissionFactor(fuelType: string): (k: real)
    ensures k > 0.0
    ensures k in DummyData.EmissionFactors.Values
    ensures fuelType in DummyData.EmissionFactors ==> k == DummyData.EmissionFactors[fuelType]
    ensures fuelType !in DummyData.EmissionFactors ==> k == 2.68
  {
    var table := DummyData.EmissionFactors;
    // The source's `||` also replaces a factor that is 0, so the fallback tests for that too.
    if fuelType in table && table[fuelType] != 0.0 then table[fuelType] else table["diesel"]
  }

  /** calculateCO2: litres of fuel times the fuel type's factor in the table, or diesel's for a type not in it. */
  function CO2(fuel: real, fuelType: string): (co2: real)
    ensures fuelType in DummyData.EmissionFactors ==> co2 == fuel * DummyData.EmissionFactors[fuelType]
    ensures fuelType !in DummyData.EmissionFactors ==> co2 == fuel * 2.68
  {
    fuel * EmissionFactor(fuelType)
  }

  /** CO2 is linear in the fuel for a fixed fuel type; in particular doubling fuel doubles CO2. */
  lemma CO2Linear(k: real, fuel: real, fuelType: string)
    ensures CO2(k * fuel, fuelType) == k * CO2(fuel, fuelType)
    ensures CO2(2.0 * fuel, fuelType) == 2.0 * CO2(fuel, fuelType)
  {
    var e := EmissionFactor(fuelType);
    assert (k * fuel) * e == k * (fuel * e);
  }

  /** A fuel type outside the table emits as diesel does. */
  lemma CO2UnknownFuelType(fuel: real, fuelType: string)
    requires fuelType !in DummyData.EmissionFactors
    ensures CO2(fuel, fuelType) == CO2(fuel, "diesel") == fuel * 2.68
  {
  }

  // ---------------------------------------------------------------------------
  // Travel time

  /** calculateTime: minutes at 45 km/h plus 15 minutes per stop, rounded to a whole minute. */
  function TravelTime(distance: real, stops: int): (minutes: int)
    ensures minutes as real - 0.5 <= distance / 45.0 * 60.0 + (stops * 15) as real < minutes as real + 0.5
  {
    JsRound((distance / 45.0) * 60.0 + (stops * 15) as real)
  }

  /** With the distance fixed, each additional stop adds exactly 15 minutes. */
  lemma TravelTimePerStop(distance: real, stops: int)
    ensures TravelTime(distance, stops + 1) == TravelTime(distance, stops) + 15
  {
    var x := (distance / 45.0) * 60.0 + (stops * 15) as real;
    JsRoundShift(x, 15);
    assert (distance / 45.0) * 60.0 + ((stops + 1) * 15) as real == x + 15 as real;
  }

  // ---------------------------------------------------------------------------
  // Area coverage

  /** Math.min over a non-empty list. */
  function SeqMin(s: seq<real>): (m: real)
    requires |s| > 0
    ensures m in s
    ensures forall i :: 0 <= i < |s| ==> m <= s[i]
  {
    if |s| == 1 then s[0]
    else
      var t := SeqMin(s[1..]);
      if s[0] <= t then s[0] else t
  }

  /** Math.max over a non-empty list. */
  function SeqMax(s: seq<real>): (m: real)
    requires |s| > 0
    ensures m in s
    ensures forall i :: 0 <= i < |s| ==> s[i] <= m
  {
    if |s| == 1 then s[0]
    else
      var t := SeqMax(s[1..]);
      if s[0] >= t then s[0] else t
  }

  function Lats(ws: seq<Coordinate>): (r: seq<real>)
    ensures |r| == |ws| && forall i :: 0 <= i < |ws| ==> r[i] == ws[i].lat
  {
    seq(|ws|, i requires 0 <= i < |ws| => ws[i].lat)
  }

  function Lngs(ws: seq<Coordinate>): (r: seq<real>)
    ensures |r| == |ws| && forall i :: 0 <= i < |ws| ==> r[i] == ws[i].lng
  {
    seq(|ws|, i requires 0 <= i < |ws| => ws[i].lng)
  }

  /** The product of the two bounding-box edges that meet at the south-west corner. */
  function BoxArea(minLat: real, maxLat: real, minLng: real, maxLng: real, dist: DistanceFn): real
  {
    var latDistance := dist(Coordinate(minLat, minLng), Coordinate(maxLat, minLng));
    var lngDistance := dist(Coordinate(minLat, minLng), Coordinate(minLat, maxLng));
    latDistance * lngDistance
  }

  /** calculateAreaCoverage: 0 below three waypoints, else the area of the bounding box. */
  function AreaCoverage(ws: seq<Coordinate>, dist: DistanceFn): real
  {
    if |ws| < 3 then 0.0
    else BoxArea(SeqMin(Lats(ws)), SeqMax(Lats(ws)), SeqMin(Lngs(ws)), SeqMax(Lngs(ws)), dist)
  }

  /** The four bounds are attained by some waypoint and enclose every waypoint. */
  ghost predicate IsBoundingBox(ws: seq<Coordinate>, minLat: real, maxLat: real, minLng: real, maxLng: real)
  {
    && (exists i :: 0 <= i < |ws| && ws[i].lat == minLat)
    && (exists i :: 0 <= i < |ws| && ws[i].lat == maxLat)
    && (exists i :: 0 <= i < |ws| && ws[i].lng == minLng)
    && (exists i :: 0 <= i < |ws| && ws[i].lng == maxLng)
    && (forall i :: 0 <= i < |ws| ==> minLat <= ws[i].lat <= maxLat && minLng <= ws[i].lng <= maxLng)
  }

  /** Fewer than three waypoints cover no area. */
  lemma AreaCoverageFewWaypoints(ws: seq<Coordinate>, dist: DistanceFn)
    requires |ws| < 3
    ensures AreaCoverage(ws, dist) == 0.0
  {
  }

  /** Otherwise the area is the product of the bounding box's two edges from its south-west corner. */
  lemma AreaCoverageIsBoundingBox(ws: seq<Coordinate>, dist: DistanceFn,
                                  minLat: real, maxLat: real, minLng: real, maxLng: real)
    requires |ws| >= 3
    requires IsBoundingBox(ws, minLat, maxLat, minLng, maxLng)
    ensures AreaCoverage(ws, dist)
         == dist(Coordinate(minLat, minLng), Coordinate(maxLat, minLng))
          * dist(Coordinate(minLat, minLng), Coordinate(minLat, maxLng))
  {
    BoundsAreExtremes(ws, minLat, maxLat, minLng, maxLng);
  }

  lemma BoundsAreExtremes(ws: seq<Coordinate>, minLat: real, maxLat: real, minLng: real, maxLng: real)
    requires |ws| > 0
    requires IsBoundingBox(ws, minLat, maxLat, minLng, maxLng)
    ensures SeqMin(Lats(ws)) == minLat && SeqMax(Lats(ws)) == maxLat
    ensures SeqMin(Lngs(ws)) == minLng && SeqMax(Lngs(ws)) == maxLng
  {
    var lats, lngs := Lats(ws), Lngs(ws);
    var i1 :| 0 <= i1 < |ws| && ws[i1].lat == minLat;
    var i2 :| 0 <= i2 < |ws| && ws[i2].lat == maxLat;
    var i3 :| 0 <= i3 < |ws| && ws[i3].lng == minLng;
    var i4 :| 0 <= i4 < |ws| && ws[i4].lng == maxLng;
    MinIs(lats, i1);
    MaxIs(lats, i2);
    MinIs(lngs, i3);
    MaxIs(lngs, i4);
  }

  /** An element no larger than any other is the minimum. */
  lemma MinIs(s: seq<real>, i: nat)
    requires i < |s| && forall j :: 0 <= j < |s| ==> s[i] <= s[j]
    ensures SeqMin(s) == s[i]
  {
  }

  /** An element no smaller than any other is the maximum. */
  lemma MaxIs(s: seq<real>, i: nat)
    requires i < |s| && forall j :: 0 <= j < |s| ==> s[j] <= s[i]
    ensures SeqMax(s) == s[i]
  {
  }

  /** The bounding box, and hence the area, does not depend on the order of the waypoints. */
  lemma AreaCoverageOrderIndependent(ws: seq<Coordinate>, vs: seq<Coordinate>, dist: DistanceFn)
    requires multiset(ws) == multiset(vs)
    ensures AreaCoverage(ws, dist) == AreaCoverage(vs, dist)
  {
    assert |ws| == |vs| by {
      assert |multiset(ws)| == |ws| && |multiset(vs)| == |vs|;
    }
    if |ws| >= 3 {
      var minLat, maxLat := SeqMin(Lats(ws)), SeqMax(Lats(ws));
      var minLng, maxLng := SeqMin(Lngs(ws)), SeqMax(Lngs(ws));
      BoundingBoxOf(ws);
      BoundingBoxPermuted(ws, vs, minLat, maxLat, minLng, maxLng);
      BoundsAreExtremes(vs, minLat, maxLat, minLng, maxLng);
      assert AreaCoverage(vs, dist) == BoxArea(minLat, maxLat, minLng, maxLng, dist);
    }
  }

  lemma BoundingBoxOf(ws: seq<Coordinate>)
    requires |ws| > 0
    ensures IsBoundingBox(ws, SeqMin(Lats(ws)), SeqMax(Lats(ws)), SeqMin(Lngs(ws)), SeqMax(Lngs(ws)))
  {
  }

  lemma BoundingBoxPermuted(ws: seq<Coordinate>, vs: seq<Coordinate>,
                            minLat: real, maxLat: real, minLng: real, maxLng: real)
    requires multiset(ws) == multiset(vs)
    requires IsBoundingBox(ws, minLat, maxLat, minLng, maxLng)
    ensures IsBoundingBox(vs, minLat, maxLat, minLng, maxLng)
  {
    forall j | 0 <= j < |vs|
      ensures minLat <= vs[j].lat <= maxLat && minLng <= vs[j].lng <= maxLng
    {
      assert vs[j] in multiset(ws);
      var i :| 0 <= i < |ws| && ws[i] == vs[j];
    }
    var i1 :| 0 <= i1 < |ws| && ws[i1].lat == minLat;
    var i2 :| 0 <= i2 < |ws| && ws[i2].lat == maxLat;
    var i3 :| 0 <= i3 < |ws| && ws[i3].lng == minLng;
    var i4 :| 0 <= i4 < |ws| && ws[i4].lng == maxLng;
    assert ws[i1] in multiset(vs) && ws[i2] in multiset(vs);
    assert ws[i3] in multiset(vs) && ws[i4] in multiset(vs);
    var j1 :| 0 <= j1 < |vs| && vs[j1] == ws[i1];
    var j2 :| 0 <= j2 < |vs| && vs[j2] == ws[i2];
    var j3 :| 0 <= j3 < |vs| && vs[j3] == ws[i3];
    var j4 :| 0 <= j4 < |vs| && vs[j4] == ws[i4];
  }
}
