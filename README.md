# Route optimizer cost model

This is a Dafny model of the logistics dashboard's route-estimation core, `src/utils/routeOptimizer.js`. Its modules:

- **Wrappers**: `Option` and `Result`.
- **DummyData**: the emission-factor table, in kg CO2 per litre (diesel 2.68, gasoline 2.31, cng 1.94, electric 0.5).
- **CostModel**: the per-route cost functions.
  - Route distance is the sum of the legs between consecutive waypoints, written as the source's accumulating loop.
  - Fuel is 12 L/100 km for a truck and 8 L/100 km for anything else. It is scaled by the load factor `1 + 0.3 * load / capacity`.
  - CO2 is fuel times the emission factor. An unknown fuel type falls back to diesel.
  - Travel time is driving at 45 km/h plus 15 minutes per stop, rounded with `Math.round`.
  - Area coverage is the bounding-box area. Fewer than three waypoints give 0.
- **RouteEstimator**: `optimizeRoute`. It builds a baseline estimate for a fixed 160.8 km route with one stop per destination. It scales that baseline by the improvement profile of the chosen priority (balanced, fuel, distance, time, carbon; anything else means balanced). Then it reports the savings, with cost at RM 2.50 per litre saved.
- **Formatting**: the display helpers.
  - `formatNumber` is modelled after `toFixed`. It starts from the fixed-point string and applies the global replace of `/\B(?=(\d{3})+(?!\d))/` with `","`.
  - `formatTime` prints `"<h>h <m>min"`.

Modelling choices:

- All JavaScript numbers are exact `real`s.
- `Math.round(x)` is `floor(x + 0.5)`.
- `%` is the truncating remainder, which keeps the sign of the dividend.
- The haversine distance `calculateDistance` is a caller-supplied function parameter `dist`. Properties that need symmetry or non-negativity of the distance state those as explicit preconditions.
- Where the source would produce `Infinity` or `NaN`, the model returns a `Result` error that names the cause:
  - `ZeroCapacity`: the load capacity is 0.
  - `ZeroBaselineFuel`: a load of -10/3 of the capacity makes the baseline fuel 0, so the fuel percentage is 0/0.
- Omitted `vehicleType` and `fuelType` are `None`. They take the destructuring defaults `"truck"` and `"diesel"`.
- Estimates do not use the destination names, the start location or the area target; only the number of destinations matters. `OnlyStopCountMatters` states this.

For the default dashboard parameters (a diesel truck carrying 3500 of 5000 kg to four destinations), the code gives a baseline of 1.608 × 12 × 1.21 = 23.34816 L. `DefaultEstimate` states it together with 62.5730688 kg CO2 and 274 min.

## Model

| member | source | states |
|---|---|---|
| CostModel.PathLength | src/utils/routeOptimizer.js:34-40 | specification of calculateRouteDistance, no contract of its own: 0 below two waypoints, else the length without the last waypoint plus the last leg; RouteDistance and the PathLength lemmas state its properties |
| CostModel.RouteDistance | src/utils/routeOptimizer.js:34-40 | the loop's total is the sum of the legs between consecutive waypoints in route order (0 for fewer than two waypoints) |
| CostModel.PathLengthShort | src/utils/routeOptimizer.js:36 | a route of zero or one waypoint has length 0, because the loop does not run |
| CostModel.PathLengthAppend | src/utils/routeOptimizer.js:36-37 | appending a waypoint adds exactly the one leg from the old last waypoint |
| CostModel.PathLengthConcat | src/utils/routeOptimizer.js:34-40 | the length of two joined routes is the sum of their lengths plus the connecting leg |
| CostModel.PathLengthPrepend | src/utils/routeOptimizer.js:34-40 | prepending a waypoint adds exactly the one leg to the old first waypoint |
| CostModel.PathLengthNonNegative | src/utils/routeOptimizer.js:34-40 | if every leg distance is non-negative, the route distance is non-negative |
| CostModel.PathLengthReverse | src/utils/routeOptimizer.js:34-40 | with a symmetric distance, travelling the route backwards gives the same total |
| CostModel.JsRound | src/utils/routeOptimizer.js:88 | Math.round's result r satisfies r - 0.5 <= x < r + 0.5 (halves round up) |
| CostModel.JsRoundShift | src/utils/routeOptimizer.js:88 | rounding commutes with adding a whole number |
| CostModel.BaseFuelRate | src/utils/routeOptimizer.js:52 | the base rate is 12 L/100 km exactly for "truck" and 8 L/100 km exactly for every other vehicle type |
| CostModel.Fuel | src/utils/routeOptimizer.js:50-62 | fails exactly when the capacity is 0 (where the source divides by zero), and then with ZeroCapacity |
| CostModel.FuelFormula | src/utils/routeOptimizer.js:52-59 | fuel is distance/100 times 12 L/100 km for "truck", else 8, times 1 + 0.3 * load/capacity |
| CostModel.FuelMonotoneInLoad | src/utils/routeOptimizer.js:55 | with positive capacity and non-negative distance, more load never uses less fuel |
| CostModel.FuelBounds | src/utils/routeOptimizer.js:55 | between empty and full load, fuel lies between 1.0 and 1.3 times the base consumption ("up to 30% increase at full load") |
| CostModel.EmissionFactor | src/utils/routeOptimizer.js:70-73 | a fuel type in the table gets its own factor, any other type gets diesel's 2.68; the factor is positive and is one of the table's values |
| CostModel.CO2 | src/utils/routeOptimizer.js:70-73 | a fuel type in the table emits fuel times its own factor; any other type emits fuel * 2.68, diesel's factor |
| CostModel.CO2Linear | src/utils/routeOptimizer.js:70-73 | CO2 is linear in fuel for a fixed fuel type (k times the fuel gives k times the CO2) |
| CostModel.CO2UnknownFuelType | src/utils/routeOptimizer.js:71 | an unknown fuel type emits exactly as diesel does, fuel * 2.68 |
| CostModel.TravelTime | src/utils/routeOptimizer.js:81-89 | the minutes are within half a minute of distance/45*60 + 15 per stop |
| CostModel.TravelTimePerStop | src/utils/routeOptimizer.js:83-88 | at a fixed distance each extra stop adds exactly 15 minutes |
| CostModel.Lats | src/utils/routeOptimizer.js:100 | the latitudes of the waypoints, one per waypoint, in order |
| CostModel.Lngs | src/utils/routeOptimizer.js:101 | the longitudes of the waypoints, one per waypoint, in order |
| CostModel.SeqMin | src/utils/routeOptimizer.js:103-106 | Math.min of a non-empty list is an element of it and no larger than any element |
| CostModel.SeqMax | src/utils/routeOptimizer.js:103-106 | Math.max of a non-empty list is an element of it and no smaller than any element |
| CostModel.BoxArea | src/utils/routeOptimizer.js:109-118 | helper, no contract of its own: the product of the edges from (minLat, minLng) to (maxLat, minLng) and to (minLat, maxLng) |
| CostModel.AreaCoverage | src/utils/routeOptimizer.js:96-119 | calculateAreaCoverage, no contract of its own; AreaCoverageFewWaypoints, AreaCoverageIsBoundingBox and AreaCoverageOrderIndependent state its properties |
| CostModel.AreaCoverageFewWaypoints | src/utils/routeOptimizer.js:97 | fewer than three waypoints cover area 0 |
| CostModel.AreaCoverageIsBoundingBox | src/utils/routeOptimizer.js:96-119 | for three or more waypoints and any bounds attained by waypoints that enclose all of them, the area is dist(SW corner, NW corner) * dist(SW corner, SE corner) |
| CostModel.BoundsAreExtremes | src/utils/routeOptimizer.js:103-106 | bounds attained by waypoints that enclose all of them are the same as the Math.min/Math.max values the source computes |
| CostModel.MinIs | src/utils/routeOptimizer.js:103-106 | an element no larger than every element is the Math.min |
| CostModel.MaxIs | src/utils/routeOptimizer.js:103-106 | an element no smaller than every element is the Math.max |
| CostModel.BoundingBoxOf | src/utils/routeOptimizer.js:103-106 | the computed min/max values are attained by waypoints and enclose every waypoint |
| CostModel.BoundingBoxPermuted | src/utils/routeOptimizer.js:100-106 | a reordered list of waypoints has the same bounding box |
| CostModel.AreaCoverageOrderIndependent | src/utils/routeOptimizer.js:96-119 | the area coverage does not depend on the order of the waypoints |
| RouteEstimator.ImprovementFor | src/utils/routeOptimizer.js:142-150 | a priority in the table gets its own profile (balanced, fuel, distance, time, carbon as listed), any other priority gets the balanced profile, and every fraction lies strictly between 0 and 1 |
| RouteEstimator.VehicleOf | src/utils/routeOptimizer.js:134 | the vehicle type passed in, or "truck" when it is omitted |
| RouteEstimator.FuelTypeOf | src/utils/routeOptimizer.js:135 | the fuel type passed in, or "diesel" when it is omitted |
| RouteEstimator.BaselineMetrics | src/utils/routeOptimizer.js:152-157 | the current-route metrics, no contract of its own; BaselineFromCostModel and FixedTerms state them |
| RouteEstimator.OptimizedMetrics | src/utils/routeOptimizer.js:159-164 | the optimized metrics, no contract of its own; OptimizedMetricsLower and FixedTerms state their properties |
| RouteEstimator.SavingsBetween | src/utils/routeOptimizer.js:166-202 | the savings block, no contract of its own; ProfileSavings and SavingsConsistent state its properties |
| RouteEstimator.OptimizeRoute | src/utils/routeOptimizer.js:126-204 | fails with ZeroCapacity exactly when the capacity is 0, with ZeroBaselineFuel exactly when load = -10/3 * capacity (capacity non-zero), and otherwise succeeds |
| RouteEstimator.BaseTimePositive | src/utils/routeOptimizer.js:156 | the baseline time for 160.8 km is at least 214 minutes, so the time percentage is never 0/0 |
| RouteEstimator.CO2NonZero | src/utils/routeOptimizer.js:155-200 | a non-zero fuel gives a non-zero CO2, so the CO2 percentage is defined whenever the fuel percentage is |
| RouteEstimator.BaselineFuelZero | src/utils/routeOptimizer.js:154-199 | the baseline fuel is 0 exactly when load = -10/3 * capacity |
| RouteEstimator.UnknownPriorityIsBalanced | src/utils/routeOptimizer.js:150 | a priority outside the table gives exactly the estimate for "balanced" |
| RouteEstimator.BaselineFromCostModel | src/utils/routeOptimizer.js:152-157 | the baseline is 160.8 km, calculateFuel and calculateCO2 on it, calculateTime with one stop per destination, and area 450 |
| RouteEstimator.FixedTerms | src/utils/routeOptimizer.js:153-190 | baseline area 450 becomes 517.5 (x 1.15), and both load utilizations are load/capacity * 100 |
| RouteEstimator.OptimizedMetricsLower | src/utils/routeOptimizer.js:159-164 | scaling by fractions in (0,1) lowers a positive distance, time and fuel, and lowers the CO2 recomputed from the fuel |
| RouteEstimator.OptimizedIsBetter | src/utils/routeOptimizer.js:159-173 | the optimized route is strictly shorter and faster, with positive savings; with positive baseline fuel it also uses less fuel and CO2 and saves a positive cost |
| RouteEstimator.ProfileSavings | src/utils/routeOptimizer.js:166-202 | each percentage saved is the profile's fraction * 100, CO2 saved is fuel saved * the factor, the CO2 percentage equals the fuel percentage, and the cost is fuel saved * 2.50 |
| RouteEstimator.ScaledSavings | src/utils/routeOptimizer.js:166-202 | the ProfileSavings relations for any positive emission factor k: percentages follow the profile, CO2 saved is k times fuel saved, the cost is fuel saved * 2.50 |
| RouteEstimator.SavingsConsistent | src/utils/routeOptimizer.js:166-202 | for the estimate itself, savings are baseline minus optimized, and the ProfileSavings relations hold |
| RouteEstimator.FractionSaved | src/utils/routeOptimizer.js:198-201 | cutting a non-zero baseline by the fraction f saves f * 100 percent |
| RouteEstimator.ProportionalSavings | src/utils/routeOptimizer.js:168-169 | the saving of a quantity proportional to fuel is proportional to the fuel saved and has the same percentage |
| RouteEstimator.RatioScale | src/utils/routeOptimizer.js:200 | scaling the numerator and the denominator by the same non-zero factor leaves the ratio unchanged |
| RouteEstimator.OnlyStopCountMatters | src/utils/routeOptimizer.js:126-156 | two parameter sets that agree on capacity, load, priority, vehicle, fuel type and number of destinations give the same estimate |
| RouteEstimator.DefaultEstimate | src/data/dummyData.js:121-130 | the default parameters give baseline 23.34816 L, 62.5730688 kg CO2, 274 min; optimized 141.504 km, 19.845936 L, 246.6 min; savings 19.296 km, 3.502224 L, 27.4 min; utilization 70% |
| Formatting.BreakAt | src/utils/routeOptimizer.js:210 | the pattern's match condition, no contract of its own: \B holds between positions p-1 and p, and the digit run from p has a length that is a positive multiple of 3 |
| Formatting.Segment | src/utils/routeOptimizer.js:210 | the global replace over s[i..j], no contract of its own: each character, preceded by a comma where BreakAt holds |
| Formatting.FormatNumber | src/utils/routeOptimizer.js:209-211 | formatNumber on a toFixed string, no contract of its own; FormatNumberStripsBack and FormatNumberFixedPoint state its properties |
| Formatting.NatToString | src/utils/routeOptimizer.js:219 | the decimal text of a number is non-empty and made of digits; 0 prints as "0" and any other number starts with a non-zero digit (with NatToStringValue this fixes the text exactly) |
| Formatting.IntToString | src/utils/routeOptimizer.js:219 | the text starts with '-' exactly for a negative number; 0 prints as "0"; otherwise the digits after any sign start with a non-zero digit and their value is the number's magnitude |
| Formatting.FormatNumberStripsBack | src/utils/routeOptimizer.js:209-211 | deleting the inserted commas gives back the comma-free toFixed string, so only commas are inserted |
| Formatting.GroupedShape | src/utils/routeOptimizer.js:209-211 | the reference grouping keeps the digits in order, starts with a digit, and has a comma exactly at every fourth position from the right |
| Formatting.FormatNumberFixedPoint | src/utils/routeOptimizer.js:209-211 | for an optional minus sign, an integer part and an optional "." with 1 to 3 decimals, the integer part gets commas in groups of three from the right and the sign and decimals are unchanged |
| Formatting.DigitsValueSnoc | src/utils/routeOptimizer.js:219 | appending a digit to a digit string multiplies its value by ten and adds the digit |
| Formatting.NatToStringValue | src/utils/routeOptimizer.js:219 | reading the printed digits back gives the number |
| Formatting.Trunc | src/utils/routeOptimizer.js:218 | Math.trunc: the integer at most 1 away from x towards 0 (floor for x >= 0, ceiling for x < 0) |
| Formatting.JsRemainder | src/utils/routeOptimizer.js:218 | for a positive divisor, minutes % 60 keeps the sign of the dividend, is smaller than the divisor in magnitude, and differs from the dividend by a whole multiple of the divisor |
| Formatting.TimeParts | src/utils/routeOptimizer.js:217-218 | the two numbers formatTime prints, no contract of its own; TimePartsTotal, TimePartsWholeMinutes and FormatTimeSixtyMinutes state their properties |
| Formatting.FormatTime | src/utils/routeOptimizer.js:216-220 | the printed text, no contract of its own; FormatTimeSixtyMinutes states its value at 59.6 |
| Formatting.TimePartsTotal | src/utils/routeOptimizer.js:216-220 | for non-negative minutes, hours*60 + mins is the rounded total, and mins lies in 0..60 (FormatTimeSixtyMinutes shows that 60 occurs) |
| Formatting.TimePartsWholeMinutes | src/utils/routeOptimizer.js:216-220 | for whole non-negative minutes, hours = m div 60 and mins = m mod 60 < 60 |
| Formatting.FormatTimeSixtyMinutes | src/utils/routeOptimizer.js:216-220 | as written, 59.6 minutes gives parts (0, 60) and prints "0h 60min" |
| Formatting.RoundedTimeParts | src/utils/routeOptimizer.js:216-220 | corrected split: rounds first, so mins < 60 and hours*60 + mins is the rounded total |
| Formatting.RoundedTimePartsAgree | src/utils/routeOptimizer.js:216-220 | on whole non-negative minutes, the corrected split equals formatTime's split as written |

## Left out

- The haversine `calculateDistance` and `toRad` in src/utils/routeOptimizer.js:9-27 become a function parameter. Trigonometry and square roots have no counterpart over exact reals. Its symmetry and non-negativity appear only as explicit preconditions.
- IEEE-754 doubles: every value is an exact real, so rounding in the products, differences and `toFixed` is not modelled. The source rounds after each double operation, so its results can differ from the exact values in the last digits: for the default parameters the source's optimized distance `160.8 * (1 - 0.12)` is 141.50400000000002 where `DefaultEstimate` states 141.504.
- `Infinity` and `NaN`: the whole estimate becomes `Err(ZeroCapacity)` for a zero capacity and `Err(ZeroBaselineFuel)` for a zero baseline fuel. In the source, a zero capacity spoils the fuel, CO2 and utilization values. A zero baseline fuel makes only `fuelPercent` and `co2Percent` 0/0 = NaN (src/utils/routeOptimizer.js:199-200). The other metrics and the distance and time savings stay finite. The model does not return those finite parts in the error case. A `NaN` reaching `Math.round`, `toFixed` or `formatTime` is not modelled.
- `Number.prototype.toFixed` itself is not modelled. `formatNumber` is modelled on the fixed-point string it produces, including its exponential form for values of magnitude 1e21 and above.
- Formatting.IntToString: always prints plain digits. The number-to-string conversion in `formatTime`'s template literal switches to exponential form (such as `1e+21`) for magnitudes of 1e21 and above, and that form is not modelled.
- The default arguments of `calculateFuel` (`vehicleType = 'truck'`, line 50) and `calculateCO2` (`fuelType = 'diesel'`, line 70) are not modelled: `CostModel.Fuel` and `CostModel.CO2` always take an explicit type. `optimizeRoute` always passes both, after applying its own destructuring defaults, which `RouteEstimator.VehicleOf` and `RouteEstimator.FuelTypeOf` model.
- Formatting.FormatNumberFixedPoint: proved only for at most three decimals. With four or more decimals the source's pattern also groups fraction digits. The dashboard calls it with 0 to 2 decimals.
- Object lookups with `||` inherit properties from `Object.prototype`: `improvements["toString"]` is a function, not the balanced profile. Priorities and fuel types are modelled as plain table keys, with a fallback for missing ones.
- `calculateTime`'s `stops` and the destination list: arguments that are not numbers or arrays (JavaScript coercion) are not modelled.
- The React pages, components, timers, randomness and the other dummy-data fixtures are not part of this model.

## Findings

| source | as written | input that shows it | evidently intended | confidence | as-written member | corrected member |
|---|---|---|---|---|---|---|
| src/utils/routeOptimizer.js:216-220 | minutes are `Math.round(minutes % 60)` after hours are floored, so the rounding never carries into the hours | `formatTime(59.6)` prints "0h 60min" (also 119.5 prints "1h 60min") | round the total first, then split it into hours and minutes below 60 ("1h 0min") | not executed; follows from the arithmetic | Formatting.FormatTimeSixtyMinutes | Formatting.RoundedTimeParts |
