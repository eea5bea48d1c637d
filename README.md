# RouteAnalyzer geofence analysis, modelled in Dafny

RouteAnalyzer reads a vehicle route and derives three things from it. A route is an ordered list of waypoints, each with a timestamp, a latitude and a longitude. The three results are:

- the waypoint farthest from the start of the route;
- the most frequented area: the waypoint with the most other waypoints within a clustering radius of it;
- the waypoints that lie outside a circular geofence, together with their centroid.

This project models the analysis engine and the assembly of its result record. The Kotlin functions become Dafny functions over immutable sequences. The Kotlin collection operations they use (`map`, `filter`, `count`, `maxOf`, `sumOf`, `maxByOrNull`) are modelled once, in module `Collections`, each with the scan order of the standard library's loop. Lemmas prove what each operation promises.

Modules:

- `Wrappers`: `Option`, `Result` and the two exceptions the code can raise.
- `FileLoader`: the `Waypoint` and `Config` records. `Long` is a 64-bit newtype.
- `Collections`: the Kotlin collection operations and their properties.
- `WaypointAnalyzer`: `computeMaxDistanceFromStart`, `computeMaxDistance`, `computeMostFrequentedAreaRadius`, `findMostFrequentedArea`, `findWaypointsOutsideGeofence` and `computeOutsideGeofenceCenter`.
- `GeofenceComputation`: the result records and `computeGeofenceResult`, plus a worked three-waypoint example.

The great-circle distance `haversine` is trigonometry on `Double`, so it is not modelled. Every operation takes it as a parameter `h: Haversine`, and `Dist` applies it to two waypoints. The lemmas assume one property of it, and only where they say so: `ZeroOnSelf(h)`, meaning a point is at distance 0 from itself. Non-negativity of the distances the lemmas need follows from that property. No lemma relies on symmetry.

Doubles are modelled as exact reals. A Kotlin exception becomes a `Failure` carrying the exception's class and message.

Where the code and its documentation disagree, the model follows the code:

- `computeMaxDistanceFromStart` is documented to throw `IllegalArgumentException` on an empty list (WaypointAnalyzer.kt:29, :39). In fact `waypoints.first()` at :32 throws `NoSuchElementException("List is empty.")` first, and that is what the model returns.
- `computeGeofenceResult` calls `findMostFrequentedArea(waypoints)` (GeofenceComputation.kt:36). That does not match the signature at WaypointAnalyzer.kt:97-101, whose `earthRadiusKm` has no default. The model passes `config.earthRadiusKm` and leaves the optional radius absent, as the call does.
- It then calls `computeMostFrequentedAreaRadius(config.mostFrequentedAreaRadiusKm, maxDistanceFromStart)` (GeofenceComputation.kt:39-42). No such two-argument overload exists. The model applies the radius rule of WaypointAnalyzer.kt:78-79 (`ResolveRadius`) to those two arguments.
- As a result, the radius reported for the most frequented area is not the radius its waypoints were counted with. The model keeps the two values apart. `ReportedRadiusAtMostCountingRadius` proves the reported one is never the larger when no radius is configured. `TieAndRadiusExample` shows a route on which they differ.

## Model

| member | source | states |
|---|---|---|
| `Collections.Map` | RouteAnalyzer/src/main/kotlin/com/carrental/WaypointAnalyzer.kt:34-37 | `map` keeps the length and applies the function at every position |
| `Collections.Filter` | RouteAnalyzer/src/main/kotlin/com/carrental/WaypointAnalyzer.kt:133 | `filter` returns an order-preserving subsequence that contains exactly the elements satisfying the predicate, and is no longer than its input |
| `Collections.Count` | RouteAnalyzer/src/main/kotlin/com/carrental/WaypointAnalyzer.kt:107-109 | `count` is at most the length, and is 0 exactly when no element satisfies the predicate |
| `Collections.CountIsFilterLength` | RouteAnalyzer/src/main/kotlin/com/carrental/WaypointAnalyzer.kt:107-109 | counting the matches equals the length of the filtered list |
| `Collections.FilterKeepsAll` | RouteAnalyzer/src/main/kotlin/com/carrental/WaypointAnalyzer.kt:133 | a filter that every element passes returns its input unchanged |
| `Collections.FilterIdempotent` | RouteAnalyzer/src/main/kotlin/com/carrental/WaypointAnalyzer.kt:133 | filtering a filtered list again by the same predicate changes nothing |
| `Collections.FilterPartition` | RouteAnalyzer/src/main/kotlin/com/carrental/WaypointAnalyzer.kt:133 | the elements kept and the elements dropped together are the input as a multiset, and their lengths add up to its length |
| `Collections.MaxOf` | RouteAnalyzer/src/main/kotlin/com/carrental/WaypointAnalyzer.kt:52-53 | `maxOf` over a non-empty list is at least every element |
| `Collections.MaxOfAttained` | RouteAnalyzer/src/main/kotlin/com/carrental/WaypointAnalyzer.kt:52-53 | the maximum is one of the elements |
| `Collections.MinOf` | RouteAnalyzer/src/main/kotlin/com/carrental/WaypointAnalyzer.kt:143-149 | the minimum of a non-empty list is at most every element; it is the lower reference for the centroid bounds |
| `Collections.MinOfAttained` | RouteAnalyzer/src/main/kotlin/com/carrental/WaypointAnalyzer.kt:143-149 | the minimum is one of the elements |
| `Collections.SumAtLeast` | RouteAnalyzer/src/main/kotlin/com/carrental/WaypointAnalyzer.kt:146-147 | `sumOf` (`SumOf`, the left-to-right sum) over n terms, none below `lo`, is at least n·`lo` |
| `Collections.SumAtMost` | RouteAnalyzer/src/main/kotlin/com/carrental/WaypointAnalyzer.kt:146-147 | `sumOf` (`SumOf`, the left-to-right sum) over n terms, none above `hi`, is at most n·`hi` |
| `Collections.Mean` | RouteAnalyzer/src/main/kotlin/com/carrental/WaypointAnalyzer.kt:146-147 | `sumOf { … } / size`: size copies of the mean add up to the sum |
| `Collections.MeanWithin` | RouteAnalyzer/src/main/kotlin/com/carrental/WaypointAnalyzer.kt:146-147 | bounds that hold for every element of a non-empty list hold for its mean |
| `Collections.MeanBounds` | RouteAnalyzer/src/main/kotlin/com/carrental/WaypointAnalyzer.kt:146-147 | the mean lies between the least and the greatest element |
| `Collections.IndexOfMaxBy` | RouteAnalyzer/src/main/kotlin/com/carrental/WaypointAnalyzer.kt:38 | the position `maxByOrNull` settles on has a key at least every other key, and every earlier key is strictly smaller, so the first maximum wins |
| `Collections.MaxByOrNull` | RouteAnalyzer/src/main/kotlin/com/carrental/WaypointAnalyzer.kt:38 | `maxByOrNull` is `null` exactly for an empty list |
| `Collections.IndexOf` | RouteAnalyzer/src/main/kotlin/com/carrental/WaypointAnalyzer.kt:34-38 | the first occurrence of an element: it holds the element and no earlier position does |
| `Collections.Tag` | RouteAnalyzer/src/main/kotlin/com/carrental/WaypointAnalyzer.kt:34-37 | `map { it to f(it) }` pairs each element, in order, with its image |
| `Collections.MaxByTagged` | RouteAnalyzer/src/main/kotlin/com/carrental/WaypointAnalyzer.kt:105-112 | `map { it to f(it) }.maxByOrNull { rank(it.second) }` over a non-empty list returns an element of the list paired with its own image; no element ranks higher; every element before its first occurrence ranks strictly lower |
| `WaypointAnalyzer.ComputeMaxDistanceFromStart` | RouteAnalyzer/src/main/kotlin/com/carrental/WaypointAnalyzer.kt:31-40 | fails exactly on an empty route, with `first()`'s NoSuchElementException; otherwise returns a waypoint of the route with its distance from the first waypoint; no waypoint is farther, and every waypoint before it is strictly nearer (the earliest farthest one wins) |
| `WaypointAnalyzer.DistancesFrom` | RouteAnalyzer/src/main/kotlin/com/carrental/WaypointAnalyzer.kt:53 | the distances from one waypoint to each waypoint of the route, in order |
| `WaypointAnalyzer.FarthestFrom` | RouteAnalyzer/src/main/kotlin/com/carrental/WaypointAnalyzer.kt:53 | the inner `maxOf` is at least the distance from `w1` to every waypoint |
| `WaypointAnalyzer.FarthestFromEach` | RouteAnalyzer/src/main/kotlin/com/carrental/WaypointAnalyzer.kt:52-54 | the inner maximum for each waypoint, in route order |
| `WaypointAnalyzer.ComputeMaxDistance` | RouteAnalyzer/src/main/kotlin/com/carrental/WaypointAnalyzer.kt:49-55 | 0 for fewer than two waypoints |
| `WaypointAnalyzer.MaxDistanceBound` | RouteAnalyzer/src/main/kotlin/com/carrental/WaypointAnalyzer.kt:49-55 | with two or more waypoints, the result is at least the distance of every ordered pair, self-pairs included |
| `WaypointAnalyzer.MaxDistanceAttained` | RouteAnalyzer/src/main/kotlin/com/carrental/WaypointAnalyzer.kt:49-55 | with two or more waypoints, the result is the distance of some ordered pair |
| `WaypointAnalyzer.RoundHalfEven` | RouteAnalyzer/src/main/kotlin/com/carrental/WaypointAnalyzer.kt:79 | Kotlin `round`: an integer within ½ of the input, and the even one on a tie |
| `WaypointAnalyzer.RoundHalfEvenUnique` | RouteAnalyzer/src/main/kotlin/com/carrental/WaypointAnalyzer.kt:79 | those two conditions determine the integer, so they specify `round` completely |
| `WaypointAnalyzer.RoundHalfEvenMonotone` | RouteAnalyzer/src/main/kotlin/com/carrental/WaypointAnalyzer.kt:79 | rounding never reverses the order of two values |
| `WaypointAnalyzer.RoundToTenth` | RouteAnalyzer/src/main/kotlin/com/carrental/WaypointAnalyzer.kt:79 | `round(x * 10) / 10` is a whole number of tenths within 0.05 of `x`, and on a tie (x exactly midway between two tenths) the tenth whose count is even |
| `WaypointAnalyzer.ResolveRadius` | RouteAnalyzer/src/main/kotlin/com/carrental/WaypointAnalyzer.kt:78-79 | a configured radius is only rounded to a tenth; without one, a span below 1 gives 0.1 and a larger span gives a tenth of it, rounded to a tenth and so within 0.05 of span × 0.1; never below 0.1 without a configured radius |
| `WaypointAnalyzer.ResolveRadiusMonotone` | RouteAnalyzer/src/main/kotlin/com/carrental/WaypointAnalyzer.kt:78-79 | without a configured radius, a longer span never gives a smaller radius |
| `WaypointAnalyzer.ComputeMostFrequentedAreaRadius` | RouteAnalyzer/src/main/kotlin/com/carrental/WaypointAnalyzer.kt:72-80 | a configured radius rounded to a tenth; without one, 0.1 when the largest pairwise distance is under 1 km (always so for fewer than two waypoints), and otherwise a tenth of that distance rounded to a tenth, so within 0.05 of it; never less than 0.1 without a configured radius |
| `WaypointAnalyzer.FarthestWithinSpan` | RouteAnalyzer/src/main/kotlin/com/carrental/WaypointAnalyzer.kt:31-55 | with zero self-distance, the farthest distance from the start is between 0 and the largest pairwise distance |
| `WaypointAnalyzer.WithinRadius` | RouteAnalyzer/src/main/kotlin/com/carrental/WaypointAnalyzer.kt:108 | holds exactly for the waypoints whose distance from the centre (centre first) is at most the radius, the boundary included; with zero self-distance and a radius of at least 0 it holds for the centre itself |
| `WaypointAnalyzer.Neighbours` | RouteAnalyzer/src/main/kotlin/com/carrental/WaypointAnalyzer.kt:107-109 | exactly the waypoints of the route within the radius of a centre, boundary included |
| `WaypointAnalyzer.NeighbourCounts` | RouteAnalyzer/src/main/kotlin/com/carrental/WaypointAnalyzer.kt:107-109 | the `count` for every centre equals the number of its neighbours |
| `WaypointAnalyzer.CountAround` | RouteAnalyzer/src/main/kotlin/com/carrental/WaypointAnalyzer.kt:107-109 | the `count { … }` of every candidate centre is its number of neighbours, and at most the route length |
| `WaypointAnalyzer.BusiestCandidate` | RouteAnalyzer/src/main/kotlin/com/carrental/WaypointAnalyzer.kt:105-112 | the `map { center to count }.maxByOrNull { it.second }` chain is absent only for an empty route; which pair it returns is stated by `BestCentre` |
| `WaypointAnalyzer.BestCentre` | RouteAnalyzer/src/main/kotlin/com/carrental/WaypointAnalyzer.kt:105-112 | the candidate `maxByOrNull` picks is a waypoint of the route; its score is its neighbour count; no candidate has more neighbours; every earlier candidate has fewer; the score is at most the route length |
| `WaypointAnalyzer.FindMostFrequentedArea` | RouteAnalyzer/src/main/kotlin/com/carrental/WaypointAnalyzer.kt:97-114 | fails exactly on an empty route with IllegalArgumentException("Waypoints list cannot be empty"); otherwise returns a waypoint of the route with its neighbour count at the resolved radius; no waypoint has more neighbours, every earlier waypoint has fewer, and the count is at most the route length |
| `WaypointAnalyzer.MostFrequentedCountsItself` | RouteAnalyzer/src/main/kotlin/com/carrental/WaypointAnalyzer.kt:105-112 | with zero self-distance and a radius of at least 0, the returned count is at least 1 |
| `WaypointAnalyzer.OutsideFence` | RouteAnalyzer/src/main/kotlin/com/carrental/WaypointAnalyzer.kt:133 | holds exactly for the points whose distance to the fence centre (point first) is strictly greater than the radius; a point on the boundary is not outside |
| `WaypointAnalyzer.FindWaypointsOutsideGeofence` | RouteAnalyzer/src/main/kotlin/com/carrental/WaypointAnalyzer.kt:126-134 | an order-preserving subsequence of the route containing exactly the waypoints strictly farther than the radius from the fence centre |
| `WaypointAnalyzer.OutsideGeofenceIdempotent` | RouteAnalyzer/src/main/kotlin/com/carrental/WaypointAnalyzer.kt:133 | filtering the outside waypoints again returns them unchanged |
| `WaypointAnalyzer.GeofencePartition` | RouteAnalyzer/src/main/kotlin/com/carrental/WaypointAnalyzer.kt:133 | the outside waypoints plus those kept out of the list (all within the radius, boundary points included) are the route, as a multiset |
| `WaypointAnalyzer.Latitudes` | RouteAnalyzer/src/main/kotlin/com/carrental/WaypointAnalyzer.kt:146 | the latitudes of the waypoints, in order |
| `WaypointAnalyzer.Longitudes` | RouteAnalyzer/src/main/kotlin/com/carrental/WaypointAnalyzer.kt:147 | the longitudes of the waypoints, in order |
| `WaypointAnalyzer.ComputeOutsideGeofenceCenter` | RouteAnalyzer/src/main/kotlin/com/carrental/WaypointAnalyzer.kt:143-150 | absent exactly for no points; otherwise timestamp 0 and the mean latitude and longitude, each between the least and greatest of its coordinate |
| `WaypointAnalyzer.CenterOfSingleton` | RouteAnalyzer/src/main/kotlin/com/carrental/WaypointAnalyzer.kt:143-150 | the centre of one point is that point, stamped 0 |
| `WaypointAnalyzer.SingleWaypointRoute` | RouteAnalyzer/src/main/kotlin/com/carrental/WaypointAnalyzer.kt:31-114 | a one-waypoint route is its own farthest point at distance 0, and its own most frequented centre with count 1 |
| `GeofenceComputation.ComputeGeofenceResult` | RouteAnalyzer/src/main/kotlin/com/carrental/GeofenceComputation.kt:31-73 | fails exactly on an empty route, with the first step's NoSuchElementException and no recovery; otherwise each block is what its call returns: the farthest pair; the most frequented centre and count searched with no configured radius; a reported radius resolved from the configured radius and the distance from the start; and the outside list, its size, its centroid and the fence radius |
| `GeofenceComputation.ResultGuarantees` | RouteAnalyzer/src/main/kotlin/com/carrental/GeofenceComputation.kt:31-73 | with zero self-distance: the farthest waypoint is on the route at a distance ≥ 0 that no waypoint exceeds; the most frequented centre is on the route with a count between 1 and the route length, and a reported radius ≥ 0.1 when none is configured; every outside waypoint is strictly beyond the fence radius, and the centroid is absent exactly when the count is 0 |
| `GeofenceComputation.ReportedRadiusAtMostCountingRadius` | RouteAnalyzer/src/main/kotlin/com/carrental/GeofenceComputation.kt:36-42 | with no configured radius, the reported area radius never exceeds the radius the area was counted with |
| `GeofenceComputation.ExampleFarthest` | RouteAnalyzer/src/main/kotlin/com/carrental/WaypointAnalyzer.kt:34-38 | on a route starting midway between two points 10 away on either side, the earlier of the two is reported |
| `GeofenceComputation.ExampleSpan` | RouteAnalyzer/src/main/kotlin/com/carrental/WaypointAnalyzer.kt:49-55 | on the same route the largest pairwise distance is 20 |
| `GeofenceComputation.TieAndRadiusExample` | RouteAnalyzer/src/main/kotlin/com/carrental/GeofenceComputation.kt:33-42 | on that route, with no configured radius, the reported area radius is 1.0 while the counting radius is 2.0 |

## Left out

- `haversine` (WaypointAnalyzer.kt:14-19): its trigonometry on `Double` has no exact real counterpart. It is a parameter of every operation, and the only property assumed of it is zero distance from a point to itself, stated as a requires where used. Symmetry and zero-iff-identical are not assumed.
- IEEE-754 behaviour: rounding error, NaN and infinities are not modelled; `Double` is an exact real. `maxByOrNull` and `<=` on NaN are left out with it.
- `WaypointAnalyzer.ComputeMaxDistance`: its contract states only the short-route case. Its bound over every pair and its attainment are stated by `MaxDistanceBound` and `MaxDistanceAttained`, because quantified facts in the function's own contract would be re-instantiated at every use of it.
- `WaypointAnalyzer.FarthestFrom`: its contract states only the bound. The value being attained follows from `Collections.MaxOfAttained` on `DistancesFrom`.
- `Collections.MaxByOrNull`: its contract states only when the result is absent. What the element is comes from `IndexOfMaxBy` and `MaxByTagged`.
- The `?: (waypoints.first() to 1)` fallback (WaypointAnalyzer.kt:112) and the `?: throw IllegalArgumentException` (WaypointAnalyzer.kt:39): neither can be reached, because the list is known to be non-empty there. They are not modelled as branches.
- `parseCsv` and `loadConfig` (FileLoader.kt:42-80): file and YAML I/O. Only the `Config` and `Waypoint` records (FileLoader.kt:17-35) are modelled.
- `saveGeofenceResultToFile` (GeofenceComputation.kt:75-80): JSON serialisation and a file write.
- `main` and its records (Main.kt): console and file I/O that repeat `computeGeofenceResult`. Main.kt is not part of this model.
- Distances computed with the real haversine, such as end-to-end scenarios with concrete kilometre values: these need the trigonometry left out above. The worked example uses a toy distance, the latitude gap.
- The O(n²) cost of the clustering search is not modelled; only its result is.
