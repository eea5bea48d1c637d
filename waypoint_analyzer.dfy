/**
 * The route analysis functions: the point farthest from the start, the
 * largest distance between two waypoints, the clustering radius, the most
 * frequented waypoint, the geofence filter and the centroid of the points
 * outside the fence.
 *
 * The haversine distance is trigonometry on doubles and is not modelled:
 * every function takes it as a parameter `h` of type `Haversine`, called as
 * `h(earthRadiusKm, lat1, lon1, lat2, lon2)`. Doubles are modelled as reals.
 */
module WaypointAnalyzer {
  import opened Wrappers
  import opened FileLoader
  import opened Collections

  /** A distance function with the argument order of `haversine`. */
  type Haversine = (real, real, real, real, real) -> real

  /**
   * ASSUMPTION about the distance function (not proved anywhere in the
   * source): a point is at distance zero from itself. Lemmas that need it
   * take it as a precondition or an antecedent.
   */
  ghost predicate ZeroOnSelf(h: Haversine) {
    forall earthRadiusKm, lat, lon :: h(earthRadiusKm, lat, lon, lat, lon) == 0.0
  }

  /** The distance from waypoint `a` to waypoint `b`, in the argument order the source uses. */
  function Dist(h: Haversine, earthRadiusKm: real, a: Waypoint, b: Waypoint): real {
    h(earthRadiusKm, a.latitude, a.longitude, b.latitude, b.longitude)
  }

  // ---------------------------------------------------------------------
  // Farthest point from the start
  // ---------------------------------------------------------------------

  /** The identity ranking: pairs are compared by their real second component. */
  function AsIs(d: real): real {
    d
  }

  /**
   * `computeMaxDistanceFromStart`: `first()` throws on an empty list, so the
   * documented IllegalArgumentException is never the one raised. Otherwise
   * the result pairs a waypoint of the route with its distance from the
   * first waypoint; no waypoint is farther, and the earliest of the
   * farthest waypoints is the one returned.
   */
  function ComputeMaxDistanceFromStart(waypoints: seq<Waypoint>, earthRadiusKm: real, h: Haversine)
    : (r: Result<(Waypoint, real)>)
    ensures r.Failure? <==> |waypoints| == 0
    ensures |waypoints| == 0 ==> r == Failure(NoSuchElement("List is empty."))
    ensures r.Success? ==> r.value.0 in waypoints
    ensures r.Success? ==> r.value.1 == Dist(h, earthRadiusKm, waypoints[0], r.value.0)
    ensures r.Success? ==>
      forall j :: 0 <= j < |waypoints| ==> Dist(h, earthRadiusKm, waypoints[0], waypoints[j]) <= r.value.1
    ensures r.Success? ==>
      forall j :: 0 <= j < IndexOf(waypoints, r.value.0) ==> Dist(h, earthRadiusKm, waypoints[0], waypoints[j]) < r.value.1
  {
    if |waypoints| == 0 then Failure(NoSuchElement("List is empty."))
    else
      var startPoint := waypoints[0];
      var distanceFromStart := (w: Waypoint) => Dist(h, earthRadiusKm, startPoint, w);
      var best := MaxByOrNull(Tag(waypoints, distanceFromStart), SecondBy(AsIs));
      MaxByTagged(waypoints, distanceFromStart, AsIs);
      Success(best.value)
  }
  // ---------------------------------------------------------------------
  // Largest distance between two waypoints
  // ---------------------------------------------------------------------

  /** `waypoints.map { w2 -> haversine(w1, w2) }`: the distance from `w1` to each waypoint. */
  function DistancesFrom(waypoints: seq<Waypoint>, earthRadiusKm: real, h: Haversine, w1: Waypoint): (row: seq<real>)
    ensures |row| == |waypoints|
    ensures forall j :: 0 <= j < |waypoints| ==> row[j] == Dist(h, earthRadiusKm, w1, waypoints[j])
  {
    Map(waypoints, (w2: Waypoint) => Dist(h, earthRadiusKm, w1, w2))
  }

  /** `waypoints.maxOf { w2 -> haversine(w1, w2) }`: the farthest any waypoint is from `w1`. */
  function FarthestFrom(waypoints: seq<Waypoint>, earthRadiusKm: real, h: Haversine, w1: Waypoint): (d: real)
    requires |waypoints| > 0
    ensures forall j :: 0 <= j < |waypoints| ==> Dist(h, earthRadiusKm, w1, waypoints[j]) <= d
  {
    MaxOf(DistancesFrom(waypoints, earthRadiusKm, h, w1))
  }

  /** `waypoints.map { w1 -> waypoints.maxOf { ... } }`: for each waypoint, how far the farthest one is. */
  function FarthestFromEach(waypoints: seq<Waypoint>, earthRadiusKm: real, h: Haversine): (rows: seq<real>)
    requires |waypoints| > 0
    ensures |rows| == |waypoints|
    ensures forall i :: 0 <= i < |waypoints| ==> rows[i] == FarthestFrom(waypoints, earthRadiusKm, h, waypoints[i])
  {
    Map(waypoints, (w1: Waypoint) => FarthestFrom(waypoints, earthRadiusKm, h, w1))
  }

  /**
   * `computeMaxDistance`: 0 for fewer than two waypoints, otherwise the
   * maximum over all ordered pairs of the distance between them (see
   * `MaxDistanceBound` and `MaxDistanceAttained`).
   */
  function ComputeMaxDistance(waypoints: seq<Waypoint>, earthRadiusKm: real, h: Haversine): (d: real)
    ensures |waypoints| < 2 ==> d == 0.0
  {
    if |waypoints| < 2 then 0.0
    else MaxOf(FarthestFromEach(waypoints, earthRadiusKm, h))
  }

  /** No two waypoints (a waypoint and itself included) are farther apart than the largest distance. */
  lemma MaxDistanceBound(waypoints: seq<Waypoint>, earthRadiusKm: real, h: Haversine)
    requires |waypoints| >= 2
    ensures forall i, j :: 0 <= i < |waypoints| && 0 <= j < |waypoints| ==>
              Dist(h, earthRadiusKm, waypoints[i], waypoints[j]) <= ComputeMaxDistance(waypoints, earthRadiusKm, h)
  {
    var rows := FarthestFromEach(waypoints, earthRadiusKm, h);
    forall i, j | 0 <= i < |waypoints| && 0 <= j < |waypoints|
      ensures Dist(h, earthRadiusKm, waypoints[i], waypoints[j]) <= ComputeMaxDistance(waypoints, earthRadiusKm, h)
    {
      assert Dist(h, earthRadiusKm, waypoints[i], waypoints[j]) <= FarthestFrom(waypoints, earthRadiusKm, h, waypoints[i]);
      assert rows[i] <= MaxOf(rows);
    }
  }

  /** The largest distance of a route with at least two waypoints is the distance of one of its pairs. */
  lemma MaxDistanceAttained(waypoints: seq<Waypoint>, earthRadiusKm: real, h: Haversine)
    requires |waypoints| >= 2
    ensures exists i, j ::
              && 0 <= i < |waypoints| && 0 <= j < |waypoints|
              && ComputeMaxDistance(waypoints, earthRadiusKm, h) == Dist(h, earthRadiusKm, waypoints[i], waypoints[j])
  {
    var rows := FarthestFromEach(waypoints, earthRadiusKm, h);
    MaxOfAttained(rows);
    var i :| 0 <= i < |rows| && rows[i] == MaxOf(rows);
    var row := DistancesFrom(waypoints, earthRadiusKm, h, waypoints[i]);
    MaxOfAttained(row);
    var j :| 0 <= j < |row| && row[j] == MaxOf(row);
    assert ComputeMaxDistance(waypoints, earthRadiusKm, h) == rows[i] == row[j];
  }

  // ---------------------------------------------------------------------
  // Clustering radius
  // ---------------------------------------------------------------------

  /**
   * Kotlin's `round` (`Math.rint`): the nearest integer, and on a tie
   * between two integers the even one.
   */
  function RoundHalfEven(x: real): (n: int)
    ensures (n as real) - 0.5 <= x <= (n as real) + 0.5
    ensures x == (n as real) - 0.5 || x == (n as real) + 0.5 ==> n % 2 == 0
  {
    var f := x.Floor;
    var frac := x - f as real;
    if frac < 0.5 then f
    else if frac > 0.5 then f + 1
    else if f % 2 == 0 then f
    else f + 1
  }

  /** `round(x * 10) / 10`: `x` rounded to one decimal place. */
  function RoundToTenth(x: real): (r: real)
    ensures ((r * 10.0).Floor as real) == r * 10.0
    ensures -0.05 <= r - x <= 0.05
    ensures r * 10.0 == x * 10.0 + 0.5 || r * 10.0 == x * 10.0 - 0.5 ==> (r * 10.0).Floor % 2 == 0
  {
    var n := RoundHalfEven(x * 10.0);
    var r := (n as real) / 10.0;
    assert r * 10.0 == n as real;
    assert (n as real).Floor == n;
    r
  }

  /**
   * The radius rule of `computeMostFrequentedAreaRadius`: a configured
   * radius is used as it is, otherwise 0.1 km when the span is under 1 km
   * and a tenth of the span from there on; the choice is then rounded to
   * one decimal place.
   */
  function ResolveRadius(configured: Option<real>, maxDistance: real): (r: real)
    ensures configured.Some? ==> r == RoundToTenth(configured.value)
    ensures configured.None? && maxDistance < 1.0 ==> r == 0.1
    ensures configured.None? && maxDistance >= 1.0 ==> r == RoundToTenth(maxDistance * 0.1)
    ensures configured.None? && maxDistance >= 1.0 ==> -0.05 <= r - maxDistance * 0.1 <= 0.05
    ensures configured.None? ==> r >= 0.1
  {
    var radius := match configured
      case Some(v) => v
      case None => if maxDistance < 1.0 then 0.1 else maxDistance * 0.1;
    assert configured.None? && maxDistance < 1.0 ==> RoundHalfEven(radius * 10.0) == 1;
    assert configured.None? && maxDistance >= 1.0 ==> RoundHalfEven(radius * 10.0) >= 1;
    RoundToTenth(radius)
  }

  /** The two conditions on `RoundHalfEven` leave no choice: they determine the integer. */
  lemma RoundHalfEvenUnique(x: real, n: int)
    requires (n as real) - 0.5 <= x <= (n as real) + 0.5
    requires x == (n as real) - 0.5 || x == (n as real) + 0.5 ==> n % 2 == 0
    ensures n == RoundHalfEven(x)
  {
  }

  /** Rounding never reverses the order of two values. */
  lemma RoundHalfEvenMonotone(x: real, y: real)
    requires x <= y
    ensures RoundHalfEven(x) <= RoundHalfEven(y)
  {
  }

  /** Without a configured radius, a longer span never gives a smaller radius. */
  lemma ResolveRadiusMonotone(maxDistance1: real, maxDistance2: real)
    requires maxDistance1 <= maxDistance2
    ensures ResolveRadius(None, maxDistance1) <= ResolveRadius(None, maxDistance2)
  {
    if 1.0 <= maxDistance1 {
      RoundHalfEvenMonotone(maxDistance1 * 0.1 * 10.0, maxDistance2 * 0.1 * 10.0);
    }
  }

  /** `computeMostFrequentedAreaRadius`: the radius rule applied to the route's largest pairwise distance. */
  function ComputeMostFrequentedAreaRadius(waypoints: seq<Waypoint>, earthRadiusKm: real,
                                           mostFrequentedAreaRadiusKm: Option<real>, h: Haversine): (r: real)
    ensures mostFrequentedAreaRadiusKm.Some? ==> r == RoundToTenth(mostFrequentedAreaRadiusKm.value)
    ensures mostFrequentedAreaRadiusKm.None? && |waypoints| < 2 ==> r == 0.1
    ensures mostFrequentedAreaRadiusKm.None? && ComputeMaxDistance(waypoints, earthRadiusKm, h) < 1.0 ==> r == 0.1
    ensures mostFrequentedAreaRadiusKm.None? && ComputeMaxDistance(waypoints, earthRadiusKm, h) >= 1.0 ==>
      r == RoundToTenth(ComputeMaxDistance(waypoints, earthRadiusKm, h) * 0.1)
    ensures mostFrequentedAreaRadiusKm.None? && ComputeMaxDistance(waypoints, earthRadiusKm, h) >= 1.0 ==>
      -0.05 <= r - ComputeMaxDistance(waypoints, earthRadiusKm, h) * 0.1 <= 0.05
    ensures mostFrequentedAreaRadiusKm.None? ==> r >= 0.1
  {
    var maxDistance := ComputeMaxDistance(waypoints, earthRadiusKm, h);
    ResolveRadius(mostFrequentedAreaRadiusKm, maxDistance)
  }
  /**
   * The farthest point from the start is never farther away than the
   * largest distance between two waypoints, and (a point being at distance
   * zero from itself) never at a negative distance.
   */
  lemma FarthestWithinSpan(waypoints: seq<Waypoint>, earthRadiusKm: real, h: Haversine)
    requires ZeroOnSelf(h)
    requires |waypoints| > 0
    ensures 0.0 <= ComputeMaxDistanceFromStart(waypoints, earthRadiusKm, h).value.1
    ensures ComputeMaxDistanceFromStart(waypoints, earthRadiusKm, h).value.1 <= ComputeMaxDistance(waypoints, earthRadiusKm, h)
  {
    var (farthest, d) := ComputeMaxDistanceFromStart(waypoints, earthRadiusKm, h).value;
    assert Dist(h, earthRadiusKm, waypoints[0], waypoints[0]) == 0.0;
    if |waypoints| >= 2 {
      var k :| 0 <= k < |waypoints| && waypoints[k] == farthest;
      MaxDistanceBound(waypoints, earthRadiusKm, h);
      assert d == Dist(h, earthRadiusKm, waypoints[0], waypoints[k]);
    } else {
      assert farthest == waypoints[0];
    }
  }

  // ---------------------------------------------------------------------
  // Most frequented area
  // ---------------------------------------------------------------------

  /** The test `haversine(center, other) <= radiusKm`: `other` lies within the radius, boundary included. */
  function WithinRadius(h: Haversine, earthRadiusKm: real, center: Waypoint, radiusKm: real): (within: Waypoint -> bool)
    ensures forall other :: within(other) <==> Dist(h, earthRadiusKm, center, other) <= radiusKm
    ensures ZeroOnSelf(h) && 0.0 <= radiusKm ==> within(center)
  {
    (other: Waypoint) => Dist(h, earthRadiusKm, center, other) <= radiusKm
  }

  /** The waypoints within `radiusKm` of `center`, in route order. */
  function Neighbours(waypoints: seq<Waypoint>, earthRadiusKm: real, h: Haversine, radiusKm: real, center: Waypoint)
    : (r: seq<Waypoint>)
    ensures forall o :: o in r ==> o in waypoints && Dist(h, earthRadiusKm, center, o) <= radiusKm
    ensures forall o :: o in waypoints && Dist(h, earthRadiusKm, center, o) <= radiusKm ==> o in r
  {
    Filter(waypoints, WithinRadius(h, earthRadiusKm, center, radiusKm))
  }

  /** The `count { ... }` for every candidate centre is the number of its neighbours. */
  lemma NeighbourCounts(waypoints: seq<Waypoint>, earthRadiusKm: real, h: Haversine, radiusKm: real)
    ensures forall c :: Count(waypoints, WithinRadius(h, earthRadiusKm, c, radiusKm))
                        == |Neighbours(waypoints, earthRadiusKm, h, radiusKm, c)|
  {
    forall c {
      CountIsFilterLength(waypoints, WithinRadius(h, earthRadiusKm, c, radiusKm));
    }
  }

  /**
   * `findMostFrequentedArea`: an empty route is rejected. Otherwise the
   * clustering radius is resolved, every waypoint is a candidate centre
   * and is scored by how many waypoints lie within the radius of it (itself
   * included), and the best-scoring candidate is returned with its score;
   * on a tie the earliest candidate wins. The `?: (first() to 1)` fallback
   * cannot be reached, since the list is not empty there.
   */
  function FindMostFrequentedArea(waypoints: seq<Waypoint>, earthRadiusKm: real,
                                  mostFrequentedAreaRadiusKm: Option<real>, h: Haversine)
    : (r: Result<(Waypoint, nat)>)
    ensures r.Failure? <==> |waypoints| == 0
    ensures |waypoints| == 0 ==> r == Failure(IllegalArgument("Waypoints list cannot be empty"))
    ensures r.Success? ==> r.value.0 in waypoints
    ensures r.Success? ==>
      var radiusKm := ComputeMostFrequentedAreaRadius(waypoints, earthRadiusKm, mostFrequentedAreaRadiusKm, h);
      r.value.1 == |Neighbours(waypoints, earthRadiusKm, h, radiusKm, r.value.0)|
    ensures r.Success? ==>
      var radiusKm := ComputeMostFrequentedAreaRadius(waypoints, earthRadiusKm, mostFrequentedAreaRadiusKm, h);
      forall j :: 0 <= j < |waypoints| ==>
        |Neighbours(waypoints, earthRadiusKm, h, radiusKm, waypoints[j])| <= r.value.1
    ensures r.Success? ==>
      var radiusKm := ComputeMostFrequentedAreaRadius(waypoints, earthRadiusKm, mostFrequentedAreaRadiusKm, h);
      forall j :: 0 <= j < IndexOf(waypoints, r.value.0) ==>
        |Neighbours(waypoints, earthRadiusKm, h, radiusKm, waypoints[j])| < r.value.1
    ensures r.Success? ==> r.value.1 <= |waypoints|
  {
    if |waypoints| == 0 then Failure(IllegalArgument("Waypoints list cannot be empty"))
    else
      var radiusKm := ComputeMostFrequentedAreaRadius(waypoints, earthRadiusKm, mostFrequentedAreaRadiusKm, h);
      BestCentre(waypoints, earthRadiusKm, h, radiusKm);
      Success(BusiestCandidate(waypoints, earthRadiusKm, h, radiusKm).value)
  }

  /**
   * The `waypoints.count { ... }` of a candidate centre: how many waypoints
   * lie within `radiusKm` of it, at most the whole route.
   */
  function CountAround(waypoints: seq<Waypoint>, earthRadiusKm: real, h: Haversine, radiusKm: real)
    : (count: Waypoint -> nat)
    ensures forall center :: count(center) == |Neighbours(waypoints, earthRadiusKm, h, radiusKm, center)|
    ensures forall center :: count(center) <= |waypoints|
  {
    NeighbourCounts(waypoints, earthRadiusKm, h, radiusKm);
    (center: Waypoint) => Count(waypoints, WithinRadius(h, earthRadiusKm, center, radiusKm))
  }

  /**
   * `waypoints.map { center -> center to count }.maxByOrNull { it.second }`:
   * absent only for an empty route (see `BestCentre` for which pair it is).
   */
  function BusiestCandidate(waypoints: seq<Waypoint>, earthRadiusKm: real, h: Haversine, radiusKm: real)
    : (best: Option<(Waypoint, nat)>)
    ensures best.None? <==> |waypoints| == 0
  {
    MaxByOrNull<(Waypoint, nat)>(Tag<Waypoint, nat>(waypoints, CountAround(waypoints, earthRadiusKm, h, radiusKm)),
                                 SecondBy<Waypoint, nat>(NatAsReal))
  }

  /** The candidate picked by `maxByOrNull` over the neighbour counts, restated on `Neighbours`. */
  lemma BestCentre(waypoints: seq<Waypoint>, earthRadiusKm: real, h: Haversine, radiusKm: real)
    requires |waypoints| > 0
    ensures var best := BusiestCandidate(waypoints, earthRadiusKm, h, radiusKm);
      && best.Some?
      && best.value.0 in waypoints
      && best.value.1 == |Neighbours(waypoints, earthRadiusKm, h, radiusKm, best.value.0)|
      && (forall j :: 0 <= j < |waypoints| ==>
            |Neighbours(waypoints, earthRadiusKm, h, radiusKm, waypoints[j])| <= best.value.1)
      && (forall j :: 0 <= j < IndexOf(waypoints, best.value.0) ==>
            |Neighbours(waypoints, earthRadiusKm, h, radiusKm, waypoints[j])| < best.value.1)
      && best.value.1 <= |waypoints|
  {
    var countAround := CountAround(waypoints, earthRadiusKm, h, radiusKm);
    MaxByTagged(waypoints, countAround, NatAsReal);
    NeighbourCounts(waypoints, earthRadiusKm, h, radiusKm);
  }

  /** Counts are compared as numbers. */
  function NatAsReal(n: nat): real {
    n as real
  }

  /**
   * A point lying at distance zero from itself, the most frequented centre
   * counts at least itself whenever the radius is not negative.
   */
  lemma MostFrequentedCountsItself(waypoints: seq<Waypoint>, earthRadiusKm: real,
                                   mostFrequentedAreaRadiusKm: Option<real>, h: Haversine)
    requires ZeroOnSelf(h)
    requires |waypoints| > 0
    requires ComputeMostFrequentedAreaRadius(waypoints, earthRadiusKm, mostFrequentedAreaRadiusKm, h) >= 0.0
    ensures FindMostFrequentedArea(waypoints, earthRadiusKm, mostFrequentedAreaRadiusKm, h).value.1 >= 1
  {
    var radiusKm := ComputeMostFrequentedAreaRadius(waypoints, earthRadiusKm, mostFrequentedAreaRadiusKm, h);
    var (center, n) := FindMostFrequentedArea(waypoints, earthRadiusKm, mostFrequentedAreaRadiusKm, h).value;
    assert Dist(h, earthRadiusKm, center, center) == 0.0;
    assert center in Neighbours(waypoints, earthRadiusKm, h, radiusKm, center);
  }

  // ---------------------------------------------------------------------
  // Geofence
  // ---------------------------------------------------------------------

  /** The test `haversine(point, fence centre) > radiusKm`: a point on the boundary is inside. */
  function OutsideFence(h: Haversine, earthRadiusKm: real, centerLat: real, centerLon: real, radiusKm: real)
    : (outside: Waypoint -> bool)
    ensures forall w :: outside(w) <==> h(earthRadiusKm, w.latitude, w.longitude, centerLat, centerLon) > radiusKm
    ensures forall w: Waypoint :: h(earthRadiusKm, w.latitude, w.longitude, centerLat, centerLon) == radiusKm ==> !outside(w)
  {
    (w: Waypoint) => h(earthRadiusKm, w.latitude, w.longitude, centerLat, centerLon) > radiusKm
  }

  /**
   * `findWaypointsOutsideGeofence`: the waypoints strictly farther than
   * `radiusKm` from the fence centre, all of them, in route order.
   */
  function FindWaypointsOutsideGeofence(waypoints: seq<Waypoint>, earthRadiusKm: real,
                                        centerLat: real, centerLon: real, radiusKm: real, h: Haversine)
    : (r: seq<Waypoint>)
    ensures SubsequenceOf(r, waypoints)
    ensures forall w :: w in r ==> w in waypoints && h(earthRadiusKm, w.latitude, w.longitude, centerLat, centerLon) > radiusKm
    ensures forall w :: w in waypoints && h(earthRadiusKm, w.latitude, w.longitude, centerLat, centerLon) > radiusKm ==> w in r
  {
    Filter(waypoints, OutsideFence(h, earthRadiusKm, centerLat, centerLon, radiusKm))
  }

  /** Applying the geofence filter to its own result changes nothing. */
  lemma OutsideGeofenceIdempotent(waypoints: seq<Waypoint>, earthRadiusKm: real,
                                  centerLat: real, centerLon: real, radiusKm: real, h: Haversine)
    ensures var outside := FindWaypointsOutsideGeofence(waypoints, earthRadiusKm, centerLat, centerLon, radiusKm, h);
      FindWaypointsOutsideGeofence(outside, earthRadiusKm, centerLat, centerLon, radiusKm, h) == outside
  {
    FilterIdempotent(waypoints, OutsideFence(h, earthRadiusKm, centerLat, centerLon, radiusKm));
  }

  /**
   * The waypoints outside the fence and the rest (those at most `radiusKm`
   * away, the boundary included) split the route: every waypoint is in
   * exactly one of the two, as often as it occurs in the route.
   */
  lemma GeofencePartition(waypoints: seq<Waypoint>, earthRadiusKm: real,
                          centerLat: real, centerLon: real, radiusKm: real, h: Haversine)
    ensures var outside := FindWaypointsOutsideGeofence(waypoints, earthRadiusKm, centerLat, centerLon, radiusKm, h);
      var inside := Filter(waypoints, Negate(OutsideFence(h, earthRadiusKm, centerLat, centerLon, radiusKm)));
      && multiset(outside) + multiset(inside) == multiset(waypoints)
      && (forall w :: w in inside ==> h(earthRadiusKm, w.latitude, w.longitude, centerLat, centerLon) <= radiusKm)
  {
    FilterPartition(waypoints, OutsideFence(h, earthRadiusKm, centerLat, centerLon, radiusKm));
  }

  // ---------------------------------------------------------------------
  // Centre of the waypoints outside the fence
  // ---------------------------------------------------------------------

  /** `map { it.latitude }`. */
  function Latitudes(waypoints: seq<Waypoint>): (r: seq<real>)
    ensures |r| == |waypoints|
    ensures forall i :: 0 <= i < |waypoints| ==> r[i] == waypoints[i].latitude
  {
    Map(waypoints, (w: Waypoint) => w.latitude)
  }

  /** `map { it.longitude }`. */
  function Longitudes(waypoints: seq<Waypoint>): (r: seq<real>)
    ensures |r| == |waypoints|
    ensures forall i :: 0 <= i < |waypoints| ==> r[i] == waypoints[i].longitude
  {
    Map(waypoints, (w: Waypoint) => w.longitude)
  }

  /**
   * `computeOutsideGeofenceCenter`: `null` for no points; otherwise a
   * synthetic waypoint stamped 0 whose latitude and longitude are the
   * arithmetic means of the points' latitudes and longitudes, each lying
   * between the least and the greatest of its coordinate.
   */
  function ComputeOutsideGeofenceCenter(waypointsOutside: seq<Waypoint>): (r: Option<Waypoint>)
    ensures r.None? <==> |waypointsOutside| == 0
    ensures r.Some? ==> r.value.timestamp == 0
    ensures r.Some? ==> r.value.latitude == Mean(Latitudes(waypointsOutside))
    ensures r.Some? ==> r.value.longitude == Mean(Longitudes(waypointsOutside))
    ensures r.Some? ==>
      MinOf(Latitudes(waypointsOutside)) <= r.value.latitude <= MaxOf(Latitudes(waypointsOutside))
    ensures r.Some? ==>
      MinOf(Longitudes(waypointsOutside)) <= r.value.longitude <= MaxOf(Longitudes(waypointsOutside))
  {
    if |waypointsOutside| == 0 then None
    else
      var n := |waypointsOutside| as real;
      var avgLat := SumOf(Latitudes(waypointsOutside)) / n;
      var avgLon := SumOf(Longitudes(waypointsOutside)) / n;
      MeanBounds(Latitudes(waypointsOutside));
      MeanBounds(Longitudes(waypointsOutside));
      Some(Waypoint(0, avgLat, avgLon))
  }

  /** The centre of a single point is that point, stamped 0. */
  lemma CenterOfSingleton(w: Waypoint)
    ensures ComputeOutsideGeofenceCenter([w]) == Some(Waypoint(0, w.latitude, w.longitude))
  {
    assert Latitudes([w]) == [w.latitude];
    assert Longitudes([w]) == [w.longitude];
  }
  // ---------------------------------------------------------------------
  // Small routes
  // ---------------------------------------------------------------------

  /**
   * A route of one waypoint: it is its own farthest point, at distance 0,
   * and its own most frequented centre, gathering exactly itself.
   */
  lemma SingleWaypointRoute(w: Waypoint, earthRadiusKm: real, h: Haversine)
    requires ZeroOnSelf(h)
    ensures ComputeMaxDistanceFromStart([w], earthRadiusKm, h) == Success((w, 0.0))
    ensures FindMostFrequentedArea([w], earthRadiusKm, None, h) == Success((w, 1))
  {
    assert Dist(h, earthRadiusKm, w, w) == 0.0;
    var (center, n) := FindMostFrequentedArea([w], earthRadiusKm, None, h).value;
    assert center == w;
    MostFrequentedCountsItself([w], earthRadiusKm, None, h);
  }
}



