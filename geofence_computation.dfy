/**
 * The assembly of the three analysis results into one record, as
 * `computeGeofenceResult` does it.
 */
module GeofenceComputation {
  import opened Wrappers
  import opened FileLoader
  import opened Collections
  import opened WaypointAnalyzer

  /** The waypoint farthest from the start and its distance. */
  datatype MaxDistanceFromStart = MaxDistanceFromStart(waypoint: Waypoint, distanceKm: real)

  /** The centre of the most frequented area, the radius reported for it and how many waypoints it gathers. */
  datatype MostFrequentedArea = MostFrequentedArea(centralWaypoint: Waypoint, areaRadiusKm: real, entriesCount: nat)

  /** The waypoints outside the geofence, their centre (`null` when there are none) and their number (the source's `Count`). */
  datatype WaypointsOutsideGeofence =
    WaypointsOutsideGeofence(centralWaypoint: Option<Waypoint>, areaRadiusKm: real, count: nat, waypoints: seq<Waypoint>)

  /** The whole analysis of one route. */
  datatype GeofenceResult = GeofenceResult(
    maxDistanceFromStart: MaxDistanceFromStart,
    mostFrequentedArea: MostFrequentedArea,
    waypointsOutsideGeofence: WaypointsOutsideGeofence)

  /**
   * `computeGeofenceResult`. The most frequented area is searched with the
   * configured Earth radius and no configured radius, so its count uses the
   * default radius derived from the largest pairwise distance; the radius
   * reported beside it is resolved separately, from the configured radius
   * and the distance of the farthest point from the start. An empty route
   * fails at the first step and nothing is recovered.
   */
  function ComputeGeofenceResult(waypoints: seq<Waypoint>, config: Config, h: Haversine): (r: Result<GeofenceResult>)
    ensures r.Failure? <==> |waypoints| == 0
    ensures |waypoints| == 0 ==> r == Failure(NoSuchElement("List is empty."))
    ensures r.Success? ==>
      var far := r.value.maxDistanceFromStart;
      ComputeMaxDistanceFromStart(waypoints, config.earthRadiusKm, h) == Success((far.waypoint, far.distanceKm))
    ensures r.Success? ==>
      var area := r.value.mostFrequentedArea;
      && FindMostFrequentedArea(waypoints, config.earthRadiusKm, None, h) == Success((area.centralWaypoint, area.entriesCount))
      && area.areaRadiusKm == ResolveRadius(config.mostFrequentedAreaRadiusKm, r.value.maxDistanceFromStart.distanceKm)
    ensures r.Success? ==>
      var outside := r.value.waypointsOutsideGeofence;
      && outside.waypoints == FindWaypointsOutsideGeofence(waypoints, config.earthRadiusKm,
           config.geofenceCenterLatitude, config.geofenceCenterLongitude, config.geofenceRadiusKm, h)
      && outside.count == |outside.waypoints|
      && outside.centralWaypoint == ComputeOutsideGeofenceCenter(outside.waypoints)
      && outside.areaRadiusKm == config.geofenceRadiusKm
  {
    var (farthestWaypoint, maxDistanceFromStart) :- ComputeMaxDistanceFromStart(waypoints, config.earthRadiusKm, h);
    // The route is not empty here, so this search cannot fail.
    var (mostFrequentedArea, mostFrequentedEntriesCount) := FindMostFrequentedArea(waypoints, config.earthRadiusKm, None, h).value;
    var mostFrequentedAreaRadiusKm := ResolveRadius(config.mostFrequentedAreaRadiusKm, maxDistanceFromStart);
    var waypointsOutside := FindWaypointsOutsideGeofence(waypoints, config.earthRadiusKm,
      config.geofenceCenterLatitude, config.geofenceCenterLongitude, config.geofenceRadiusKm, h);
    var waypointsOutsideCenterPoint := ComputeOutsideGeofenceCenter(waypointsOutside);
    Success(GeofenceResult(
      MaxDistanceFromStart(farthestWaypoint, maxDistanceFromStart),
      MostFrequentedArea(mostFrequentedArea, mostFrequentedAreaRadiusKm, mostFrequentedEntriesCount),
      WaypointsOutsideGeofence(waypointsOutsideCenterPoint, config.geofenceRadiusKm, |waypointsOutside|, waypointsOutside)))
  }
  /**
   * What the assembled record guarantees, a point being at distance zero
   * from itself: the farthest point is a waypoint of the route that no
   * waypoint lies beyond; the most frequented centre is a waypoint that
   * gathers at least itself and at most the whole route, with a reported
   * radius of at least 0.1 km when none is configured; every waypoint listed
   * outside the fence is strictly beyond its radius, and there is a centre
   * exactly when something is outside.
   */
  lemma ResultGuarantees(waypoints: seq<Waypoint>, config: Config, h: Haversine)
    requires ZeroOnSelf(h)
    requires |waypoints| > 0
    ensures var g := ComputeGeofenceResult(waypoints, config, h).value;
      && g.maxDistanceFromStart.waypoint in waypoints
      && 0.0 <= g.maxDistanceFromStart.distanceKm
      && (forall j :: 0 <= j < |waypoints| ==>
            Dist(h, config.earthRadiusKm, waypoints[0], waypoints[j]) <= g.maxDistanceFromStart.distanceKm)
    ensures var g := ComputeGeofenceResult(waypoints, config, h).value;
      && g.mostFrequentedArea.centralWaypoint in waypoints
      && 1 <= g.mostFrequentedArea.entriesCount <= |waypoints|
      && (config.mostFrequentedAreaRadiusKm.None? ==> g.mostFrequentedArea.areaRadiusKm >= 0.1)
    ensures var g := ComputeGeofenceResult(waypoints, config, h).value;
      && (forall w :: w in g.waypointsOutsideGeofence.waypoints ==>
            h(config.earthRadiusKm, w.latitude, w.longitude, config.geofenceCenterLatitude, config.geofenceCenterLongitude)
              > config.geofenceRadiusKm)
      && (g.waypointsOutsideGeofence.centralWaypoint.None? <==> g.waypointsOutsideGeofence.count == 0)
  {
    FarthestWithinSpan(waypoints, config.earthRadiusKm, h);
    MostFrequentedCountsItself(waypoints, config.earthRadiusKm, None, h);
  }

  /**
   * With no radius configured, the radius reported for the most frequented
   * area (derived from the farthest distance from the start) never exceeds
   * the radius its waypoints were counted with (derived from the largest
   * distance between any two waypoints).
   */
  lemma ReportedRadiusAtMostCountingRadius(waypoints: seq<Waypoint>, config: Config, h: Haversine)
    requires ZeroOnSelf(h)
    requires |waypoints| > 0
    requires config.mostFrequentedAreaRadiusKm.None?
    ensures ComputeGeofenceResult(waypoints, config, h).value.mostFrequentedArea.areaRadiusKm
            <= ComputeMostFrequentedAreaRadius(waypoints, config.earthRadiusKm, None, h)
  {
    FarthestWithinSpan(waypoints, config.earthRadiusKm, h);
    var fromStart := ComputeMaxDistanceFromStart(waypoints, config.earthRadiusKm, h).value.1;
    ResolveRadiusMonotone(fromStart, ComputeMaxDistance(waypoints, config.earthRadiusKm, h));
  }

  /** A toy distance: how far apart two latitudes are. */
  function LatitudeGap(earthRadiusKm: real, lat1: real, lon1: real, lat2: real, lon2: real): real {
    if lat1 <= lat2 then lat2 - lat1 else lat1 - lat2
  }

  /** A route that starts halfway between two points 20 degrees of latitude apart. */
  predicate IsExampleRoute(route: seq<Waypoint>) {
    && |route| == 3
    && route[0] == Waypoint(0, 0.0, 0.0)
    && route[1] == Waypoint(1, 10.0, 0.0)
    && route[2] == Waypoint(2, -10.0, 0.0)
  }

  lemma ExampleLatitudes(route: seq<Waypoint>, k: int)
    requires IsExampleRoute(route) && 0 <= k < 3
    ensures -10.0 <= route[k].latitude <= 10.0
  {
    if k == 0 {} else if k == 1 {} else {}
  }

  /** On the example route the earlier of the two farthest points, 10 away, is reported. */
  lemma ExampleFarthest(route: seq<Waypoint>, earthRadiusKm: real)
    requires IsExampleRoute(route)
    ensures ComputeMaxDistanceFromStart(route, earthRadiusKm, LatitudeGap) == Success((route[1], 10.0))
  {
    var h: Haversine := LatitudeGap;
    var (farthest, d) := ComputeMaxDistanceFromStart(route, earthRadiusKm, h).value;
    assert Dist(h, earthRadiusKm, route[0], route[1]) == 10.0;
    assert Dist(h, earthRadiusKm, route[0], route[0]) == 0.0;
    assert IndexOf(route, farthest) == 1;
  }

  /** On the example route the largest distance between two waypoints is 20. */
  lemma ExampleSpan(route: seq<Waypoint>, earthRadiusKm: real)
    requires IsExampleRoute(route)
    ensures ComputeMaxDistance(route, earthRadiusKm, LatitudeGap) == 20.0
  {
    ExampleSpanAtLeast(route, earthRadiusKm);
    ExampleSpanAtMost(route, earthRadiusKm);
  }

  lemma ExampleSpanAtLeast(route: seq<Waypoint>, earthRadiusKm: real)
    requires IsExampleRoute(route)
    ensures 20.0 <= ComputeMaxDistance(route, earthRadiusKm, LatitudeGap)
  {
    MaxDistanceBound(route, earthRadiusKm, LatitudeGap);
    assert Dist(LatitudeGap, earthRadiusKm, route[1], route[2]) == 20.0;
  }

  lemma ExampleSpanAtMost(route: seq<Waypoint>, earthRadiusKm: real)
    requires IsExampleRoute(route)
    ensures ComputeMaxDistance(route, earthRadiusKm, LatitudeGap) <= 20.0
  {
    var span := ComputeMaxDistance(route, earthRadiusKm, LatitudeGap);
    MaxDistanceAttained(route, earthRadiusKm, LatitudeGap);
    var i, j :| 0 <= i < 3 && 0 <= j < 3 && span == Dist(LatitudeGap, earthRadiusKm, route[i], route[j]);
    ExampleLatitudes(route, i);
    ExampleLatitudes(route, j);
    LatitudeGapAtMost(earthRadiusKm, route[i], route[j], 10.0);
  }

  lemma LatitudeGapAtMost(earthRadiusKm: real, a: Waypoint, b: Waypoint, bound: real)
    requires -bound <= a.latitude <= bound && -bound <= b.latitude <= bound
    ensures Dist(LatitudeGap, earthRadiusKm, a, b) <= 2.0 * bound
  {
  }

  /**
   * On the example route the earlier of two equally far points is reported
   * as the farthest, and the radius reported for the most frequented area
   * (1.0, a tenth of the distance from the start) differs from the radius
   * its waypoints were counted with (2.0, a tenth of the largest distance
   * between two waypoints).
   */
  lemma TieAndRadiusExample(route: seq<Waypoint>, config: Config)
    requires IsExampleRoute(route)
    requires config.mostFrequentedAreaRadiusKm.None?
    ensures var g := ComputeGeofenceResult(route, config, LatitudeGap).value;
      && g.maxDistanceFromStart == MaxDistanceFromStart(Waypoint(1, 10.0, 0.0), 10.0)
      && g.mostFrequentedArea.areaRadiusKm == 1.0
      && ComputeMostFrequentedAreaRadius(route, config.earthRadiusKm, None, LatitudeGap) == 2.0
  {
    var g := ComputeGeofenceResult(route, config, LatitudeGap).value;
    ExampleFarthest(route, config.earthRadiusKm);
    assert g.mostFrequentedArea.areaRadiusKm == 1.0 by {
      assert g.mostFrequentedArea.areaRadiusKm == ResolveRadius(None, 10.0);
      assert RoundHalfEven(10.0) == 10;
    }
    assert ComputeMostFrequentedAreaRadius(route, config.earthRadiusKm, None, LatitudeGap) == 2.0 by {
      ExampleSpan(route, config.earthRadiusKm);
      assert RoundHalfEven(20.0) == 20;
    }
  }
}

