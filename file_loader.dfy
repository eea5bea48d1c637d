/** The record shapes produced by the CSV and YAML loaders. */
module FileLoader {
  import opened Wrappers

  /** Kotlin `Long`. */
  newtype Long = x: int | -0x8000_0000_0000_0000 <= x < 0x8000_0000_0000_0000

  /** One recorded sample of the route; coordinates in degrees. */
  datatype Waypoint = Waypoint(timestamp: Long, latitude: real, longitude: real)

  /** Analysis parameters; `mostFrequentedAreaRadiusKm` is optional. */
  datatype Config = Config(
    earthRadiusKm: real,
    geofenceCenterLatitude: real,
    geofenceCenterLongitude: real,
    geofenceRadiusKm: real,
    mostFrequentedAreaRadiusKm: Option<real>)
}
