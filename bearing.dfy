/**
 * The bearing engine: the forward azimuth from the previous position of a
 * flight to its current one, in degrees clockwise from north, normalised
 * into [0, 360).
 *
 * The spherical trigonometry (radians, sin, cos, atan2) is not modelled: it
 * is the parameter `azimuth`, which stands for `degrees(atan2(y, x))`
 * computed from (previous latitude, previous longitude, latitude,
 * longitude), in that order. What is modelled is the final normalisation
 * `(deg + 360) % 360` with Python's floored modulo on floats.
 */
module Bearing {

  /** degrees(atan2(y, x)) of the forward-azimuth formula, taking
      (lat1, lon1, lat2, lon2) = (previous latitude, previous longitude,
      latitude, longitude). */
  type Azimuth = (real, real, real, real) -> real

  /** True when x is a whole number. */
  predicate IsWhole(x: real) {
    x == x.Floor as real
  }

  /** Python's `(deg + 360) % 360` on reals: floored modulo. The result is
      in [0, 360), differs from `deg` by a whole number of turns, and is
      `deg` itself or `deg + 360` for the angles atan2 can produce. */
  function Normalise(deg: real): (r: real)
    ensures 0.0 <= r < 360.0
    ensures IsWhole((deg - r) / 360.0)
    ensures 0.0 <= deg < 360.0 ==> r == deg
    ensures -360.0 <= deg < 0.0 ==> r == deg + 360.0
  {
    var shifted := deg + 360.0;
    var turns := (shifted / 360.0).Floor;
    var r := shifted - 360.0 * turns as real;
    assert (deg - r) / 360.0 == (turns - 1) as real;
    r
  }

  /** bearing_from_positions(longitude, latitude, previous_longitude,
      previous_latitude): the current coordinates come first in the call,
      and the formula measures from the previous point to the current one.
      For the angles atan2 yields, (-180, 180], a negative azimuth gains one
      turn (west, -90, becomes 270) and the others are kept. */
  function BearingFromPositions(azimuth: Azimuth, longitude: real, latitude: real,
                                previousLongitude: real, previousLatitude: real): (r: real)
    ensures 0.0 <= r < 360.0
    ensures IsWhole((azimuth(previousLatitude, previousLongitude, latitude, longitude) - r) / 360.0)
    ensures var deg := azimuth(previousLatitude, previousLongitude, latitude, longitude);
            -180.0 < deg <= 180.0 ==> r == if deg < 0.0 then deg + 360.0 else deg
  {
    Normalise(azimuth(previousLatitude, previousLongitude, latitude, longitude))
  }
}
