/**
 * The coordinate helpers of utils/location.ts that need no trigonometry:
 * validation, clamping, the Bulgaria box, nearest-point search (with the
 * distance function given by the caller), travel time and the latitude
 * and longitude extent of a bounding box.
 */
module Location {
  import opened Wrappers
  import opened Text
  import opened Json
  import opened ShelterTypes

  predicate InRange(c: Coordinates)
  {
    -90.0 <= c.latitude <= 90.0 && -180.0 <= c.longitude <= 180.0
  }

  /** `isValidCoordinates`: a non-null object with numeric latitude and longitude in range. */
  predicate IsValidCoordinates(v: JValue)
  {
    && IsObject(v) && !v.JNull?
    && IsNumber(Get(v, "latitude")) && IsNumber(Get(v, "longitude"))
    && -90.0 <= Get(v, "latitude").n <= 90.0
    && -180.0 <= Get(v, "longitude").n <= 180.0
  }

  /** A coordinates object passes validation exactly when its values are in range. */
  lemma CoordinatesValidity(c: Coordinates)
    ensures IsValidCoordinates(CoordinatesToJson(c)) <==> InRange(c)
  {
    var v := CoordinatesToJson(c);
    assert Get(v, "latitude") == JNum(c.latitude);
    assert Get(v, "longitude") == JNum(c.longitude);
  }

  /** Whatever passes validation is a plain object holding in-range coordinates. */
  lemma ValidCoordinatesRead(v: JValue)
    requires IsValidCoordinates(v)
    ensures v.JObj?
    ensures InRange(Coordinates(Get(v, "latitude").n, Get(v, "longitude").n))
  {
  }

  function Abs(x: real): real { if x < 0.0 then -x else x }

  /** `Math.max(lo, Math.min(hi, x))`. */
  function Clamp(lo: real, hi: real, x: real): real
  {
    if x < lo then lo else if x > hi then hi else x
  }

  /** `normalizeCoordinates`: the in-range point nearest to `c`, component by component. */
  function NormalizeCoordinates(c: Coordinates): (r: Coordinates)
    ensures InRange(r)
    ensures InRange(c) ==> r == c
    ensures forall p :: InRange(p) ==>
              Abs(r.latitude - c.latitude) <= Abs(p.latitude - c.latitude)
              && Abs(r.longitude - c.longitude) <= Abs(p.longitude - c.longitude)
  {
    Coordinates(Clamp(-90.0, 90.0, c.latitude), Clamp(-180.0, 180.0, c.longitude))
  }

  lemma NormalizeIdempotent(c: Coordinates)
    ensures NormalizeCoordinates(NormalizeCoordinates(c)) == NormalizeCoordinates(c)
  {
  }

  /** Normalised coordinates always pass `isValidCoordinates`. */
  lemma NormalizedIsValid(c: Coordinates)
    ensures IsValidCoordinates(CoordinatesToJson(NormalizeCoordinates(c)))
  {
    CoordinatesValidity(NormalizeCoordinates(c));
  }

  /** `isInBulgaria`: the inclusive box 41.2..44.2 N, 22.3..28.6 E. */
  function IsInBulgaria(c: Coordinates): (r: bool)
    ensures r ==> InRange(c)
  {
    41.2 <= c.latitude <= 44.2 && 22.3 <= c.longitude <= 28.6
  }

  lemma InBulgariaIsValid(c: Coordinates)
    requires IsInBulgaria(c)
    ensures IsValidCoordinates(CoordinatesToJson(c))
  {
    CoordinatesValidity(c);
  }

  // ---------- Nearest point ----------

  datatype Nearest = Nearest(point: Coordinates, distance: real, index: nat)

  /**
   * `findNearestPoint`: a linear scan keeping the first point at the least
   * distance. `distance` stands for `calculateDistance`.
   */
  method FindNearestPoint(user: Coordinates, points: seq<Coordinates>,
                          distance: (Coordinates, Coordinates) -> real)
    returns (r: Option<Nearest>)
    ensures r.None? <==> points == []
    ensures r.Some? ==>
              && r.value.index < |points|
              && r.value.point == points[r.value.index]
              && r.value.distance == distance(user, points[r.value.index])
    ensures r.Some? ==> forall j :: 0 <= j < |points| ==> r.value.distance <= distance(user, points[j])
    ensures r.Some? ==> forall j :: 0 <= j < r.value.index ==> r.value.distance < distance(user, points[j])
  {
    if |points| == 0 {
      return None;
    }
    var nearestPoint := points[0];
    var nearestDistance := distance(user, points[0]);
    var nearestIndex := 0;
    for i := 1 to |points|
      invariant nearestIndex < i
      invariant nearestPoint == points[nearestIndex]
      invariant nearestDistance == distance(user, points[nearestIndex])
      invariant forall j :: 0 <= j < i ==> nearestDistance <= distance(user, points[j])
      invariant forall j :: 0 <= j < nearestIndex ==> nearestDistance < distance(user, points[j])
    {
      var d := distance(user, points[i]);
      if d < nearestDistance {
        nearestDistance := d;
        nearestPoint := points[i];
        nearestIndex := i;
      }
    }
    return Some(Nearest(nearestPoint, nearestDistance, nearestIndex));
  }

  // ---------- Travel time ----------

  datatype TravelMode = Walking | Cycling | Driving

  /** Average speed in km/h. */
  function Speed(mode: TravelMode): real
  {
    match mode
    case Walking => 5.0
    case Cycling => 15.0
    case Driving => 40.0
  }

  /** `Math.round`: the nearest integer, halves rounded up. */
  function Round(x: real): (r: int)
    ensures r as real - 0.5 <= x < r as real + 0.5
  {
    (x + 0.5).Floor
  }

  lemma RoundMonotone(x: real, y: real)
    requires x <= y
    ensures Round(x) <= Round(y)
  {
  }

  /**
   * `calculateTravelTime`: minutes at the mode's speed, rounded to the
   * nearest minute; the mode defaults to walking.
   */
  function CalculateTravelTime(distanceKm: real, mode: TravelMode := Walking): (r: int)
    ensures r as real - 0.5 <= distanceKm / Speed(mode) * 60.0 < r as real + 0.5
  {
    Round(distanceKm / Speed(mode) * 60.0)
  }

  /** Faster modes never take longer over the same non-negative distance. */
  lemma {:induction false} TravelTimeByMode(distanceKm: real)
    requires distanceKm >= 0.0
    ensures CalculateTravelTime(distanceKm, Driving) <= CalculateTravelTime(distanceKm, Cycling)
    ensures CalculateTravelTime(distanceKm, Cycling) <= CalculateTravelTime(distanceKm)
  {
    RoundMonotone(distanceKm / 40.0 * 60.0, distanceKm / 15.0 * 60.0);
    RoundMonotone(distanceKm / 15.0 * 60.0, distanceKm / 5.0 * 60.0);
  }

  /** `formatTravelTime`: "m мин" under an hour, otherwise "hч mмин". */
  function FormatTravelTime(minutes: int): string
  {
    if minutes < 60 then IntToString(minutes) + " мин"
    else IntToString(minutes / 60) + "ч " + IntToString(minutes % 60) + "мин"
  }

  /** From an hour on, the text shows whole hours and the remaining minutes. */
  lemma FormatTravelTimeParts(minutes: int) returns (hours: nat, rest: nat)
    requires minutes >= 60
    ensures FormatTravelTime(minutes) == NatToString(hours) + "ч " + NatToString(rest) + "мин"
    ensures hours >= 1 && rest < 60 && hours * 60 + rest == minutes
  {
    hours, rest := minutes / 60, minutes % 60;
  }

  // ---------- Bounding box ----------

  datatype BoundingBox = BoundingBox(southwest: Coordinates, northeast: Coordinates)

  /**
   * `createBoundingBox`: 111 km per degree of latitude; `cosLatitude` stands
   * for `Math.cos` of the centre's latitude, which scales the longitude extent.
   */
  function CreateBoundingBox(center: Coordinates, radiusKm: real, cosLatitude: real): (r: BoundingBox)
    requires cosLatitude != 0.0
    ensures (r.southwest.latitude + r.northeast.latitude) / 2.0 == center.latitude
    ensures (r.southwest.longitude + r.northeast.longitude) / 2.0 == center.longitude
    ensures r.northeast.latitude - r.southwest.latitude == 2.0 * radiusKm / 111.0
    ensures radiusKm >= 0.0 ==> r.southwest.latitude <= r.northeast.latitude
    ensures radiusKm >= 0.0 && cosLatitude > 0.0 ==> r.southwest.longitude <= r.northeast.longitude
  {
    var latDelta := radiusKm / 111.0;
    var lonDelta := radiusKm / (111.0 * cosLatitude);
    BoundingBox(
      Coordinates(center.latitude - latDelta, center.longitude - lonDelta),
      Coordinates(center.latitude + latDelta, center.longitude + lonDelta))
  }
}
