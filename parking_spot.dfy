/**
 * A parking spot: an id and an allowed vehicle type fixed at construction,
 * and an occupying plate and an occupied flag that park and retrieve
 * change. The store keeps spots in a list and updates the one it found by
 * replacing it in place, so the setters here return the updated spot.
 */
module ParkingSpots {
  import opened Wrappers
  import opened JavaText
  import opened Vehicles

  /**
   * The constructor stores all four fields as given; it does not itself
   * tie `occupied` to the presence of a plate.
   */
  datatype Spot = Spot(spotId: int32, allowedType: VehicleType, licensePlate: Option<string>, occupied: bool)

  /** setLicensePlate: only the plate changes. */
  function SetLicensePlate(s: Spot, plate: Option<string>): (r: Spot)
    ensures r.licensePlate == plate
    ensures r.spotId == s.spotId && r.allowedType == s.allowedType && r.occupied == s.occupied
  {
    s.(licensePlate := plate)
  }

  /** setOccupied: only the flag changes. */
  function SetOccupied(s: Spot, occupied: bool): (r: Spot)
    ensures r.occupied == occupied
    ensures r.spotId == s.spotId && r.allowedType == s.allowedType && r.licensePlate == s.licensePlate
  {
    s.(occupied := occupied)
  }

  /** How a plate is written: an absent plate is the literal `null`. */
  function PlateText(plate: Option<string>): string {
    match plate
    case None => "null"
    case Some(p) => p
  }

  /** ParkingSpot.toString: id, type, plate or `null`, and the flag, joined by single commas. */
  function SpotToString(s: Spot): (line: string)
    ensures line == JoinWith([IntToString(s.spotId), s.allowedType, PlateText(s.licensePlate), BoolToString(s.occupied)], ',')
  {
    var a, b, c, d := IntToString(s.spotId), s.allowedType, PlateText(s.licensePlate), BoolToString(s.occupied);
    JoinCons(c, [d], ',');
    JoinCons(b, [c, d], ',');
    JoinCons(a, [b, c, d], ',');
    assert [a] + [b, c, d] == [a, b, c, d];
    a + "," + (b + "," + (c + "," + d))
  }
}
