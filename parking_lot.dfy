/**
 * The parking lot object: three lists that its methods search with loops
 * and change in place. Every lookup is proved to return what the matching
 * function of ParkingLotSpec describes, and every change to leave the
 * state that function computes and to keep the lot consistent.
 */
module ParkingLots {
  import opened Wrappers
  import opened JavaText
  import opened Vehicles
  import opened ParkingSpots
  import opened Tickets
  import opened ParkingLotSpec
  import opened ParkingLotInvariants

  class ParkingLot {
    var vehicles: seq<Vehicle>
    var spots: seq<Spot>
    var tickets: seq<Ticket>

    /** The three lists as a value. */
    function State(): Store
      reads this
    {
      Store(vehicles, spots, tickets)
    }

    /** The lot over the lists that the data manager loaded. */
    constructor (vehicles: seq<Vehicle>, spots: seq<Spot>, tickets: seq<Ticket>)
      ensures State() == Store(vehicles, spots, tickets)
    {
      this.vehicles := vehicles;
      this.spots := spots;
      this.tickets := tickets;
    }

    // -------------------------------------------------------------------
    // Vehicles
    // -------------------------------------------------------------------

    method GetVehicleByLicensePlate(plate: Option<string>) returns (r: Option<nat>)
      ensures r == VehicleByPlate(vehicles, plate)
    {
      if plate.None? {
        return None;
      }
      var target := Trim(plate.value);
      for i := 0 to |vehicles|
        invariant forall j :: 0 <= j < i ==> !EqualsIgnoreCase(vehicles[j].licensePlate, target)
      {
        if EqualsIgnoreCase(vehicles[i].licensePlate, target) {
          VehicleByPlateIs(vehicles, plate, Some(i));
          return Some(i);
        }
      }
      VehicleByPlateIs(vehicles, plate, None);
      return None;
    }

    method GetVehicleByOwnerName(name: Option<string>) returns (r: seq<Vehicle>)
      ensures r == VehiclesByOwnerName(vehicles, name)
    {
      var result := [];
      if name.None? {
        return result;
      }
      var trimmed := Trim(name.value);
      if trimmed == [] {
        return result;
      }
      var target := NormalizeOwnerName(Some(trimmed));
      TrimIdempotent(name.value);
      for i := 0 to |vehicles|
        invariant result == VehiclesByOwnerName(vehicles[..i], name)
      {
        assert vehicles[..i + 1][..i] == vehicles[..i];
        if EqualsIgnoreCase(vehicles[i].ownerName, target) {
          result := result + [vehicles[i]];
        }
      }
      assert vehicles[..|vehicles|] == vehicles;
      return result;
    }

    method AddVehicle(plate: Option<string>, t: Option<VehicleType>, owner: Option<string>, phone: Option<string>) returns (ok: bool)
      modifies this
      ensures (ok, State()) == ParkingLotSpec.AddVehicle(old(State()), plate, t, owner, phone)
      ensures Consistent(old(State())) ==> Consistent(State())
    {
      if plate.None? || t.None? || owner.None? || phone.None? {
        return false;
      }
      var lp := Trim(plate.value);
      if lp == [] {
        return false;
      }
      if Trim(owner.value) == [] {
        return false;
      }
      var existing := GetVehicleByLicensePlate(Some(lp));
      if existing.Some? {
        return false;
      }
      ghost var before := State();
      var nv := NewVehicle(lp, t.value, owner.value, phone.value);
      assert ParkingLotSpec.AddVehicle(before, plate, t, owner, phone) == (true, before.(vehicles := before.vehicles + [nv]));
      vehicles := vehicles + [nv];
      assert State() == before.(vehicles := before.vehicles + [nv]);
      if Consistent(before) {
        AddVehiclePreserves(before, plate, t, owner, phone);
      }
      return true;
    }

    /** The checks of removeVehicle, made with the lot's own lookups. */
    method VehicleToRemoveFor(plate: Option<string>) returns (r: Option<nat>)
      ensures r == VehicleToRemove(State(), plate)
    {
      if plate.None? {
        return None;
      }
      var v := GetVehicleByLicensePlate(plate);
      if v.None? {
        return None;
      }
      var spot := GetSpotByLicensePlate(plate);
      if spot.Some? {
        return None;
      }
      var t := GetTicketByLicensePlate(plate);
      if t.Some? && IsOpen(tickets[t.value]) {
        return None;
      }
      return v;
    }

    method RemoveVehicle(plate: Option<string>) returns (ok: bool)
      modifies this
      ensures (ok, State()) == ParkingLotSpec.RemoveVehicle(old(State()), plate)
      ensures Consistent(old(State())) ==> Consistent(State())
    {
      var v := VehicleToRemoveFor(plate);
      if v.None? {
        return false;
      }
      ghost var before := State();
      var kept := vehicles[..v.value] + vehicles[v.value + 1..];
      assert ParkingLotSpec.RemoveVehicle(before, plate) == (true, before.(vehicles := kept));
      vehicles := kept;
      assert State() == before.(vehicles := kept);
      if Consistent(before) {
        RemoveVehiclePreserves(before, plate);
      }
      return true;
    }

    // -------------------------------------------------------------------
    // Spots
    // -------------------------------------------------------------------

    method GetSpotBySpotId(id: int32) returns (r: Option<nat>)
      ensures r == SpotById(spots, id)
    {
      for i := 0 to |spots|
        invariant forall j :: 0 <= j < i ==> spots[j].spotId != id
      {
        if spots[i].spotId == id {
          return Some(i);
        }
      }
      return None;
    }

    method GetSpotByAllowedVehicle(t: Option<VehicleType>) returns (r: seq<Spot>)
      ensures r == SpotsByAllowedType(spots, t)
    {
      var result := [];
      if t.None? {
        return result;
      }
      for i := 0 to |spots|
        invariant result == SpotsByAllowedType(spots[..i], t)
      {
        assert spots[..i + 1][..i] == spots[..i];
        if spots[i].allowedType == t.value {
          result := result + [spots[i]];
        }
      }
      assert spots[..|spots|] == spots;
      return result;
    }

    method GetSpotsByOccupancy(occupied: bool) returns (r: seq<Spot>)
      ensures r == SpotsByOccupancy(spots, occupied)
    {
      var result := [];
      for i := 0 to |spots|
        invariant result == SpotsByOccupancy(spots[..i], occupied)
      {
        assert spots[..i + 1][..i] == spots[..i];
        if spots[i].occupied == occupied {
          result := result + [spots[i]];
        }
      }
      assert spots[..|spots|] == spots;
      return result;
    }

    method GetOccupiedSpots() returns (r: seq<Spot>)
      ensures r == SpotsByOccupancy(spots, true)
    {
      r := GetSpotsByOccupancy(true);
    }

    method GetEmptySpots() returns (r: seq<Spot>)
      ensures r == SpotsByOccupancy(spots, false)
    {
      r := GetSpotsByOccupancy(false);
    }

    method FindFirstAvailableSpot(t: Option<VehicleType>) returns (r: Option<nat>)
      ensures r == FirstAvailableSpot(spots, t)
    {
      if t.None? {
        return None;
      }
      for i := 0 to |spots|
        invariant forall j :: 0 <= j < i ==> spots[j].occupied || spots[j].allowedType != t.value
      {
        if !spots[i].occupied && spots[i].allowedType == t.value {
          return Some(i);
        }
      }
      return None;
    }

    method GetSpotByLicensePlate(plate: Option<string>) returns (r: Option<Spot>)
      ensures r == SpotByPlate(spots, plate)
    {
      if plate.None? {
        return None;
      }
      var target := Trim(plate.value);
      var occupied := GetOccupiedSpots();
      for i := 0 to |occupied|
        invariant forall j :: 0 <= j < i ==>
          !(occupied[j].licensePlate.Some? && EqualsIgnoreCase(occupied[j].licensePlate.value, target))
      {
        var p := occupied[i].licensePlate;
        if p.Some? && EqualsIgnoreCase(p.value, target) {
          SpotByPlateIs(spots, plate, Some(i));
          return Some(occupied[i]);
        }
      }
      SpotByPlateIs(spots, plate, None);
      return None;
    }

    /** The scan addSpot makes for the largest spot id, 0 for an empty list. */
    method LargestSpotId() returns (maxId: int32)
      ensures maxId == MaxSpotId(spots)
    {
      maxId := 0;
      for i := 0 to |spots|
        invariant maxId == MaxSpotId(spots[..i])
      {
        assert spots[..i + 1][..i] == spots[..i];
        if spots[i].spotId > maxId {
          maxId := spots[i].spotId;
        }
      }
      assert spots[..|spots|] == spots;
    }

    method AddSpot(t: Option<VehicleType>) returns (ok: bool)
      modifies this
      ensures (ok, State()) == ParkingLotSpec.AddSpot(old(State()), t)
      ensures Consistent(old(State())) && MaxSpotId(old(spots)) < MaxInt ==> Consistent(State())
    {
      if t.None? {
        return false;
      }
      var maxId := LargestSpotId();
      var newId := Wrap32(maxId as int + 1);
      ghost var before := State();
      var added := spots + [Spot(newId, t.value, None, false)];
      assert ParkingLotSpec.AddSpot(before, t) == (true, before.(spots := added));
      spots := added;
      assert State() == before.(spots := added);
      if Consistent(before) && MaxSpotId(before.spots) < MaxInt {
        AddSpotPreserves(before, t);
      }
      return true;
    }

    // -------------------------------------------------------------------
    // Tickets
    // -------------------------------------------------------------------

    method GetActiveTickets() returns (r: seq<Ticket>)
      ensures r == OpenTickets(tickets)
    {
      var result := [];
      for i := 0 to |tickets|
        invariant result == OpenTickets(tickets[..i])
      {
        assert tickets[..i + 1][..i] == tickets[..i];
        if tickets[i].exitTime.None? {
          result := result + [tickets[i]];
        }
      }
      assert tickets[..|tickets|] == tickets;
      return result;
    }

    method GetUsedTickets() returns (r: seq<Ticket>)
      ensures r == ClosedTickets(tickets)
    {
      var result := [];
      for i := 0 to |tickets|
        invariant result == ClosedTickets(tickets[..i])
      {
        assert tickets[..i + 1][..i] == tickets[..i];
        if tickets[i].exitTime.Some? {
          result := result + [tickets[i]];
        }
      }
      assert tickets[..|tickets|] == tickets;
      return result;
    }

    method GetTicketByTicketId(id: int32) returns (r: Option<nat>)
      ensures r == TicketById(tickets, id)
    {
      for i := 0 to |tickets|
        invariant forall j :: 0 <= j < i ==> tickets[j].ticketId != id
      {
        if tickets[i].ticketId == id {
          return Some(i);
        }
      }
      return None;
    }

    method GetTicketByLicensePlate(plate: Option<string>) returns (r: Option<nat>)
      ensures r == TicketByPlate(tickets, plate)
    {
      if plate.None? {
        return None;
      }
      var target := Trim(plate.value);
      var used: Option<nat> := None;
      for i := 0 to |tickets|
        invariant forall j :: 0 <= j < i ==> !(IsOpen(tickets[j]) && EqualsIgnoreCase(tickets[j].licensePlate, target))
        invariant used.None? ==> forall j :: 0 <= j < i ==> !EqualsIgnoreCase(tickets[j].licensePlate, target)
        invariant used.Some? ==> used.value < i && EqualsIgnoreCase(tickets[used.value].licensePlate, target)
        invariant used.Some? ==> forall j :: 0 <= j < used.value ==> !EqualsIgnoreCase(tickets[j].licensePlate, target)
      {
        if EqualsIgnoreCase(tickets[i].licensePlate, target) {
          if tickets[i].exitTime.None? {
            TicketByPlateIs(tickets, plate, Some(i));
            return Some(i);
          } else if used.None? {
            used := Some(i);
          }
        }
      }
      TicketByPlateIs(tickets, plate, used);
      return used;
    }

    /** The checks of parkVehicleAuto, made with the lot's own lookups. */
    method SpotToParkFor(p: string) returns (k: Option<nat>)
      ensures k == SpotToPark(State(), p)
    {
      var v := GetVehicleByLicensePlate(Some(p));
      if v.None? {
        return None;
      }
      var parked := GetSpotByLicensePlate(Some(p));
      if parked.Some? {
        return None;
      }
      var t := GetTicketByLicensePlate(Some(p));
      if t.Some? && IsOpen(tickets[t.value]) {
        return None;
      }
      k := FindFirstAvailableSpot(Some(vehicles[v.value].vehicleType));
    }

    method ParkVehicleAuto(plate: Option<string>, now: LocalDateTime) returns (ok: bool)
      modifies this
      ensures (ok, State()) == Park(old(State()), plate, now)
      ensures Consistent(old(State())) ==> Consistent(State())
    {
      if plate.None? || IsBlank(plate.value) {
        return false;
      }
      var p := Trim(plate.value);
      var k := SpotToParkFor(p);
      if k.None? {
        return false;
      }
      ghost var before := State();
      ParkAt(before, plate, now, k.value);
      var spot := SetLicensePlate(SetOccupied(spots[k.value], true), Some(p));
      var ticket := Ticket(Wrap32(|tickets| + 1), spot.spotId, p, Some(now), None);
      spots, tickets := spots[k.value := spot], tickets + [ticket];
      assert State() == Park(before, plate, now).1;
      if Consistent(before) {
        ParkPreserves(before, plate, now);
      }
      return true;
    }

    /** The checks of retrieveVehicle, made with the lot's own lookups. */
    method TicketToCloseFor(plate: Option<string>) returns (r: Option<(nat, nat)>)
      ensures r == TicketToClose(State(), plate)
    {
      if plate.None? || IsBlank(plate.value) {
        return None;
      }
      var p := Trim(plate.value);
      TrimIdempotent(plate.value);
      var i := GetTicketByLicensePlate(Some(p));
      if i.None? || tickets[i.value].exitTime.Some? {
        return None;
      }
      var k := GetSpotBySpotId(tickets[i.value].spotId);
      if k.None? {
        return None;
      }
      return Some((i.value, k.value));
    }

    method RetrieveVehicle(plate: Option<string>, now: LocalDateTime) returns (ok: bool)
      modifies this
      ensures (ok, State()) == Retrieve(old(State()), plate, now)
      ensures Consistent(old(State())) ==> Consistent(State())
    {
      var found := TicketToCloseFor(plate);
      if found.None? {
        return false;
      }
      var (i, k) := found.value;
      ghost var before := State();
      tickets := tickets[i := SetExitTime(tickets[i], Some(now))];
      spots := spots[k := SetLicensePlate(SetOccupied(spots[k], false), None)];
      assert State() == Released(before, i, k, now);
      if Consistent(before) {
        RetrievePreserves(before, plate, now);
      }
      return true;
    }

    // -------------------------------------------------------------------
    // Resets
    // -------------------------------------------------------------------

    method ResetVehicles()
      modifies this
      ensures vehicles == [] && spots == old(spots) && tickets == old(tickets)
    {
      vehicles := [];
    }

    method ResetTickets()
      modifies this
      ensures tickets == [] && vehicles == old(vehicles) && spots == old(spots)
    {
      tickets := [];
    }

    method ResetSpots()
      modifies this
      ensures spots == [] && vehicles == old(vehicles) && tickets == old(tickets)
    {
      spots := [];
    }
  }
}
