/**
 * What keeps the three lists in step: each parked vehicle occupies one
 * spot and holds one open ticket naming that spot, and every open ticket
 * belongs to a registered vehicle. The changes of the lot keep this, and
 * park and retrieve undo each other.
 */
module ParkingLotInvariants {
  import opened Wrappers
  import opened JavaText
  import opened Vehicles
  import opened ParkingSpots
  import opened Tickets
  import opened ParkingLotSpec

  /** No two vehicles have plates that are equal ignoring case. */
  predicate UniquePlates(vs: seq<Vehicle>) {
    forall i, j :: 0 <= i < j < |vs| ==> !EqualsIgnoreCase(vs[i].licensePlate, vs[j].licensePlate)
  }

  /** A spot is occupied exactly when it holds a plate. */
  predicate FlagsAgree(ss: seq<Spot>) {
    forall i :: 0 <= i < |ss| ==> (ss[i].occupied <==> ss[i].licensePlate.Some?)
  }

  predicate UniqueSpotIds(ss: seq<Spot>) {
    forall i, j :: 0 <= i < j < |ss| ==> ss[i].spotId != ss[j].spotId
  }

  /** No two open tickets share a plate (ignoring case) or a spot. */
  predicate OpenTicketsDistinct(ts: seq<Ticket>) {
    forall i, j :: 0 <= i < j < |ts| && IsOpen(ts[i]) && IsOpen(ts[j]) ==>
      !EqualsIgnoreCase(ts[i].licensePlate, ts[j].licensePlate) && ts[i].spotId != ts[j].spotId
  }

  /** Spot `k` is occupied under ticket `j`: same id and the ticket's plate. */
  predicate Holds(s: Spot, t: Ticket) {
    s.occupied && s.spotId == t.spotId && s.licensePlate == Some(t.licensePlate)
  }

  /** Every occupied spot is held under an open ticket. */
  predicate OccupiedSpotsTicketed(ss: seq<Spot>, ts: seq<Ticket>) {
    forall k :: 0 <= k < |ss| && ss[k].occupied ==> exists j :: 0 <= j < |ts| && IsOpen(ts[j]) && Holds(ss[k], ts[j])
  }

  /** Every open ticket names a spot held under it. */
  predicate OpenTicketsPlaced(ss: seq<Spot>, ts: seq<Ticket>) {
    forall j :: 0 <= j < |ts| && IsOpen(ts[j]) ==> exists k :: 0 <= k < |ss| && Holds(ss[k], ts[j])
  }

  /** Every open ticket belongs to a registered vehicle. */
  predicate OpenTicketsRegistered(vs: seq<Vehicle>, ts: seq<Ticket>) {
    forall j :: 0 <= j < |ts| && IsOpen(ts[j]) ==> Registered(vs, ts[j].licensePlate)
  }

  predicate Consistent(st: Store) {
    && UniquePlates(st.vehicles)
    && FlagsAgree(st.spots)
    && UniqueSpotIds(st.spots)
    && OpenTicketsDistinct(st.tickets)
    && OccupiedSpotsTicketed(st.spots, st.tickets)
    && OpenTicketsPlaced(st.spots, st.tickets)
    && OpenTicketsRegistered(st.vehicles, st.tickets)
  }

  /** The lot after all three lists are reset is consistent. */
  lemma EmptyConsistent()
    ensures Consistent(Store([], [], []))
  {
  }

  // ---------------------------------------------------------------------
  // Preservation, first for each kind of edit, then for each change
  // ---------------------------------------------------------------------

  /** Appending a vehicle whose plate is new keeps the lot consistent. */
  lemma AppendVehicleKeeps(st: Store, v: Vehicle)
    requires Consistent(st)
    requires !Registered(st.vehicles, v.licensePlate)
    ensures Consistent(st.(vehicles := st.vehicles + [v]))
  {
    var vs, ws := st.vehicles, st.vehicles + [v];
    forall j | 0 <= j < |st.tickets| && IsOpen(st.tickets[j]) ensures Registered(ws, st.tickets[j].licensePlate) {
      var i :| 0 <= i < |vs| && EqualsIgnoreCase(vs[i].licensePlate, st.tickets[j].licensePlate);
      assert ws[i] == vs[i];
    }
    forall i, j | 0 <= i < j < |ws| ensures !EqualsIgnoreCase(ws[i].licensePlate, ws[j].licensePlate) {
      assert ws[i] == vs[i];
      if j < |vs| {
        assert ws[j] == vs[j];
      }
    }
  }

  /** Deleting a vehicle that holds no open ticket keeps the lot consistent. */
  lemma DeleteVehicleKeeps(st: Store, k: nat)
    requires Consistent(st)
    requires k < |st.vehicles| && !HasOpenTicket(st.tickets, st.vehicles[k].licensePlate)
    ensures Consistent(st.(vehicles := st.vehicles[..k] + st.vehicles[k + 1..]))
  {
    var vs := st.vehicles;
    var ws := vs[..k] + vs[k + 1..];
    assert forall i :: 0 <= i < k ==> ws[i] == vs[i];
    assert forall i :: k <= i < |ws| ==> ws[i] == vs[i + 1];
    forall i, j | 0 <= i < j < |ws| ensures !EqualsIgnoreCase(ws[i].licensePlate, ws[j].licensePlate) {
      var i' := if i < k then i else i + 1;
      var j' := if j < k then j else j + 1;
      assert ws[i] == vs[i'] && ws[j] == vs[j'] && i' < j';
    }
    forall j | 0 <= j < |st.tickets| && IsOpen(st.tickets[j]) ensures Registered(ws, st.tickets[j].licensePlate) {
      var m :| 0 <= m < |vs| && EqualsIgnoreCase(vs[m].licensePlate, st.tickets[j].licensePlate);
      if m < k {
        assert ws[m] == vs[m];
      } else if m > k {
        assert ws[m - 1] == vs[m];
      } else {
        assert false;
      }
    }
  }

  /** Appending a free spot with a fresh id keeps the lot consistent. */
  lemma AppendSpotKeeps(st: Store, s: Spot)
    requires Consistent(st)
    requires !s.occupied && s.licensePlate.None?
    requires forall k :: 0 <= k < |st.spots| ==> st.spots[k].spotId != s.spotId
    ensures Consistent(st.(spots := st.spots + [s]))
  {
    var ss := st.spots + [s];
    forall j | 0 <= j < |st.tickets| && IsOpen(st.tickets[j]) ensures exists k :: 0 <= k < |ss| && Holds(ss[k], st.tickets[j]) {
      var k :| 0 <= k < |st.spots| && Holds(st.spots[k], st.tickets[j]);
      assert ss[k] == st.spots[k];
    }
  }

  /** The premises of taking a spot: it is free, the plate is registered and has no open ticket. */
  predicate CanTake(st: Store, k: nat, p: string, nt: Ticket) {
    && k < |st.spots| && !st.spots[k].occupied
    && Registered(st.vehicles, p) && !HasOpenTicket(st.tickets, p)
    && IsOpen(nt) && nt.spotId == st.spots[k].spotId && nt.licensePlate == p
  }

  lemma TakeKeepsSpots(st: Store, k: nat, p: string, nt: Ticket)
    requires Consistent(st) && CanTake(st, k, p, nt)
    ensures FlagsAgree(Taken(st, k, p, nt).spots) && UniqueSpotIds(Taken(st, k, p, nt).spots)
  {
    var ss := Taken(st, k, p, nt).spots;
    assert forall m :: 0 <= m < |ss| ==> ss[m].spotId == st.spots[m].spotId;
  }

  lemma TakeKeepsTickets(st: Store, k: nat, p: string, nt: Ticket)
    requires Consistent(st) && CanTake(st, k, p, nt)
    ensures OpenTicketsDistinct(Taken(st, k, p, nt).tickets)
    ensures OpenTicketsRegistered(st.vehicles, Taken(st, k, p, nt).tickets)
  {
    var ts := Taken(st, k, p, nt).tickets;
    var n := |st.tickets|;
    forall i, j | 0 <= i < j < |ts| && IsOpen(ts[i]) && IsOpen(ts[j])
      ensures !EqualsIgnoreCase(ts[i].licensePlate, ts[j].licensePlate) && ts[i].spotId != ts[j].spotId
    {
      assert ts[i] == st.tickets[i];
      if j == n {
        var m :| 0 <= m < |st.spots| && Holds(st.spots[m], st.tickets[i]);
        assert m != k;
      } else {
        assert ts[j] == st.tickets[j];
      }
    }
    forall j | 0 <= j < |ts| && IsOpen(ts[j]) ensures Registered(st.vehicles, ts[j].licensePlate) {
      if j < n {
        assert ts[j] == st.tickets[j];
      }
    }
  }

  lemma TakeKeepsPlacement(st: Store, k: nat, p: string, nt: Ticket)
    requires Consistent(st) && CanTake(st, k, p, nt)
    ensures OccupiedSpotsTicketed(Taken(st, k, p, nt).spots, Taken(st, k, p, nt).tickets)
    ensures OpenTicketsPlaced(Taken(st, k, p, nt).spots, Taken(st, k, p, nt).tickets)
  {
    var after := Taken(st, k, p, nt);
    var ss, ts := after.spots, after.tickets;
    var n := |st.tickets|;
    forall m | 0 <= m < |ss| && ss[m].occupied ensures exists j :: 0 <= j < |ts| && IsOpen(ts[j]) && Holds(ss[m], ts[j]) {
      if m == k {
        assert Holds(ss[m], ts[n]);
      } else {
        var j :| 0 <= j < n && IsOpen(st.tickets[j]) && Holds(st.spots[m], st.tickets[j]);
        assert ts[j] == st.tickets[j];
      }
    }
    forall j | 0 <= j < |ts| && IsOpen(ts[j]) ensures exists m :: 0 <= m < |ss| && Holds(ss[m], ts[j]) {
      if j == n {
        assert Holds(ss[k], ts[j]);
      } else {
        assert ts[j] == st.tickets[j];
        var m :| 0 <= m < |st.spots| && Holds(st.spots[m], st.tickets[j]);
        assert m != k && ss[m] == st.spots[m];
      }
    }
  }

  /** Taking a free spot for a registered plate without an open ticket keeps the lot consistent. */
  lemma TakeKeeps(st: Store, k: nat, p: string, nt: Ticket)
    requires Consistent(st) && CanTake(st, k, p, nt)
    ensures Consistent(Taken(st, k, p, nt))
  {
    TakeKeepsSpots(st, k, p, nt);
    TakeKeepsTickets(st, k, p, nt);
    TakeKeepsPlacement(st, k, p, nt);
  }

  /** The premises of releasing: ticket `i` is open and spot `k` has its spot id. */
  predicate CanRelease(st: Store, i: nat, k: nat) {
    i < |st.tickets| && k < |st.spots| && IsOpen(st.tickets[i]) && st.spots[k].spotId == st.tickets[i].spotId
  }

  lemma ReleaseKeepsSpotsAndTickets(st: Store, i: nat, k: nat, now: LocalDateTime)
    requires Consistent(st) && CanRelease(st, i, k)
    ensures var after := Released(st, i, k, now);
      && FlagsAgree(after.spots) && UniqueSpotIds(after.spots)
      && OpenTicketsDistinct(after.tickets) && OpenTicketsRegistered(after.vehicles, after.tickets)
  {
    var after := Released(st, i, k, now);
    var ss, ts := after.spots, after.tickets;
    assert forall j :: 0 <= j < |ts| && IsOpen(ts[j]) ==> j != i && ts[j] == st.tickets[j];
    assert forall m :: 0 <= m < |ss| ==> ss[m].spotId == st.spots[m].spotId;
  }

  lemma SpotIdsDiffer(ss: seq<Spot>, a: nat, b: nat)
    requires UniqueSpotIds(ss) && a < |ss| && b < |ss| && a != b
    ensures ss[a].spotId != ss[b].spotId
  {
    if b < a {
      assert ss[b].spotId != ss[a].spotId;
    }
  }

  lemma ReleaseKeepsTicketed(st: Store, i: nat, k: nat, now: LocalDateTime)
    requires Consistent(st) && CanRelease(st, i, k)
    ensures OccupiedSpotsTicketed(Released(st, i, k, now).spots, Released(st, i, k, now).tickets)
  {
    var after := Released(st, i, k, now);
    var ss, ts := after.spots, after.tickets;
    forall m | 0 <= m < |ss| && ss[m].occupied ensures exists j :: 0 <= j < |ts| && IsOpen(ts[j]) && Holds(ss[m], ts[j]) {
      assert m != k;
      assert ss[m] == st.spots[m];
      var j :| 0 <= j < |st.tickets| && IsOpen(st.tickets[j]) && Holds(st.spots[m], st.tickets[j]);
      SpotIdsDiffer(st.spots, m, k);
      assert j != i;
      assert ts[j] == st.tickets[j];
    }
  }

  lemma ReleaseKeepsPlaced(st: Store, i: nat, k: nat, now: LocalDateTime)
    requires Consistent(st) && CanRelease(st, i, k)
    ensures OpenTicketsPlaced(Released(st, i, k, now).spots, Released(st, i, k, now).tickets)
  {
    var after := Released(st, i, k, now);
    var ss, ts := after.spots, after.tickets;
    forall j | 0 <= j < |ts| && IsOpen(ts[j]) ensures exists m :: 0 <= m < |ss| && Holds(ss[m], ts[j]) {
      assert j != i && ts[j] == st.tickets[j];
      var m :| 0 <= m < |st.spots| && Holds(st.spots[m], st.tickets[j]);
      if m == k {
        assert false;
      }
      assert ss[m] == st.spots[m];
    }
  }

  /** Closing an open ticket and freeing the spot with its id keeps the lot consistent. */
  lemma ReleaseKeeps(st: Store, i: nat, k: nat, now: LocalDateTime)
    requires Consistent(st) && CanRelease(st, i, k)
    ensures Consistent(Released(st, i, k, now))
  {
    ReleaseKeepsSpotsAndTickets(st, i, k, now);
    ReleaseKeepsTicketed(st, i, k, now);
    ReleaseKeepsPlaced(st, i, k, now);
  }

  lemma AddVehiclePreserves(st: Store, plate: Option<string>, t: Option<VehicleType>, owner: Option<string>, phone: Option<string>)
    requires Consistent(st)
    ensures Consistent(AddVehicle(st, plate, t, owner, phone).1)
  {
    if AddVehicle(st, plate, t, owner, phone).0 {
      AppendVehicleKeeps(st, NewVehicle(Trim(plate.value), t.value, owner.value, phone.value));
    }
  }

  lemma RemoveVehiclePreserves(st: Store, plate: Option<string>)
    requires Consistent(st)
    ensures Consistent(RemoveVehicle(st, plate).1)
  {
    var r := RemoveVehicle(st, plate);
    if r.0 {
      var p := Trim(plate.value);
      var k :| 0 <= k < |st.vehicles| && EqualsIgnoreCase(st.vehicles[k].licensePlate, p)
               && r.1.vehicles == st.vehicles[..k] + st.vehicles[k + 1..];
      SameOpenTickets(st.tickets, st.vehicles[k].licensePlate, p);
      DeleteVehicleKeeps(st, k);
    }
  }

  /** Plates equal ignoring case have the same open tickets. */
  lemma SameOpenTickets(ts: seq<Ticket>, a: string, b: string)
    requires EqualsIgnoreCase(a, b)
    ensures HasOpenTicket(ts, a) == HasOpenTicket(ts, b)
  {
  }

  /** A new spot keeps the lot consistent as long as the next id does not wrap around. */
  lemma AddSpotPreserves(st: Store, t: Option<VehicleType>)
    requires Consistent(st)
    requires MaxSpotId(st.spots) < MaxInt
    ensures Consistent(AddSpot(st, t).1)
  {
    if t.Some? {
      AppendSpotKeeps(st, Spot(NewSpotId(st.spots), t.value, None, false));
    }
  }

  /** A successful park takes the spot chosen by its checks, under a new open ticket for the trimmed plate. */
  lemma ParkTakes(st: Store, plate: Option<string>, now: LocalDateTime)
    requires Park(st, plate, now).0
    ensures var p := Trim(plate.value);
      var k := SpotToPark(st, p);
      && k.Some?
      && var nt := Ticket(Wrap32(|st.tickets| + 1), st.spots[k.value].spotId, p, Some(now), None);
      && CanTake(st, k.value, p, nt)
      && Park(st, plate, now).1 == Taken(st, k.value, p, nt)
  {
    var p := Trim(plate.value);
    TrimIdempotent(plate.value);
    var v := VehicleByPlate(st.vehicles, Some(p)).value;
    assert EqualsIgnoreCase(st.vehicles[v].licensePlate, p);
  }

  lemma ParkPreserves(st: Store, plate: Option<string>, now: LocalDateTime)
    requires Consistent(st)
    ensures Consistent(Park(st, plate, now).1)
  {
    if Park(st, plate, now).0 {
      ParkTakes(st, plate, now);
      var p := Trim(plate.value);
      var k := SpotToPark(st, p).value;
      TakeKeeps(st, k, p, Ticket(Wrap32(|st.tickets| + 1), st.spots[k].spotId, p, Some(now), None));
    }
  }

  lemma RetrievePreserves(st: Store, plate: Option<string>, now: LocalDateTime)
    requires Consistent(st)
    ensures Consistent(Retrieve(st, plate, now).1)
  {
    var r := Retrieve(st, plate, now);
    if r.0 {
      var p := Trim(plate.value);
      var i, k :| 0 <= i < |st.tickets| && 0 <= k < |st.spots|
           && IsOpen(st.tickets[i]) && EqualsIgnoreCase(st.tickets[i].licensePlate, p)
           && st.spots[k].spotId == st.tickets[i].spotId
           && r.1.tickets == st.tickets[i := st.tickets[i].(exitTime := Some(now))]
           && r.1.spots == st.spots[k := Spot(st.spots[k].spotId, st.spots[k].allowedType, None, false)];
      assert r.1 == Released(st, i, k, now);
      ReleaseKeeps(st, i, k, now);
    }
  }

  // ---------------------------------------------------------------------
  // Park and retrieve together
  // ---------------------------------------------------------------------

  /** In a consistent lot, a vehicle with an open ticket also occupies a spot. */
  lemma OpenTicketMeansParked(st: Store, p: string)
    requires Consistent(st) && HasOpenTicket(st.tickets, p)
    ensures Parked(st.spots, p)
  {
    var j :| 0 <= j < |st.tickets| && IsOpen(st.tickets[j]) && EqualsIgnoreCase(st.tickets[j].licensePlate, p);
    var k :| 0 <= k < |st.spots| && Holds(st.spots[k], st.tickets[j]);
    assert SpotHolds(st.spots[k], p);
  }

  /** Retrieval closes the ticket found for the plate and frees the first spot with its id. */
  lemma RetrieveAt(st: Store, plate: Option<string>, now: LocalDateTime, i: nat, k: nat)
    requires plate.Some? && !IsBlank(plate.value)
    requires TicketByPlate(st.tickets, Some(Trim(plate.value))) == Some(i) && IsOpen(st.tickets[i])
    requires SpotById(st.spots, st.tickets[i].spotId) == Some(k)
    ensures Retrieve(st, plate, now) == (true, Released(st, i, k, now))
  {
  }

  /** In a consistent lot, retrieval succeeds exactly for a plate with an open ticket. */
  lemma RetrieveIffOpenTicket(st: Store, plate: Option<string>, now: LocalDateTime)
    requires Consistent(st) && plate.Some? && !IsBlank(plate.value)
    ensures Retrieve(st, plate, now).0 <==> HasOpenTicket(st.tickets, Trim(plate.value))
  {
    var p := Trim(plate.value);
    TrimIdempotent(plate.value);
    if HasOpenTicket(st.tickets, p) {
      var i := TicketByPlate(st.tickets, Some(p)).value;
      assert IsOpen(st.tickets[i]);
      var k :| 0 <= k < |st.spots| && Holds(st.spots[k], st.tickets[i]);
      assert st.spots[k].spotId == st.tickets[i].spotId;
      var found := SpotById(st.spots, st.tickets[i].spotId);
      assert found.Some?;
      RetrieveAt(st, plate, now, i, found.value);
    }
  }

  /** After a spot is taken, the new ticket is the one found for the plate. */
  lemma TakenTicketFound(st: Store, k: nat, p: string, nt: Ticket)
    requires CanTake(st, k, p, nt) && Trim(p) == p
    ensures TicketByPlate(Taken(st, k, p, nt).tickets, Some(p)) == Some(|st.tickets|)
  {
    var ts := Taken(st, k, p, nt).tickets;
    var n := |st.tickets|;
    assert IsOpen(ts[n]) && EqualsIgnoreCase(ts[n].licensePlate, p);
    var r := TicketByPlate(ts, Some(p));
  }

  /** After a spot is taken in a consistent lot, it is the spot found by the new ticket's spot id. */
  lemma TakenSpotFound(st: Store, k: nat, p: string, nt: Ticket)
    requires Consistent(st) && CanTake(st, k, p, nt)
    ensures SpotById(Taken(st, k, p, nt).spots, nt.spotId) == Some(k)
  {
    var ss := Taken(st, k, p, nt).spots;
    assert ss[k].spotId == nt.spotId;
    var r := SpotById(ss, nt.spotId);
  }

  /** Taking a free spot and then releasing it under the new ticket leaves the spots as they were. */
  lemma ReleaseUndoesTake(st: Store, k: nat, p: string, nt: Ticket, now: LocalDateTime)
    requires Consistent(st) && CanTake(st, k, p, nt)
    ensures Released(Taken(st, k, p, nt), |st.tickets|, k, now)
         == Store(st.vehicles, st.spots, st.tickets + [nt.(exitTime := Some(now))])
  {
    assert st.spots[k].licensePlate.None?;
    var after := Released(Taken(st, k, p, nt), |st.tickets|, k, now);
    assert after.spots == st.spots;
    assert after.tickets == st.tickets + [nt.(exitTime := Some(now))];
  }

  /**
   * In a consistent lot, parking and then retrieving the same plate gives
   * back the spots and vehicles unchanged, and keeps the new ticket, now
   * closed at the retrieval time.
   */
  lemma RetrieveUndoesPark(st: Store, plate: Option<string>, t1: LocalDateTime, t2: LocalDateTime)
    requires Consistent(st)
    requires Park(st, plate, t1).0
    ensures var parked := Park(st, plate, t1).1;
      var r := Retrieve(parked, plate, t2);
      && r.0
      && r.1.vehicles == st.vehicles
      && r.1.spots == st.spots
      && r.1.tickets == st.tickets + [parked.tickets[|st.tickets|].(exitTime := Some(t2))]
  {
    ParkTakes(st, plate, t1);
    var p := Trim(plate.value);
    var k := SpotToPark(st, p).value;
    var nt := Ticket(Wrap32(|st.tickets| + 1), st.spots[k].spotId, p, Some(t1), None);
    TrimIdempotent(plate.value);
    TakenTicketFound(st, k, p, nt);
    TakenSpotFound(st, k, p, nt);
    RetrieveAt(Taken(st, k, p, nt), plate, t2, |st.tickets|, k);
    ReleaseUndoesTake(st, k, p, nt, t2);
  }

  /** Releasing the one open ticket of a plate leaves that plate without an open ticket. */
  lemma ReleasedHasNoOpenTicket(st: Store, i: nat, k: nat, now: LocalDateTime, p: string)
    requires Consistent(st) && CanRelease(st, i, k) && EqualsIgnoreCase(st.tickets[i].licensePlate, p)
    ensures !HasOpenTicket(Released(st, i, k, now).tickets, p)
  {
    var ts := Released(st, i, k, now).tickets;
    forall j | 0 <= j < |ts| && IsOpen(ts[j]) ensures !EqualsIgnoreCase(ts[j].licensePlate, p) {
      assert j != i && ts[j] == st.tickets[j];
      if j < i {
        assert !EqualsIgnoreCase(st.tickets[j].licensePlate, st.tickets[i].licensePlate);
      } else {
        assert !EqualsIgnoreCase(st.tickets[i].licensePlate, st.tickets[j].licensePlate);
      }
    }
  }

  /** In a consistent lot, a vehicle cannot be retrieved twice. */
  lemma RetrieveTwiceFails(st: Store, plate: Option<string>, t1: LocalDateTime, t2: LocalDateTime)
    requires Consistent(st)
    requires Retrieve(st, plate, t1).0
    ensures !Retrieve(Retrieve(st, plate, t1).1, plate, t2).0
  {
    var r := Retrieve(st, plate, t1);
    var p := Trim(plate.value);
    var i, k :| 0 <= i < |st.tickets| && 0 <= k < |st.spots|
         && IsOpen(st.tickets[i]) && EqualsIgnoreCase(st.tickets[i].licensePlate, p)
         && st.spots[k].spotId == st.tickets[i].spotId
         && r.1.tickets == st.tickets[i := st.tickets[i].(exitTime := Some(t1))]
         && r.1.spots == st.spots[k := Spot(st.spots[k].spotId, st.spots[k].allowedType, None, false)];
    ReleasedHasNoOpenTicket(st, i, k, t1, p);
    assert r.1.tickets == Released(st, i, k, t1).tickets;
  }

  /** In a consistent lot, a parked vehicle cannot be removed. */
  lemma RemoveParkedFails(st: Store, plate: Option<string>, now: LocalDateTime)
    requires Consistent(st)
    requires Park(st, plate, now).0
    ensures RemoveVehicle(Park(st, plate, now).1, plate) == (false, Park(st, plate, now).1)
  {
    ParkTakes(st, plate, now);
    var p := Trim(plate.value);
    var k := SpotToPark(st, p).value;
    var parked := Park(st, plate, now).1;
    assert SpotHolds(parked.spots[k], p);
  }

  /** A plate can be registered only once, whatever its case or surrounding spaces. */
  lemma AddVehicleTwiceFails(st: Store, plate: Option<string>, t: Option<VehicleType>, owner: Option<string>, phone: Option<string>,
                             plate2: Option<string>, t2: Option<VehicleType>, owner2: Option<string>, phone2: Option<string>)
    requires AddVehicle(st, plate, t, owner, phone).0
    requires plate2.Some? && EqualsIgnoreCase(Trim(plate2.value), Trim(plate.value))
    ensures !AddVehicle(AddVehicle(st, plate, t, owner, phone).1, plate2, t2, owner2, phone2).0
  {
    var added := AddVehicle(st, plate, t, owner, phone).1;
    var n := |st.vehicles|;
    assert added.vehicles[n].licensePlate == Trim(plate.value);
    assert Registered(added.vehicles, Trim(plate2.value));
  }
}
