/**
 * The parking lot as a value: its three lists, the lookups it answers and
 * the changes it makes. Every lookup that the lot uses to change a record
 * yields the record's index in its list, which is how the lot's objects
 * are shared between the list and the caller. Java's null is `None`; the
 * wall clock is the parameter `now`.
 */
module ParkingLotSpec {
  import opened Wrappers
  import opened JavaText
  import opened Vehicles
  import opened ParkingSpots
  import opened Tickets
  import Seqs

  datatype Store = Store(vehicles: seq<Vehicle>, spots: seq<Spot>, tickets: seq<Ticket>)

  // ---------------------------------------------------------------------
  // Facts about a plate (`p` already trimmed; plates compared ignoring case)
  // ---------------------------------------------------------------------

  predicate Registered(vs: seq<Vehicle>, p: string) {
    exists i :: 0 <= i < |vs| && EqualsIgnoreCase(vs[i].licensePlate, p)
  }

  predicate SpotHolds(s: Spot, p: string) {
    s.occupied && s.licensePlate.Some? && EqualsIgnoreCase(s.licensePlate.value, p)
  }

  predicate Parked(ss: seq<Spot>, p: string) {
    exists i :: 0 <= i < |ss| && SpotHolds(ss[i], p)
  }

  predicate HasOpenTicket(ts: seq<Ticket>, p: string) {
    exists i :: 0 <= i < |ts| && IsOpen(ts[i]) && EqualsIgnoreCase(ts[i].licensePlate, p)
  }

  // ---------------------------------------------------------------------
  // Vehicle lookups
  // ---------------------------------------------------------------------

  /** getVehicleByLicensePlate: the first vehicle whose plate equals the trimmed argument ignoring case. */
  function VehicleByPlate(vs: seq<Vehicle>, plate: Option<string>): (r: Option<nat>)
    ensures r.Some? ==> plate.Some? && r.value < |vs| && EqualsIgnoreCase(vs[r.value].licensePlate, Trim(plate.value))
    ensures r.Some? ==> forall i :: 0 <= i < r.value ==> !EqualsIgnoreCase(vs[i].licensePlate, Trim(plate.value))
    ensures r.None? <==> plate.None? || !Registered(vs, Trim(plate.value))
  {
    match plate
    case None => None
    case Some(p) =>
      var target := Trim(p);
      Seqs.FirstMatch(vs, (v: Vehicle) => EqualsIgnoreCase(v.licensePlate, target))
  }

  /** The first vehicle whose plate matches, found by a scan, is the one VehicleByPlate names. */
  lemma VehicleByPlateIs(vs: seq<Vehicle>, plate: Option<string>, r: Option<nat>)
    requires plate.Some?
    requires r.Some? ==> r.value < |vs| && EqualsIgnoreCase(vs[r.value].licensePlate, Trim(plate.value))
    requires forall j :: 0 <= j < (if r.Some? then r.value else |vs|) ==> !EqualsIgnoreCase(vs[j].licensePlate, Trim(plate.value))
    ensures VehicleByPlate(vs, plate) == r
  {
    var found := VehicleByPlate(vs, plate);
    if r.Some? {
      assert Registered(vs, Trim(plate.value));
      assert found.Some?;
    } else {
      assert !Registered(vs, Trim(plate.value));
    }
  }

  /**
   * getVehicleByOwnerName: a null or blank query finds nothing; otherwise
   * the query is normalised like a stored name and every vehicle whose
   * owner name equals it ignoring case is returned, in list order.
   */
  function VehiclesByOwnerName(vs: seq<Vehicle>, name: Option<string>): (r: seq<Vehicle>)
    ensures name.None? || IsBlank(name.value) ==> r == []
    ensures forall i :: 0 <= i < |r| ==> r[i] in vs && EqualsIgnoreCase(r[i].ownerName, NormalizedName(name))
    ensures name.Some? && !IsBlank(name.value) ==>
      forall i :: 0 <= i < |vs| && EqualsIgnoreCase(vs[i].ownerName, NormalizedName(name)) ==> vs[i] in r
    ensures |r| <= |vs|
  {
    match name
    case None => []
    case Some(x) =>
      var trimmed := Trim(x);
      if trimmed == [] then []
      else
        var target := NormalizedName(Some(trimmed));
        TrimIdempotent(x);
        assert target == NormalizedName(name);
        Seqs.Filter(vs, (v: Vehicle) => EqualsIgnoreCase(v.ownerName, target))
  }

  /**
   * The owner search ignores case and spacing: a query whose words, joined
   * by single spaces, equal a stored owner name ignoring case finds that
   * owner's vehicle.
   */
  lemma OwnerSearchIgnoresCaseAndSpacing(vs: seq<Vehicle>, i: nat, query: string)
    requires i < |vs| && IsStoredForm(vs[i]) && !IsBlank(query)
    requires EqualsIgnoreCase(JoinWith(Words(query), ' '), vs[i].ownerName)
    ensures vs[i] in VehiclesByOwnerName(vs, Some(query))
  {
    NormalizedNameMatches(query);
    assert EqualsIgnoreCase(vs[i].ownerName, NormalizedName(Some(query)));
  }

  // ---------------------------------------------------------------------
  // Spot lookups
  // ---------------------------------------------------------------------

  /** getSpotBySpotID: the first spot with that id. */
  function SpotById(ss: seq<Spot>, id: int32): (r: Option<nat>)
    ensures r.Some? ==> r.value < |ss| && ss[r.value].spotId == id
    ensures r.Some? ==> forall i :: 0 <= i < r.value ==> ss[i].spotId != id
    ensures r.None? <==> forall i :: 0 <= i < |ss| ==> ss[i].spotId != id
  {
    Seqs.FirstMatch(ss, (s: Spot) => s.spotId == id)
  }

  /** getSpotByAllowedVehicle: the spots for that type, in list order; none for null. */
  function SpotsByAllowedType(ss: seq<Spot>, t: Option<VehicleType>): (r: seq<Spot>)
    ensures t.None? ==> r == []
    ensures forall i :: 0 <= i < |r| ==> r[i] in ss && Some(r[i].allowedType) == t
    ensures forall i :: 0 <= i < |ss| && Some(ss[i].allowedType) == t ==> ss[i] in r
  {
    match t
    case None => []
    case Some(ty) => Seqs.Filter(ss, (s: Spot) => s.allowedType == ty)
  }

  /** getSpotsByOccupancy: the spots whose flag equals the argument, in list order. */
  function SpotsByOccupancy(ss: seq<Spot>, occupied: bool): (r: seq<Spot>)
    ensures forall i :: 0 <= i < |r| ==> r[i] in ss && r[i].occupied == occupied
    ensures forall i :: 0 <= i < |ss| && ss[i].occupied == occupied ==> ss[i] in r
  {
    Seqs.Filter(ss, (s: Spot) => s.occupied == occupied)
  }

  /** getOccupiedSpots and getEmptySpots split the spots: every spot is in exactly one of them. */
  lemma OccupiedAndEmptyPartition(ss: seq<Spot>)
    ensures multiset(SpotsByOccupancy(ss, true)) + multiset(SpotsByOccupancy(ss, false)) == multiset(ss)
    ensures |SpotsByOccupancy(ss, true)| + |SpotsByOccupancy(ss, false)| == |ss|
  {
    Seqs.FilterPartition(ss, (s: Spot) => s.occupied == true, (s: Spot) => s.occupied == false);
  }

  /** findFirstAvailableSpot: the first free spot for that type; none for null. */
  function FirstAvailableSpot(ss: seq<Spot>, t: Option<VehicleType>): (r: Option<nat>)
    ensures r.Some? ==> t.Some? && r.value < |ss| && !ss[r.value].occupied && ss[r.value].allowedType == t.value
    ensures r.Some? ==> forall i :: 0 <= i < r.value ==> ss[i].occupied || ss[i].allowedType != t.value
    ensures r.None? <==> t.None? || forall i :: 0 <= i < |ss| ==> ss[i].occupied || ss[i].allowedType != t.value
  {
    match t
    case None => None
    case Some(ty) => Seqs.FirstMatch(ss, (s: Spot) => !s.occupied && s.allowedType == ty)
  }

  /** The index of the first spot in `occupied` holding a plate equal to `p` ignoring case. */
  function OccupiedIndexByPlate(occupied: seq<Spot>, p: string): (r: Option<nat>)
    ensures r.Some? ==> r.value < |occupied| && occupied[r.value].licensePlate.Some?
                        && EqualsIgnoreCase(occupied[r.value].licensePlate.value, p)
    ensures r.Some? ==> forall i :: 0 <= i < r.value ==>
      !(occupied[i].licensePlate.Some? && EqualsIgnoreCase(occupied[i].licensePlate.value, p))
    ensures r.None? <==> forall i :: 0 <= i < |occupied| ==>
      !(occupied[i].licensePlate.Some? && EqualsIgnoreCase(occupied[i].licensePlate.value, p))
  {
    Seqs.FirstMatch(occupied, (s: Spot) => s.licensePlate.Some? && EqualsIgnoreCase(s.licensePlate.value, p))
  }

  /**
   * getSpotByLicensePlate: the first occupied spot, in list order, whose
   * plate equals the trimmed argument ignoring case.
   */
  function SpotByPlate(ss: seq<Spot>, plate: Option<string>): (r: Option<Spot>)
    ensures r.Some? ==> plate.Some? && r.value in ss && SpotHolds(r.value, Trim(plate.value))
    ensures r.None? <==> plate.None? || !Parked(ss, Trim(plate.value))
  {
    match plate
    case None => None
    case Some(x) =>
      var target := Trim(x);
      var occupied := SpotsByOccupancy(ss, true);
      match OccupiedIndexByPlate(occupied, target)
      case None => None
      case Some(k) => Some(occupied[k])
  }

  /** The first occupied spot whose plate matches, found by a scan, is the one SpotByPlate yields. */
  lemma SpotByPlateIs(ss: seq<Spot>, plate: Option<string>, r: Option<nat>)
    requires plate.Some?
    requires var occupied := SpotsByOccupancy(ss, true);
      && (r.Some? ==> r.value < |occupied| && occupied[r.value].licensePlate.Some?
                      && EqualsIgnoreCase(occupied[r.value].licensePlate.value, Trim(plate.value)))
      && forall j :: 0 <= j < (if r.Some? then r.value else |occupied|) ==>
           !(occupied[j].licensePlate.Some? && EqualsIgnoreCase(occupied[j].licensePlate.value, Trim(plate.value)))
    ensures SpotByPlate(ss, plate) == if r.Some? then Some(SpotsByOccupancy(ss, true)[r.value]) else None
  {
    var occupied := SpotsByOccupancy(ss, true);
    var found := OccupiedIndexByPlate(occupied, Trim(plate.value));
    if r.Some? {
      assert found.Some?;
      if found.value < r.value {
        assert false;
      } else if found.value > r.value {
        assert false;
      }
    } else {
      assert found.None?;
    }
  }

  /** The largest spot id, or 0 when every id is smaller (the loop in addSpot). */
  function MaxSpotId(ss: seq<Spot>): (m: int32)
    ensures m >= 0
    ensures forall i :: 0 <= i < |ss| ==> ss[i].spotId <= m
    ensures m == 0 || exists i :: 0 <= i < |ss| && ss[i].spotId == m
  {
    if ss == [] then 0
    else
      var m := MaxSpotId(ss[..|ss| - 1]);
      var last := ss[|ss| - 1].spotId;
      if last > m then last else m
  }

  /** The id addSpot gives a new spot: one more than MaxSpotId, in 32-bit arithmetic. */
  function NewSpotId(ss: seq<Spot>): (id: int32)
    ensures MaxSpotId(ss) < MaxInt ==> id > 0 && forall i :: 0 <= i < |ss| ==> ss[i].spotId < id
    ensures MaxSpotId(ss) == MaxInt ==> id == MinInt
  {
    Wrap32(MaxSpotId(ss) + 1)
  }

  // ---------------------------------------------------------------------
  // Ticket lookups
  // ---------------------------------------------------------------------

  /** getActiveTicket: the tickets without an exit time, in list order. */
  function OpenTickets(ts: seq<Ticket>): (r: seq<Ticket>)
    ensures forall i :: 0 <= i < |r| ==> r[i] in ts && IsOpen(r[i])
    ensures forall i :: 0 <= i < |ts| && IsOpen(ts[i]) ==> ts[i] in r
  {
    Seqs.Filter(ts, (t: Ticket) => IsOpen(t))
  }

  /** getUsedTicket: the tickets with an exit time, in list order. */
  function ClosedTickets(ts: seq<Ticket>): (r: seq<Ticket>)
    ensures forall i :: 0 <= i < |r| ==> r[i] in ts && !IsOpen(r[i])
    ensures forall i :: 0 <= i < |ts| && !IsOpen(ts[i]) ==> ts[i] in r
  {
    Seqs.Filter(ts, (t: Ticket) => !IsOpen(t))
  }

  /** Every ticket is either active or used, and none is both. */
  lemma OpenAndClosedPartition(ts: seq<Ticket>)
    ensures multiset(OpenTickets(ts)) + multiset(ClosedTickets(ts)) == multiset(ts)
    ensures |OpenTickets(ts)| + |ClosedTickets(ts)| == |ts|
  {
    Seqs.FilterPartition(ts, (t: Ticket) => IsOpen(t), (t: Ticket) => !IsOpen(t));
  }

  /** getTicketByTicketID: the first ticket with that id. */
  function TicketById(ts: seq<Ticket>, id: int32): (r: Option<nat>)
    ensures r.Some? ==> r.value < |ts| && ts[r.value].ticketId == id
    ensures r.Some? ==> forall i :: 0 <= i < r.value ==> ts[i].ticketId != id
    ensures r.None? <==> forall i :: 0 <= i < |ts| ==> ts[i].ticketId != id
  {
    Seqs.FirstMatch(ts, (t: Ticket) => t.ticketId == id)
  }

  /**
   * getTicketByLicensePlate: among the tickets whose plate equals the
   * trimmed argument ignoring case, the first open one if there is one,
   * otherwise the first one.
   */
  function TicketByPlate(ts: seq<Ticket>, plate: Option<string>): (r: Option<nat>)
    ensures r.Some? ==> plate.Some? && r.value < |ts| && EqualsIgnoreCase(ts[r.value].licensePlate, Trim(plate.value))
    ensures r.None? <==> plate.None? || forall i :: 0 <= i < |ts| ==> !EqualsIgnoreCase(ts[i].licensePlate, Trim(plate.value))
    ensures plate.Some? ==> (HasOpenTicket(ts, Trim(plate.value)) <==> r.Some? && IsOpen(ts[r.value]))
    ensures r.Some? && IsOpen(ts[r.value]) ==>
      forall i :: 0 <= i < r.value && IsOpen(ts[i]) ==> !EqualsIgnoreCase(ts[i].licensePlate, Trim(plate.value))
    ensures r.Some? && !IsOpen(ts[r.value]) ==>
      forall i :: 0 <= i < r.value ==> !EqualsIgnoreCase(ts[i].licensePlate, Trim(plate.value))
  {
    match plate
    case None => None
    case Some(x) =>
      var target := Trim(x);
      match Seqs.FirstMatch(ts, (t: Ticket) => IsOpen(t) && EqualsIgnoreCase(t.licensePlate, target))
      case Some(k) => Some(k)
      case None => Seqs.FirstMatch(ts, (t: Ticket) => EqualsIgnoreCase(t.licensePlate, target))
  }

  /** The ticket a scan settles on, the first open match or else the first match, is the one TicketByPlate names. */
  lemma TicketByPlateIs(ts: seq<Ticket>, plate: Option<string>, r: Option<nat>)
    requires plate.Some?
    requires r.Some? ==> r.value < |ts| && EqualsIgnoreCase(ts[r.value].licensePlate, Trim(plate.value))
    requires r.Some? && IsOpen(ts[r.value]) ==>
      forall j :: 0 <= j < r.value ==> !(IsOpen(ts[j]) && EqualsIgnoreCase(ts[j].licensePlate, Trim(plate.value)))
    requires r.None? || !IsOpen(ts[r.value]) ==>
      && (forall j :: 0 <= j < |ts| ==> !(IsOpen(ts[j]) && EqualsIgnoreCase(ts[j].licensePlate, Trim(plate.value))))
      && forall j :: 0 <= j < (if r.Some? then r.value else |ts|) ==> !EqualsIgnoreCase(ts[j].licensePlate, Trim(plate.value))
    ensures TicketByPlate(ts, plate) == r
  {
    var p := Trim(plate.value);
    var found := TicketByPlate(ts, plate);
    if r.Some? && IsOpen(ts[r.value]) {
      assert HasOpenTicket(ts, p);
      assert found.Some? && IsOpen(ts[found.value]);
    } else if r.Some? {
      assert !HasOpenTicket(ts, p);
      assert found.Some?;
    } else {
      assert found.None?;
    }
  }

  // ---------------------------------------------------------------------
  // Changes
  // ---------------------------------------------------------------------

  /**
   * addVehicle: refused for a null argument, a blank plate or owner name,
   * or a plate already registered ignoring case; otherwise the vehicle is
   * appended with its plate trimmed and name and phone normalised.
   */
  function AddVehicle(st: Store, plate: Option<string>, t: Option<VehicleType>, owner: Option<string>, phone: Option<string>): (r: (bool, Store))
    ensures r.0 <==> (plate.Some? && t.Some? && owner.Some? && phone.Some?
                      && !IsBlank(plate.value) && !IsBlank(owner.value) && !Registered(st.vehicles, Trim(plate.value)))
    ensures !r.0 ==> r.1 == st
    ensures r.0 ==> r.1 == st.(vehicles := st.vehicles + [NewVehicle(Trim(plate.value), t.value, owner.value, phone.value)])
  {
    if plate.None? || t.None? || owner.None? || phone.None? then (false, st)
    else
      var lp := Trim(plate.value);
      if lp == [] then (false, st)
      else if Trim(owner.value) == [] then (false, st)
      else
        TrimIdempotent(plate.value);
        if VehicleByPlate(st.vehicles, Some(lp)).Some? then (false, st)
        else (true, st.(vehicles := st.vehicles + [NewVehicle(lp, t.value, owner.value, phone.value)]))
  }

  /**
   * The checks of removeVehicle: the index of the vehicle to remove, or
   * None for null, for a plate not registered, or for a vehicle that
   * occupies a spot or holds an open ticket.
   */
  function VehicleToRemove(st: Store, plate: Option<string>): (r: Option<nat>)
    ensures r.Some? ==> r.value < |st.vehicles| && r == VehicleByPlate(st.vehicles, plate)
    ensures r.Some? <==> (plate.Some? && Registered(st.vehicles, Trim(plate.value))
                          && !Parked(st.spots, Trim(plate.value)) && !HasOpenTicket(st.tickets, Trim(plate.value)))
  {
    if plate.None? then None
    else
      match VehicleByPlate(st.vehicles, plate)
      case None => None
      case Some(k) =>
        if SpotByPlate(st.spots, plate).Some? then None
        else
          var t := TicketByPlate(st.tickets, plate);
          if t.Some? && IsOpen(st.tickets[t.value]) then None
          else Some(k)
  }

  /** removeVehicle: when its checks pass, the vehicle found is removed from the list. */
  function RemoveVehicle(st: Store, plate: Option<string>): (r: (bool, Store))
    ensures r.0 <==> (plate.Some? && Registered(st.vehicles, Trim(plate.value))
                      && !Parked(st.spots, Trim(plate.value)) && !HasOpenTicket(st.tickets, Trim(plate.value)))
    ensures !r.0 ==> r.1 == st
    ensures r.0 ==>
      var k := VehicleByPlate(st.vehicles, plate);
      && k.Some? && EqualsIgnoreCase(st.vehicles[k.value].licensePlate, Trim(plate.value))
      && r.1 == st.(vehicles := st.vehicles[..k.value] + st.vehicles[k.value + 1..])
  {
    match VehicleToRemove(st, plate)
    case None => (false, st)
    case Some(k) => (true, st.(vehicles := st.vehicles[..k] + st.vehicles[k + 1..]))
  }

  /** addSpot: refused for null; otherwise a free spot with the next id is appended. */
  function AddSpot(st: Store, t: Option<VehicleType>): (r: (bool, Store))
    ensures r.0 <==> t.Some?
    ensures !r.0 ==> r.1 == st
    ensures r.0 ==> r.1 == st.(spots := st.spots + [Spot(NewSpotId(st.spots), t.value, None, false)])
  {
    match t
    case None => (false, st)
    case Some(ty) => (true, st.(spots := st.spots + [Spot(NewSpotId(st.spots), ty, None, false)]))
  }

  /** The type of the first vehicle registered under plate `p`, or None when there is none. */
  function RegisteredType(vs: seq<Vehicle>, p: string): (t: Option<VehicleType>)
    ensures t.Some? <==> Registered(vs, Trim(p))
    ensures t.Some? ==> exists i :: 0 <= i < |vs| && EqualsIgnoreCase(vs[i].licensePlate, Trim(p)) && vs[i].vehicleType == t.value
                                 && forall j :: 0 <= j < i ==> !EqualsIgnoreCase(vs[j].licensePlate, Trim(p))
  {
    match VehicleByPlate(vs, Some(p))
    case None => None
    case Some(v) => Some(vs[v].vehicleType)
  }

  /** The spot a successful park takes: the first free spot for the registered vehicle's type. */
  predicate CanPark(st: Store, p: string) {
    match VehicleByPlate(st.vehicles, Some(p))
    case None => false
    case Some(v) =>
      && !Parked(st.spots, p)
      && !HasOpenTicket(st.tickets, p)
      && FirstAvailableSpot(st.spots, Some(st.vehicles[v].vehicleType)).Some?
  }

  /** The store after a free spot `k` is taken by plate `p` under the new open ticket `nt`. */
  function Taken(st: Store, k: nat, p: string, nt: Ticket): Store
    requires k < |st.spots|
  {
    Store(st.vehicles, st.spots[k := Spot(st.spots[k].spotId, st.spots[k].allowedType, Some(p), true)], st.tickets + [nt])
  }

  /** The store after open ticket `i` is closed at `now` and spot `k` is freed. */
  function Released(st: Store, i: nat, k: nat, now: LocalDateTime): Store
    requires i < |st.tickets| && k < |st.spots|
  {
    Store(st.vehicles,
          st.spots[k := Spot(st.spots[k].spotId, st.spots[k].allowedType, None, false)],
          st.tickets[i := st.tickets[i].(exitTime := Some(now))])
  }

  /**
   * The checks of parkVehicleAuto for the plate `p`: the index of the spot
   * it takes, or None when the vehicle is unregistered, already parked,
   * holds an open ticket, or finds no free spot for its type.
   */
  function SpotToPark(st: Store, p: string): (r: Option<nat>)
    ensures r.Some? ==> r.value < |st.spots| && !st.spots[r.value].occupied
    ensures p == Trim(p) ==> (r.Some? <==> CanPark(st, p))
    ensures r.Some? ==> r == FirstAvailableSpot(st.spots, RegisteredType(st.vehicles, p))
  {
    match VehicleByPlate(st.vehicles, Some(p))
    case None => None
    case Some(v) =>
      if SpotByPlate(st.spots, Some(p)).Some? then None
      else
        var t := TicketByPlate(st.tickets, Some(p));
        if t.Some? && IsOpen(st.tickets[t.value]) then None
        else FirstAvailableSpot(st.spots, Some(st.vehicles[v].vehicleType))
  }

  /**
   * parkVehicleAuto: refused for a null or blank plate or when the checks
   * of SpotToPark refuse it; otherwise the spot found is marked occupied
   * by the trimmed plate and an open ticket numbered one more than the
   * ticket count is appended.
   */
  function Park(st: Store, plate: Option<string>, now: LocalDateTime): (r: (bool, Store))
    ensures r.0 <==> plate.Some? && !IsBlank(plate.value) && CanPark(st, Trim(plate.value))
    ensures !r.0 ==> r.1 == st
    ensures r.0 ==>
      var p := Trim(plate.value);
      var k := FirstAvailableSpot(st.spots, RegisteredType(st.vehicles, p));
      && k.Some?
      && r.1.vehicles == st.vehicles
      && r.1.spots == st.spots[k.value := Spot(st.spots[k.value].spotId, st.spots[k.value].allowedType, Some(p), true)]
      && r.1.tickets == st.tickets + [Ticket(Wrap32(|st.tickets| + 1), st.spots[k.value].spotId, p, Some(now), None)]
  {
    if plate.None? || IsBlank(plate.value) then (false, st)
    else
      var p := Trim(plate.value);
      TrimIdempotent(plate.value);
      match SpotToPark(st, p)
      case None => (false, st)
      case Some(k) =>
        var ticket := Ticket(Wrap32(|st.tickets| + 1), st.spots[k].spotId, p, Some(now), None);
        (true, Taken(st, k, p, ticket))
  }

  /** A park whose checks choose spot `k` takes it under a new open ticket for the trimmed plate. */
  lemma ParkAt(st: Store, plate: Option<string>, now: LocalDateTime, k: nat)
    requires plate.Some? && !IsBlank(plate.value) && SpotToPark(st, Trim(plate.value)) == Some(k)
    ensures Park(st, plate, now)
         == (true, Taken(st, k, Trim(plate.value), Ticket(Wrap32(|st.tickets| + 1), st.spots[k].spotId, Trim(plate.value), Some(now), None)))
  {
    TrimIdempotent(plate.value);
  }

  /**
   * The checks of retrieveVehicle: the ticket to close and the spot to
   * free, or None for a null or blank plate, when the ticket found for it
   * is not open, or when no spot has the ticket's spot id.
   */
  function TicketToClose(st: Store, plate: Option<string>): (r: Option<(nat, nat)>)
    ensures r.Some? ==> r.value.0 < |st.tickets| && r.value.1 < |st.spots|
    ensures r.Some? ==>
      && plate.Some?
      && Some(r.value.0) == TicketByPlate(st.tickets, Some(Trim(plate.value)))
      && Some(r.value.1) == SpotById(st.spots, st.tickets[r.value.0].spotId)
    ensures r.Some? <==>
      && plate.Some? && !IsBlank(plate.value)
      && var i := TicketByPlate(st.tickets, Some(Trim(plate.value)));
         i.Some? && IsOpen(st.tickets[i.value]) && SpotById(st.spots, st.tickets[i.value].spotId).Some?
    ensures r.Some? ==>
      && plate.Some? && !IsBlank(plate.value)
      && IsOpen(st.tickets[r.value.0]) && EqualsIgnoreCase(st.tickets[r.value.0].licensePlate, Trim(plate.value))
      && st.spots[r.value.1].spotId == st.tickets[r.value.0].spotId
  {
    if plate.None? || IsBlank(plate.value) then None
    else
      var p := Trim(plate.value);
      TrimIdempotent(plate.value);
      match TicketByPlate(st.tickets, Some(p))
      case None => None
      case Some(i) =>
        if !IsOpen(st.tickets[i]) then None
        else
          match SpotById(st.spots, st.tickets[i].spotId)
          case None => None
          case Some(k) => Some((i, k))
  }

  /** retrieveVehicle: when its checks pass, the ticket found gets the exit time and the spot found is freed. */
  function Retrieve(st: Store, plate: Option<string>, now: LocalDateTime): (r: (bool, Store))
    ensures r.0 ==> plate.Some? && !IsBlank(plate.value) && HasOpenTicket(st.tickets, Trim(plate.value))
    ensures !r.0 ==> r.1 == st
    ensures r.0 <==>
      && plate.Some? && !IsBlank(plate.value)
      && var i := TicketByPlate(st.tickets, Some(Trim(plate.value)));
         i.Some? && IsOpen(st.tickets[i.value]) && SpotById(st.spots, st.tickets[i.value].spotId).Some?
    ensures r.0 ==>
      var i := TicketByPlate(st.tickets, Some(Trim(plate.value))).value;
      var k := SpotById(st.spots, st.tickets[i].spotId).value;
      && r.1.vehicles == st.vehicles
      && IsOpen(st.tickets[i]) && EqualsIgnoreCase(st.tickets[i].licensePlate, Trim(plate.value))
      && st.spots[k].spotId == st.tickets[i].spotId
      && r.1.tickets == st.tickets[i := st.tickets[i].(exitTime := Some(now))]
      && r.1.spots == st.spots[k := Spot(st.spots[k].spotId, st.spots[k].allowedType, None, false)]
  {
    match TicketToClose(st, plate)
    case None => (false, st)
    case Some((i, k)) => (true, Released(st, i, k, now))
  }
}
