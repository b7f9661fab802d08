/** What the reservation coordinator keeps, and does not keep, across the two
    documents it updates: reservations and the room states inside hotels. */
module Consistency {
  import opened RecordStore
  import opened Files
  import opened Reservations
  import Hotels

  /** The two commands of the reservation command line. */
  datatype Request = Create(id: string, rec: ReservationRecord) | CancelRequest(id: string)

  function Step(db: Db, req: Request): (r: Db)
  {
    match req
    case Create(id, rec) => SaveStep(db, id, rec)
    case CancelRequest(id) => CancelStep(db, id)
  }

  /** The documents after running the requests one after the other. */
  function Run(db: Db, reqs: seq<Request>): (r: Db)
    decreases |reqs|
  {
    if reqs == [] then db else Run(Step(db, reqs[0]), reqs[1..])
  }

  /** Same hotels, names, locations and room numbers; room states may differ. An
      unreadable document is only the same as itself. */
  predicate SameLayout(a: HotelsFile, b: HotelsFile)
  {
    match a
    case Parsed(ha) =>
      && b.Parsed? && ha.Keys == b.hotels.Keys
      && forall h :: h in ha ==>
           && ha[h].name == b.hotels[h].name && ha[h].location == b.hotels[h].location
           && ha[h].rooms.Keys == b.hotels[h].rooms.Keys
    case _ => a == b
  }

  /** However many reservations are created and cancelled, no hotel or room is
      created or deleted and no name or location changes. */
  lemma {:induction false} RunKeepsLayout(db: Db, reqs: seq<Request>)
    ensures SameLayout(Run(db, reqs).hotels, db.hotels)
    decreases |reqs|
  {
    if reqs != [] {
      var next := Step(db, reqs[0]);
      assert SameLayout(next.hotels, db.hotels);
      RunKeepsLayout(next, reqs[1..]);
    }
  }

  predicate Mentions(rec: ReservationRecord, hotelId: string, roomNumber: string)
  {
    rec.hotelId == hotelId && rec.roomNumber == roomNumber
  }

  /** No stored reservation refers to the room. */
  predicate Unreserved(db: Db, hotelId: string, roomNumber: string)
  {
    forall id :: id in Load(db.reservations) ==> !Mentions(Load(db.reservations)[id], hotelId, roomNumber)
  }

  /** One create or cancel that does not name the room keeps its state, and keeps
      it unreserved. */
  lemma StepKeepsUnreservedRoom(db: Db, req: Request, hotelId: string, roomNumber: string)
    requires db.hotels.Parsed? && RoomExists(db.hotels.hotels, hotelId, roomNumber)
    requires Unreserved(db, hotelId, roomNumber)
    requires req.Create? ==> !Mentions(req.rec, hotelId, roomNumber)
    ensures var next := Step(db, req);
      && next.hotels.Parsed? && RoomExists(next.hotels.hotels, hotelId, roomNumber)
      && next.hotels.hotels[hotelId].rooms[roomNumber] == db.hotels.hotels[hotelId].rooms[roomNumber]
      && Unreserved(next, hotelId, roomNumber)
  {
    var hotels := db.hotels.hotels;
    match req {
      case Create(id, rec) =>
        var after := SetRoom(hotels, rec.hotelId, rec.roomNumber, Booking(rec.customerId));
        assert Step(db, req).hotels == Parsed(after);
        assert after[hotelId].rooms[roomNumber] == hotels[hotelId].rooms[roomNumber];
        assert Load(Step(db, req).reservations) == Put(Load(db.reservations), id, rec);
      case CancelRequest(id) =>
        if Removes(db.reservations, id) {
          var rec := db.reservations.value[id];
          assert Load(db.reservations) == db.reservations.value;
          assert !Mentions(rec, hotelId, roomNumber);
          assert Load(Step(db, req).reservations) == db.reservations.value - {id};
          var after := SetRoom(hotels, rec.hotelId, rec.roomNumber, Vacant);
          assert Step(db, req).hotels == Parsed(after);
          assert after[hotelId].rooms[roomNumber] == hotels[hotelId].rooms[roomNumber];
        }
    }
  }

  /** A room that no stored reservation and no created reservation refers to keeps
      its state through every create and cancel. */
  lemma {:induction false} RunKeepsUnreservedRoom(db: Db, reqs: seq<Request>, hotelId: string, roomNumber: string)
    requires db.hotels.Parsed? && RoomExists(db.hotels.hotels, hotelId, roomNumber)
    requires Unreserved(db, hotelId, roomNumber)
    requires forall i :: 0 <= i < |reqs| && reqs[i].Create? ==> !Mentions(reqs[i].rec, hotelId, roomNumber)
    ensures var out := Run(db, reqs).hotels;
      out.Parsed? && RoomExists(out.hotels, hotelId, roomNumber)
      && out.hotels[hotelId].rooms[roomNumber] == db.hotels.hotels[hotelId].rooms[roomNumber]
    decreases |reqs|
  {
    if reqs != [] {
      StepKeepsUnreservedRoom(db, reqs[0], hotelId, roomNumber);
      forall i | 0 <= i < |reqs[1..]| && reqs[1..][i].Create?
        ensures !Mentions(reqs[1..][i].rec, hotelId, roomNumber)
      {
        assert reqs[1..][i] == reqs[i + 1];
      }
      RunKeepsUnreservedRoom(Step(db, reqs[0]), reqs[1..], hotelId, roomNumber);
    }
  }

  /** The intended invariant: every reservation whose hotel and room exist holds
      that room for its customer. */
  ghost predicate Consistent(rs: Store<ReservationRecord>, hotels: Store<HotelRecord>)
  {
    forall id :: id in rs && RoomExists(hotels, rs[id].hotelId, rs[id].roomNumber) ==>
      hotels[rs[id].hotelId].rooms[rs[id].roomNumber] == Booking(rs[id].customerId)
  }

  /** No two reservations refer to the same room. */
  ghost predicate Exclusive(rs: Store<ReservationRecord>)
  {
    forall a, b :: a in rs && b in rs && a != b ==>
      !Mentions(rs[a], rs[b].hotelId, rs[b].roomNumber)
  }

  /** Saving a reservation for a room no other reservation holds keeps the
      invariant and keeps reservations exclusive. */
  lemma SaveKeepsConsistent(db: Db, id: string, rec: ReservationRecord)
    requires db.hotels.Parsed?
    requires Consistent(Load(db.reservations), db.hotels.hotels)
    requires Exclusive(Load(db.reservations))
    requires forall other :: other in Load(db.reservations) && other != id ==>
      !Mentions(Load(db.reservations)[other], rec.hotelId, rec.roomNumber)
    ensures var out := SaveStep(db, id, rec);
      out.hotels.Parsed? && Consistent(out.reservations.value, out.hotels.hotels)
      && Exclusive(out.reservations.value)
  {
  }

  /** Cancelling a reservation, when reservations are exclusive, keeps the
      invariant, and the freed room is vacant. */
  lemma CancelKeepsConsistent(db: Db, id: string)
    requires db.hotels.Parsed? && Removes(db.reservations, id)
    requires Consistent(db.reservations.value, db.hotels.hotels)
    requires Exclusive(db.reservations.value)
    ensures var out := CancelStep(db, id);
      && out.hotels.Parsed? && Consistent(out.reservations.value, out.hotels.hotels)
      && Exclusive(out.reservations.value)
      && id !in out.reservations.value
    ensures var rec := db.reservations.value[id]; var out := CancelStep(db, id).hotels.hotels;
      RoomExists(db.hotels.hotels, rec.hotelId, rec.roomNumber) ==>
        out[rec.hotelId].rooms[rec.roomNumber] == Vacant
  {
  }

  /** Without exclusivity the invariant breaks: a second reservation of a taken
      room takes it over, and cancelling that one frees the room although the
      first reservation still holds it. */
  lemma DoubleBookingBreaksConsistency()
    ensures var db := Db(Parsed(map["H1" := HotelRecord("Hotel", "City", map["101" := Vacant])]), None);
      var r1 := ReservationRecord("C1", "H1", "101", "2024-01-01", "2024-01-10");
      var r2 := ReservationRecord("C2", "H1", "101", "2024-01-05", "2024-01-08");
      var once := SaveStep(db, "R1", r1);
      var twice := SaveStep(once, "R2", r2);
      var after := CancelStep(twice, "R2");
      && Consistent(once.reservations.value, once.hotels.hotels)
      && !Consistent(twice.reservations.value, twice.hotels.hotels)
      && "R1" in after.reservations.value
      && after.hotels.hotels["H1"].rooms["101"] == Vacant
  {
  }

  /** Saving a reservation under a fresh id for a vacant (or missing) room and then
      cancelling it answers true, gives back the hotels document unchanged, and
      leaves the reservations document holding the mapping it had (`{}` if the
      file was missing, since saving creates it). */
  lemma SaveThenCancelRestores(db: Db, id: string, rec: ReservationRecord)
    requires db.hotels.Parsed?
    requires id !in Load(db.reservations)
    requires RoomExists(db.hotels.hotels, rec.hotelId, rec.roomNumber) ==>
      db.hotels.hotels[rec.hotelId].rooms[rec.roomNumber] == Vacant
    ensures CancelStep(SaveStep(db, id, rec), id) == Db(db.hotels, Some(Load(db.reservations)))
    ensures CancelAnswer(SaveStep(db, id, rec), id) == Ok(true)
  {
    var saved := SaveStep(db, id, rec);
    assert saved.reservations.value[id] == rec;
    PutThenRemove(Load(db.reservations), id, rec);
    var hotels := db.hotels.hotels;
    var booked := SetRoom(hotels, rec.hotelId, rec.roomNumber, Booking(rec.customerId));
    var freed := SetRoom(booked, rec.hotelId, rec.roomNumber, Vacant);
    if RoomExists(hotels, rec.hotelId, rec.roomNumber) {
      var h := rec.hotelId;
      assert freed[h].rooms == hotels[h].rooms;
      assert freed[h] == hotels[h];
      assert freed == hotels;
    }
  }

  /** The round trip of the hotel, room and reservation scenario on the real
      operations: the room is taken by `C1` and then free again, and `R1` is gone. */
  method BookAndCancelScenario()
  {
    var d := new Disk(None, Missing, None);
    var hotel := new Hotels.Hotel("H100", "Test Hotel", "Test Location", map[]);
    hotel.Save(d);
    hotel.AddRoom(d, "101", true);
    var reservation := new Reservation("R1", "C1", "H100", "101", "2024-01-01", "2024-01-10");
    var saved := reservation.Save(d);
    assert saved == Ok(());
    assert d.hotels.hotels["H100"].rooms["101"] == Room(false, Some("C1"));
    var cancelled := Reservation.Cancel(d, "R1");
    assert cancelled == Ok(true);
    assert d.hotels.hotels["H100"].rooms["101"] == Room(true, None);
    var all := Reservation.GetAllReservations(d);
    assert "R1" !in all;
  }
}
