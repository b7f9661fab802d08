/** Reservations: records in `reservations.json`, keyed by reservation id. Saving
    or cancelling one also updates the booked room in `hotels.json`. */
module Reservations {
  import opened RecordStore
  import opened Files

  /** The state `save` gives the reserved room. */
  function Booking(customerId: string): (r: Room)
  {
    Room(false, Some(customerId))
  }

  /** The state `cancel` gives the room back. */
  const Vacant: Room := Room(true, None)

  predicate RoomExists(hotels: Store<HotelRecord>, hotelId: string, roomNumber: string)
  {
    hotelId in hotels && roomNumber in hotels[hotelId].rooms
  }

  /** The hotels mapping after room `roomNumber` of hotel `hotelId` is given state
      `state`, when both exist: no hotel or room appears or disappears, no name or
      location changes, and no other room changes. */
  function SetRoom(hotels: Store<HotelRecord>, hotelId: string, roomNumber: string, state: Room): (r: Store<HotelRecord>)
    ensures r.Keys == hotels.Keys
    ensures forall h :: h in hotels ==>
      r[h].name == hotels[h].name && r[h].location == hotels[h].location && r[h].rooms.Keys == hotels[h].rooms.Keys
    ensures forall h, n :: h in hotels && n in hotels[h].rooms && (h != hotelId || n != roomNumber) ==>
      r[h].rooms[n] == hotels[h].rooms[n]
    ensures RoomExists(hotels, hotelId, roomNumber) ==> r[hotelId].rooms[roomNumber] == state
    ensures !RoomExists(hotels, hotelId, roomNumber) ==> r == hotels
  {
    if RoomExists(hotels, hotelId, roomNumber) then
      var hotel := hotels[hotelId];
      hotels[hotelId := hotel.(rooms := hotel.rooms[roomNumber := state])]
    else
      hotels
  }

  /** Whether the coordinator writes `hotels.json`: it is readable and holds the room. */
  predicate WritesRoom(f: HotelsFile, hotelId: string, roomNumber: string)
  {
    f.Parsed? && RoomExists(f.hotels, hotelId, roomNumber)
  }

  /** `hotels.json` after the coordinator sets a room's state; a missing or corrupt
      document is not written. */
  function UpdateRoom(f: HotelsFile, hotelId: string, roomNumber: string, state: Room): (r: HotelsFile)
  {
    if f.Parsed? then Parsed(SetRoom(f.hotels, hotelId, roomNumber, state)) else f
  }

  /** The two documents a reservation operation reads and writes. */
  datatype Db = Db(hotels: HotelsFile, reservations: Option<Store<ReservationRecord>>)

  /** Both documents after `Reservation.Save` of `rec` under `id`: the reservation
      is recorded whatever the hotels document holds; the room, when it exists, is
      taken by the customer; otherwise the hotels document is untouched. */
  function SaveStep(db: Db, id: string, rec: ReservationRecord): (r: Db)
    ensures r.reservations == Some(Put(Load(db.reservations), id, rec))
    ensures WritesRoom(db.hotels, rec.hotelId, rec.roomNumber) ==>
      WritesRoom(r.hotels, rec.hotelId, rec.roomNumber) && r.hotels.hotels[rec.hotelId].rooms[rec.roomNumber] == Booking(rec.customerId)
    ensures WritesRoom(db.hotels, rec.hotelId, rec.roomNumber) ==>
      r.hotels == Parsed(SetRoom(db.hotels.hotels, rec.hotelId, rec.roomNumber, Booking(rec.customerId)))
    ensures !WritesRoom(db.hotels, rec.hotelId, rec.roomNumber) ==> r.hotels == db.hotels
  {
    Db(UpdateRoom(db.hotels, rec.hotelId, rec.roomNumber, Booking(rec.customerId)),
       Some(Put(Load(db.reservations), id, rec)))
  }

  /** What `Reservation.Save` answers: it completes when `hotels.json` can be
      opened and decoded, and raises otherwise. */
  function SaveAnswer(f: HotelsFile): (r: Result<()>)
    ensures r == Ok(()) <==> f.Parsed?
    ensures f == Missing ==> r == Raised(FileNotFound(HotelsJson))
    ensures f == Corrupt ==> r == Raised(DecodeError(HotelsJson))
  {
    match OpenHotels(f)
    case Ok(_) => Ok(())
    case Raised(e) => Raised(e)
  }

  /** Both documents after `Reservation.Cancel(id)`: nothing changes when there is
      no such reservation; otherwise exactly that entry goes and its room, when it
      still exists, is vacant whatever it was before. */
  function CancelStep(db: Db, id: string): (r: Db)
    ensures !Removes(db.reservations, id) ==> r == db
    ensures Removes(db.reservations, id) ==>
      r.reservations == Remove(db.reservations, id) && id !in r.reservations.value
    ensures Removes(db.reservations, id) ==>
      var rec := db.reservations.value[id];
      && (WritesRoom(db.hotels, rec.hotelId, rec.roomNumber) ==>
            && WritesRoom(r.hotels, rec.hotelId, rec.roomNumber)
            && r.hotels.hotels[rec.hotelId].rooms[rec.roomNumber] == Vacant
            && r.hotels == Parsed(SetRoom(db.hotels.hotels, rec.hotelId, rec.roomNumber, Vacant)))
      && (!WritesRoom(db.hotels, rec.hotelId, rec.roomNumber) ==> r.hotels == db.hotels)
  {
    if Removes(db.reservations, id) then
      var rec := db.reservations.value[id];
      Db(UpdateRoom(db.hotels, rec.hotelId, rec.roomNumber, Vacant), Remove(db.reservations, id))
    else
      db
  }

  /** What `Reservation.Cancel(id)` answers: `false` when there is no such
      reservation, `true` when it was removed and `hotels.json` could be read, and
      the raised error when it could not. */
  function CancelAnswer(db: Db, id: string): (r: Result<bool>)
    ensures r == Ok(false) <==> !Removes(db.reservations, id)
    ensures r == Ok(true) <==> Removes(db.reservations, id) && db.hotels.Parsed?
    ensures Removes(db.reservations, id) && db.hotels == Missing ==> r == Raised(FileNotFound(HotelsJson))
    ensures Removes(db.reservations, id) && db.hotels == Corrupt ==> r == Raised(DecodeError(HotelsJson))
  {
    if !Removes(db.reservations, id) then Ok(false)
    else match OpenHotels(db.hotels)
      case Ok(_) => Ok(true)
      case Raised(e) => Raised(e)
  }

  class Reservation {
    const reservationId: string
    const customerId: string
    const hotelId: string
    const roomNumber: string
    const startDate: string
    const endDate: string

    constructor (reservationId: string, customerId: string, hotelId: string, roomNumber: string,
                 startDate: string, endDate: string)
      ensures this.reservationId == reservationId && this.customerId == customerId
      ensures this.hotelId == hotelId && this.roomNumber == roomNumber
      ensures this.startDate == startDate && this.endDate == endDate
    {
      this.reservationId := reservationId;
      this.customerId := customerId;
      this.hotelId := hotelId;
      this.roomNumber := roomNumber;
      this.startDate := startDate;
      this.endDate := endDate;
    }

    /** The fields this reservation is stored with. */
    function Record(): (r: ReservationRecord)
    {
      ReservationRecord(customerId, hotelId, roomNumber, startDate, endDate)
    }

    /** Records the reservation (creating `reservations.json` as `{}` first if it
        does not exist); then, if the hotel and the room exist, marks the room
        taken by this customer and writes `hotels.json`. The reservation is written
        before `hotels.json` is even opened, so it stays recorded when that fails. */
    method Save(d: Disk) returns (r: Result<()>)
      modifies d`reservations, d`hotels, d`log
      ensures Db(d.hotels, d.reservations) == SaveStep(old(Db(d.hotels, d.reservations)), reservationId, Record())
      ensures r == SaveAnswer(old(d.hotels))
      ensures d.log == old(d.log) + (if old(d.reservations).None? then [ReservationsJson] else [])
        + [ReservationsJson] + (if WritesRoom(old(d.hotels), hotelId, roomNumber) then [HotelsJson] else [])
    {
      if d.reservations.None? {
        d.WriteReservations(map[]);
      }
      var reservations := d.reservations.value;
      reservations := reservations[reservationId := Record()];
      d.WriteReservations(reservations);

      var loaded := OpenHotels(d.hotels);
      if loaded.Raised? {
        return Raised(loaded.error);
      }
      var hotels := loaded.value;
      if hotelId in hotels && roomNumber in hotels[hotelId].rooms {
        var hotel := hotels[hotelId];
        var room := hotel.rooms[roomNumber];
        room := room.(available := false);
        room := room.(customerId := Some(customerId));
        hotels := hotels[hotelId := hotel.(rooms := hotel.rooms[roomNumber := room])];
        d.WriteHotels(hotels);
      }
      r := Ok(());
    }

    /** Removes reservation `reservationId` and, if its hotel and room still exist,
        frees the room. Answers `false` and changes nothing when the file does not
        exist or holds no such reservation. */
    static method Cancel(d: Disk, reservationId: string) returns (r: Result<bool>)
      modifies d`reservations, d`hotels, d`log
      ensures Db(d.hotels, d.reservations) == CancelStep(old(Db(d.hotels, d.reservations)), reservationId)
      ensures r == CancelAnswer(old(Db(d.hotels, d.reservations)), reservationId)
      ensures !Removes(old(d.reservations), reservationId) ==> d.log == old(d.log)
      ensures Removes(old(d.reservations), reservationId) ==>
        var rec := old(d.reservations).value[reservationId];
        d.log == old(d.log) + [ReservationsJson]
          + (if WritesRoom(old(d.hotels), rec.hotelId, rec.roomNumber) then [HotelsJson] else [])
    {
      if d.reservations.None? {
        return Ok(false);
      }
      var reservations := d.reservations.value;
      if reservationId !in reservations {
        return Ok(false);
      }
      var reservation := reservations[reservationId];
      reservations := reservations - {reservationId};
      d.WriteReservations(reservations);

      var loaded := OpenHotels(d.hotels);
      if loaded.Raised? {
        return Raised(loaded.error);
      }
      var hotels := loaded.value;
      var hotelId, roomNumber := reservation.hotelId, reservation.roomNumber;
      if hotelId in hotels && roomNumber in hotels[hotelId].rooms {
        var hotel := hotels[hotelId];
        var room := hotel.rooms[roomNumber];
        room := room.(available := true);
        room := room.(customerId := None);
        hotels := hotels[hotelId := hotel.(rooms := hotel.rooms[roomNumber := room])];
        d.WriteHotels(hotels);
      }
      r := Ok(true);
    }

    /** Every stored reservation; `{}` when the file does not exist. */
    static method GetAllReservations(d: Disk) returns (r: Store<ReservationRecord>)
      ensures d.reservations.None? ==> r == map[]
      ensures d.reservations.Some? ==> r == d.reservations.value
    {
      if d.reservations.None? {
        return map[];
      }
      r := d.reservations.value;
    }
  }
}
