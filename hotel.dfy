/** Hotels: records `{name, location, rooms}` in `hotels.json`, keyed by hotel id. */
module Hotels {
  import opened RecordStore
  import opened Files

  /** What `save` starts from: the decoded mapping, or `{}` when the file is missing
      or cannot be decoded (a corrupt file is then overwritten). */
  function LoadHotels(f: HotelsFile): (r: Store<HotelRecord>)
  {
    if f.Parsed? then f.hotels else map[]
  }

  /** Whether `delete(id)` removes a hotel (and so writes the document). */
  predicate RemovesHotel(f: HotelsFile, id: string)
  {
    f.Parsed? && id in f.hotels
  }

  /** The document after `delete(id)`: missing, corrupt, or without that hotel, it
      is left as it was; otherwise exactly that hotel goes. */
  function RemoveHotel(f: HotelsFile, id: string): (r: HotelsFile)
    ensures !RemovesHotel(f, id) ==> r == f
    ensures RemovesHotel(f, id) ==> r.Parsed? && r.hotels.Keys == f.hotels.Keys - {id}
    ensures RemovesHotel(f, id) ==> forall k :: k in r.hotels ==> r.hotels[k] == f.hotels[k]
  {
    if RemovesHotel(f, id) then Parsed(f.hotels - {id}) else f
  }

  /** Saving over an unreadable or missing document leaves only the saved hotel. */
  lemma SaveOverUnreadable(f: HotelsFile, id: string, rec: HotelRecord)
    requires !f.Parsed?
    ensures Put(LoadHotels(f), id, rec) == map[id := rec]
  {
  }

  class Hotel {
    const hotelId: string
    const name: string
    const location: string
    var rooms: Store<Room>

    constructor (hotelId: string, name: string, location: string, rooms: Store<Room>)
      ensures this.hotelId == hotelId && this.name == name && this.location == location
      ensures this.rooms == rooms
    {
      this.hotelId := hotelId;
      this.name := name;
      this.location := location;
      this.rooms := rooms;
    }

    /** The fields this hotel is stored with. */
    function Record(): (r: HotelRecord)
      reads this
    {
      HotelRecord(name, location, rooms)
    }

    /** Inserts or overwrites this hotel's whole record, rooms included, in the
        mapping read from disk (or `{}`), and writes the mapping back. */
    method Save(d: Disk)
      modifies d`hotels, d`log
      ensures d.hotels == Parsed(Put(LoadHotels(old(d.hotels)), hotelId, Record()))
      ensures d.log == old(d.log) + [HotelsJson]
    {
      var hotels: Store<HotelRecord> := map[];
      if d.hotels.Parsed? {
        hotels := d.hotels.hotels;
      }
      hotels := hotels[hotelId := Record()];
      d.WriteHotels(hotels);
    }

    /** Removes the hotel `hotelId`; nothing is written when the file is missing or
        corrupt or holds no such hotel. */
    static method Delete(d: Disk, hotelId: string)
      modifies d`hotels, d`log
      ensures d.hotels == RemoveHotel(old(d.hotels), hotelId)
      ensures d.log == old(d.log) + (if RemovesHotel(old(d.hotels), hotelId) then [HotelsJson] else [])
    {
      if d.hotels.Missing? || d.hotels.Corrupt? {
        return;
      }
      var hotels := d.hotels.hotels;
      if hotelId in hotels {
        hotels := hotels - {hotelId};
        d.WriteHotels(hotels);
      }
    }

    /** Every stored hotel; `{}` when the file is missing or corrupt. */
    static method GetAllHotels(d: Disk) returns (r: Store<HotelRecord>)
      ensures !d.hotels.Parsed? ==> r == map[]
      ensures d.hotels.Parsed? ==> r == d.hotels.hotels
    {
      if d.hotels.Missing? || d.hotels.Corrupt? {
        return map[];
      }
      r := d.hotels.hotels;
    }

    /** Sets room `roomNumber` of this object to `{available, customerId}` and saves
        the whole hotel. */
    method AddRoom(d: Disk, roomNumber: string, available: bool := true, customerId: Option<string> := None)
      modifies this`rooms, d`hotels, d`log
      ensures rooms == Put(old(rooms), roomNumber, Room(available, customerId))
      ensures d.hotels == Parsed(Put(LoadHotels(old(d.hotels)), hotelId, Record()))
      ensures d.log == old(d.log) + [HotelsJson]
    {
      rooms := rooms[roomNumber := Room(available, customerId)];
      Save(d);
    }

    /** Deletes room `roomNumber` from this object and saves the hotel; when there is
        no such room, neither the object nor the file changes. */
    method RemoveRoom(d: Disk, roomNumber: string)
      modifies this`rooms, d`hotels, d`log
      ensures rooms == Load(Remove(Some(old(rooms)), roomNumber))
      ensures roomNumber in old(rooms) ==>
        d.hotels == Parsed(Put(LoadHotels(old(d.hotels)), hotelId, Record())) && d.log == old(d.log) + [HotelsJson]
      ensures roomNumber !in old(rooms) ==> d.hotels == old(d.hotels) && d.log == old(d.log)
    {
      if roomNumber in rooms {
        rooms := rooms - {roomNumber};
        Save(d);
      }
    }
  }
}
