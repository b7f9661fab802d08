/** The three JSON documents the system keeps in its working directory, and the
    shapes of the records stored in them. */
module Files {
  import opened RecordStore

  /** A value of `customers.json`, keyed by customer id. */
  datatype CustomerRecord = CustomerRecord(name: string, email: string)

  /** The state of one room inside a hotel record. */
  datatype Room = Room(available: bool, customerId: Option<string>)

  /** A value of `hotels.json`, keyed by hotel id; rooms are keyed by room number. */
  datatype HotelRecord = HotelRecord(name: string, location: string, rooms: Store<Room>)

  /** A value of `reservations.json`, keyed by reservation id. Dates are opaque text. */
  datatype ReservationRecord = ReservationRecord(
    customerId: string, hotelId: string, roomNumber: string, startDate: string, endDate: string)

  /** `hotels.json` may be missing, present but not decodable, or decoded. */
  datatype HotelsFile = Missing | Corrupt | Parsed(hotels: Store<HotelRecord>)

  datatype FileName = CustomersJson | HotelsJson | ReservationsJson

  /** The exceptions an operation lets escape: opening a missing file for update,
      or decoding a document that is not valid JSON. */
  datatype StoreError = FileNotFound(file: FileName) | DecodeError(file: FileName)

  datatype Result<T> = Ok(value: T) | Raised(error: StoreError)

  /** Opening `hotels.json` for update and decoding it. */
  function OpenHotels(f: HotelsFile): (r: Result<Store<HotelRecord>>)
  {
    match f
    case Missing => Raised(FileNotFound(HotelsJson))
    case Corrupt => Raised(DecodeError(HotelsJson))
    case Parsed(m) => Ok(m)
  }

  /** The working directory. `log` lists the documents written, oldest first. */
  class Disk {
    var customers: Option<Store<CustomerRecord>>
    var hotels: HotelsFile
    var reservations: Option<Store<ReservationRecord>>
    var log: seq<FileName>

    constructor (customers: Option<Store<CustomerRecord>>, hotels: HotelsFile,
                 reservations: Option<Store<ReservationRecord>>)
      ensures this.customers == customers && this.hotels == hotels
      ensures this.reservations == reservations && log == []
    {
      this.customers := customers;
      this.hotels := hotels;
      this.reservations := reservations;
      log := [];
    }

    /** `json.dump` of a whole mapping to `customers.json`. */
    method WriteCustomers(m: Store<CustomerRecord>)
      modifies this`customers, this`log
      ensures customers == Some(m) && log == old(log) + [CustomersJson]
    {
      customers := Some(m);
      log := log + [CustomersJson];
    }

    /** `json.dump` of a whole mapping to `hotels.json`. */
    method WriteHotels(m: Store<HotelRecord>)
      modifies this`hotels, this`log
      ensures hotels == Parsed(m) && log == old(log) + [HotelsJson]
    {
      hotels := Parsed(m);
      log := log + [HotelsJson];
    }

    /** `json.dump` of a whole mapping to `reservations.json`. */
    method WriteReservations(m: Store<ReservationRecord>)
      modifies this`reservations, this`log
      ensures reservations == Some(m) && log == old(log) + [ReservationsJson]
    {
      reservations := Some(m);
      log := log + [ReservationsJson];
    }
  }
}
