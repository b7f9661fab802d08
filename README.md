# Hotel reservation record stores

A model of the record-store core of a small hotel management system. Customers,
hotels (each with a map of rooms) and reservations live in three JSON documents,
`customers.json`, `hotels.json` and `reservations.json`. Each document maps a
record id to that record's fields. Every operation reads a whole document,
changes it in memory and writes it back whole. The reservation coordinator
updates two documents. Creating a reservation records it and then marks the
booked room taken by the customer. Cancelling removes it and then frees the room.

Modules, one per source file plus three shared ones:

- `RecordStore` (`record_store.dfy`): the generic document operations. `Load`
  reads a missing document as `{}`. `Put` inserts or overwrites one entry.
  `Remove` deletes one entry.
- `Files` (`files.dfy`): the record shapes and the working directory. The
  `Disk` class holds the three documents as fields. Customers and reservations
  are `Option<map>`. Hotels are `Missing | Corrupt | Parsed(map)`. The field
  `log` lists every document write in order, so "no write happens" and "the
  reservation is written before the hotels document" can both be stated.
- `Customers` (`customer.dfy`), `Hotels` (`hotel.dfy`), `Reservations`
  (`reservation.dfy`): one class per entity, as in the source. Instance
  methods save an object. Static methods delete and list, taking the `Disk`.
  `Hotel.rooms` is a mutable field that `AddRoom` and `RemoveRoom` change.
  `Reservations` also gives the two coordinator operations as functions on the
  pair of documents (`SaveStep`, `CancelStep`, with their answers
  `SaveAnswer`, `CancelAnswer`). The methods' contracts are stated through them.
- `Consistency` (`consistency.dfy`): what the coordinator keeps over any
  sequence of requests. Also the invariant "every reservation holds its room", the round
  trip create-then-cancel, and a hotel, room and reservation scenario on the
  real classes, checked as the verified client method `BookAndCancelScenario`.

Points where the code behaves differently from what a caller might expect,
and where the model follows the code:

- `Hotel.save` overwrites a corrupt `hotels.json` with a document holding only
  the saved hotel. It does not abort, so the unreadable data is lost.
- `Customer.delete` and `Hotel.delete` return nothing. A caller cannot tell
  whether something was removed. The model states it through `log`.
- `Reservation.save` and `Reservation.cancel` open `hotels.json` for update
  and decode it without catching errors. A missing or corrupt file therefore
  raises an exception after the reservation document has already been
  written. The model returns this as `Raised(FileNotFound(HotelsJson))` or
  `Raised(DecodeError(HotelsJson))`, with the reservation write kept.

## Model

| member | source | states |
|---|---|---|
| RecordStore.Put | customer.py:24-27 | the stored entry under `id` is the new record, the key set gains `id`, and every other entry is unchanged |
| RecordStore.Remove | customer.py:34-48 | a missing document stays missing; an id not present leaves the document unchanged; otherwise the key set loses exactly `id` and the remaining entries are unchanged |
| RecordStore.PutIdempotent | customer.py:24-31 | saving the same record twice gives the same store as saving it once |
| RecordStore.PutThenRemove | hotel.py:79-90 | inserting under a fresh id and then deleting that id gives back the original store (add_room then remove_room leaves the rooms as they were) |
| Customers.Customer.Save | customer.py:18-31 | a missing file is first written as `{}`; afterwards the file maps `customerId` to `{name, email}` and keeps every other customer; one write, or two when the file was missing |
| Customers.SaveTwice | customer.py:18-31 | saving the same customer twice leaves `customers.json` holding what one save gives: the loaded mapping with `customerId` set to `{name, email}` |
| Customers.Customer.Delete | customer.py:34-48 | the customer is removed when present, with exactly one write; with the file missing or the id absent the file is unchanged and nothing is written |
| Customers.Customer.GetAllCustomers | customer.py:51-57 | `{}` when the file is missing, the stored mapping otherwise |
| Hotels.RemoveHotel | hotel.py:37-54 | a missing or corrupt document, or one without the id, is left as it is; otherwise exactly that hotel is removed and the others are unchanged |
| Hotels.SaveOverUnreadable | hotel.py:21-27 | saving over a missing or corrupt document leaves only the saved hotel |
| Hotels.Hotel.Save | hotel.py:19-34 | the document becomes the readable mapping (or `{}` if missing or corrupt) with `hotelId` set to the object's `{name, location, rooms}`; the whole record, room states included, is replaced; one write |
| Hotels.Hotel.Delete | hotel.py:37-54 | the file becomes `RemoveHotel` of the old file; a write happens exactly when the hotel was present in a readable file |
| Hotels.Hotel.GetAllHotels | hotel.py:57-67 | `{}` when the file is missing or corrupt, the stored mapping otherwise |
| Hotels.Hotel.AddRoom | hotel.py:79-82 | the object's room `roomNumber` becomes `{available, customerId}` (defaults true and none), the other rooms are unchanged, and the whole hotel is saved |
| Hotels.Hotel.RemoveRoom | hotel.py:84-90 | when the room is present it is removed and the hotel is saved; otherwise the object, the file and the write log are unchanged |
| Reservations.SetRoom | reservation.py:41-43 | when the hotel and room exist the room gets the given state; no hotel or room appears or disappears, no name or location changes, and every other room keeps its state |
| Reservations.SaveStep | reservation.py:27-46 | the reservation store becomes the loaded mapping with `id` set to the five fields (other reservations kept); when the hotels document is readable and holds the room, that room becomes `available=false, customer_id` of the reservation; otherwise the hotels document is unchanged |
| Reservations.SaveAnswer | reservation.py:39-40 | the save completes exactly when `hotels.json` is readable; a missing file raises file-not-found, a corrupt one raises a decode error |
| Reservations.CancelStep | reservation.py:55-72 | without such a reservation both documents are unchanged; otherwise exactly that entry is removed and its room, when the hotel and room still exist, becomes `available=true, customer_id=None` whatever it was before; otherwise the hotels document is unchanged |
| Reservations.CancelAnswer | reservation.py:51-76 | false exactly when the file is missing or the id absent; true exactly when the entry was removed and `hotels.json` is readable; a missing or corrupt `hotels.json` after the removal gives the raised error |
| Reservations.Reservation.Save | reservation.py:21-46 | both documents become `SaveStep` of the old ones and the answer is `SaveAnswer` of the old hotels document; a missing reservations file is first written as `{}`; the reservation is written before `hotels.json`, which is written only when the room exists |
| Reservations.Reservation.Cancel | reservation.py:49-76 | both documents become `CancelStep` of the old ones and the answer is `CancelAnswer`; nothing is written without such a reservation; otherwise the reservations file is written first and `hotels.json` only when the room still exists |
| Reservations.Reservation.GetAllReservations | reservation.py:79-85 | `{}` when the file is missing, the stored mapping otherwise |
| Consistency.RunKeepsLayout | reservation.py:39-46 | after any sequence of creates and cancels, the hotels document has the same hotels, names, locations and room numbers; an unreadable one is unchanged |
| Consistency.StepKeepsUnreservedRoom | reservation.py:57-72 | one create for another room, or one cancel, keeps the state of a room that no stored reservation refers to, and keeps it unreferenced |
| Consistency.RunKeepsUnreservedRoom | reservation.py:57-72 | a room that no stored reservation and no created reservation refers to keeps its state through any sequence of creates and cancels |
| Consistency.SaveKeepsConsistent | reservation.py:27-46 | saving a reservation for a room no other reservation holds keeps "every reservation holds its room for its customer" and keeps reservations exclusive |
| Consistency.CancelKeepsConsistent | reservation.py:55-73 | with exclusive reservations, cancelling keeps the invariant, removes the id, and leaves the freed room vacant |
| Consistency.DoubleBookingBreaksConsistency | reservation.py:41-43 | a second reservation of a taken room takes it over, which breaks the invariant; cancelling it frees the room while the first reservation is still stored |
| Consistency.SaveThenCancelRestores | test_reservation.py:39-44 | saving a reservation under a fresh id for a vacant or missing room, then cancelling it, answers true, gives back the hotels document unchanged, and leaves `reservations.json` holding the mapping it had (`{}` if the file was missing) |

## Left out

- Diagnostic messages are not modelled. These are "file not found" (customer.py:36-38, hotel.py:38-40, reservation.py:51-53), "corrupted" (hotel.py:44-46, hotel.py:64-66), "not found" (customer.py:47-48, hotel.py:52-54, hotel.py:89-90, reservation.py:74-76) and the overwrite warning of `Hotel.save` (hotel.py:26-27). The model keeps only the new documents and whether a write happened. So `Customer.Delete`, `Hotel.Delete` and `Hotel.RemoveRoom` give the same outcome for a missing file, a corrupt file and an absent id. `Reservation.Cancel` answers false for both a missing file and an absent id, as the source does.
- The command-line entry points (argument parsing and success messages in the three `main` functions) are glue around the operations above.
- `display_info` of customers and hotels only formats console output.
- `populate_data.py` only writes fixed or parsed JSON blobs to the three files.
- JSON encoding and decoding and file handles are abstracted to whole-document values. The model does not capture that `Customer.save` and `Reservation.save` rewind without truncating (customer.py:30-31, reservation.py:36-37). A shorter new text can then leave stale bytes behind.
- Corruption of `customers.json` and `reservations.json` is not modelled. In the source, `json.load` on such a file raises out of every operation.
- Documents that decode to something other than an object of records, and records with missing or extra keys, are not modelled. The record datatypes fix the fields.
- The `Hotel` constructor shares the caller's `rooms` dictionary in Python. Without this aliasing, `AddRoom` and `RemoveRoom` change only the object's own field.
- Dates are opaque strings; there is no validation or overlap check, as in the source.
- Concurrency and crashes between the two writes of a reservation operation are not modelled. Operations run one at a time to completion.
