# Seat-booking ledger

A model of the seat-booking core of a small transport reservation program.
Each transport (a bus, a train or a plane) has an id, a seat capacity and a set
of booked seat numbers. Seats are numbered 1..capacity. A booking system files
transports by id and keeps the bookings in the order they were confirmed.

- `seats.dfy` (module `Seats`) holds the seat arithmetic as pure functions.
  `FreeIn` is the ascending list of free seats, which is what
  `get_available_seats` computes. `AfterBooking` is the booked set after a
  `book_seat` request. The lemmas about them cover the seat invariant, the free
  count and idempotence.
- `ledger.dfy` (module `Ledger`) holds the data and the two stateful classes.
  - The datatypes are the transport kind (`Bus`/`Train`/`Plane`, each with its
    own attribute), `Passenger`, `Booking` and the booking `Outcome`.
  - `Transport` has a mutable `bookedSeats` set, and `BookSeat` updates it in place.
  - In `BookingSystem`, the `transports` map and the `bookings` sequence are
    fields that `AddTransport` and `MakeBooking` reassign.
  - `Scenario` (one concrete bus) and `BookTwice` (any system and any request)
    are clients that check what callers can conclude from these contracts alone.

The object invariant `Transport.Valid` says every booked seat lies in
1..capacity. The constructor establishes it and `BookSeat` preserves it.
`BookingSystem.Valid` says every transport is filed under its own id, which
makes distinct ids distinct objects, and that every filed transport is valid.

`make_booking` returns one of two fixed messages or the booking's confirmation.
The model returns an `Outcome`: `NotFound`, `SeatTaken` or `Confirmed(booking)`.
`Outcome.Reply` maps each outcome to the text the program returns. The two
error texts are written out exactly. The source file never defines the
`Booking` class that its `make_booking` builds, so a booking is modelled as a
record and its confirmation text is a function parameter.

The capacity is any integer, since the program never checks it. For a capacity
of zero or less, `range(1, capacity + 1)` is empty, so no seat is ever free or
bookable.

The not-found reply is a fixed message (Test0.py:68); it does not name the
missing id.

## Model

| member | source | states |
|---|---|---|
| Seats.FreeIn | Test0.py:14 | A number is in the list exactly when it lies in the range and is not booked. The list is strictly ascending, so it has no duplicates. |
| Seats.FreeInCount | Test0.py:14 | In any range, the free seats plus the booked seats there equal the range's length. |
| Seats.AvailableCount | Test0.py:14 | If every booked seat is in 1..capacity, then available plus booked equals the capacity, or 0 when the capacity is negative. |
| Seats.AfterBooking | Test0.py:10-11 | The booked set is unchanged exactly when the seat is out of 1..capacity or already booked. Otherwise it is the old set plus that one seat, which was not booked before. |
| Seats.AfterBookingWithin | Test0.py:9-11 | A book request keeps every booked seat inside 1..capacity. |
| Seats.AfterBookingEffect | Test0.py:9-11 | A request never removes a seat and adds at most the requested one. The seat ends up booked exactly when it was already booked or lies in 1..capacity. |
| Seats.AfterBookingIdempotent | Test0.py:10-11 | Requesting the same seat twice leaves the same booked set as requesting it once. |
| Seats.RequestedSeatNotFree | Test0.py:9-14 | After any request for a seat, that seat is never available, so a second booking of it always fails. |
| Ledger.Transport.constructor | Test0.py:4-7 | A new transport has the given id, capacity and kind, no booked seats, and satisfies the seat invariant. |
| Ledger.Transport.BookSeat | Test0.py:9-11 | The new booked set is the old one plus the seat if it is in 1..capacity and free, otherwise unchanged. The seat invariant is preserved. |
| Ledger.Transport.AvailableSeats | Test0.py:13-14 | Returns exactly the seats 1..capacity that are not booked, strictly ascending. Together with the booked seats they partition 1..capacity. |
| Ledger.Transport.FreeCount | Test0.py:20-22 | The free count shown in the summary plus the number of booked seats equals the capacity, or 0 when the capacity is negative. |
| Ledger.BookingSystem.constructor | Test0.py:58-60 | Starts with no transports and no bookings. |
| Ledger.BookingSystem.AddTransport | Test0.py:62-63 | Files the transport under its id and replaces any earlier entry without error. Other entries and the bookings are unchanged. |
| Ledger.BookingSystem.MakeBooking | Test0.py:65-75 | Unknown id: `NotFound`, nothing changes. Seat not available (≤ 0, > capacity, or booked): `SeatTaken`, nothing changes. Otherwise: the seat is added and no longer available, one booking is appended, the outcome is `Confirmed`. Other transports are untouched and the invariant is kept. |
| Ledger.Outcome.Reply | Test0.py:66-75 | The reply is "Не найдено" for an unknown id and "Место занято" for a seat that is not free. For a confirmed booking it is that booking's confirmation text. |
| Ledger.BookingSystem.ListBookings | Test0.py:77-78 | One display line per booking, in booking order, each line the rendering of that booking. |
| Ledger.BookTwice | Test0.py:65-78 | For any system, passenger, id and seat, with `before` and `after` the system's listings before and after the first attempt: the first attempt is confirmed exactly when the id is filed and the seat was free. The booking list then grows by exactly that booking's line, and is unchanged otherwise. A second attempt at the same seat always fails, with `SeatTaken` if the id is filed and `NotFound` if not. |
| Ledger.Scenario | Test0.py:57-78 | On a two-seat bus, booking seat 1 succeeds. Seat 2 is then the only free seat, a second booking of seat 1 gets `SeatTaken`, and exactly one booking is listed. |

## Left out

- The console menu and the top-level call (Test0.py:81-115) are user I/O: prompts, printing and `int(...)` parsing. The menu also creates a bare abstract `Transport` (Test0.py:95), outside the core.
- `get_info`, `Transport.__str__` and `Passenger.__str__` (Test0.py:20-22, 29-30, 37-38, 45-46, 53-54) are display text only and are not modelled. The summary also shows the id and capacity. The one number it computes, the free count, is `Transport.FreeCount`.
- The abstract base class (Test0.py:1, 16-18) becomes the datatype `Kind` over bus, train and plane.
- Ledger.BookingSystem.MakeBooking: `Booking` is not defined in Test0.py, and the file imports only `abc`. As written, every request that passes both checks would raise `NameError` at Test0.py:72, before the seat is marked or the booking is appended. That error is not modelled. `Booking` is assumed to be a record of passenger, transport id and seat, and its `confirm` and `__str__` become the function parameters `confirmation` of `Outcome.Reply` and `render` of `ListBookings`.
- A booking holds its transport id, not the transport object that Test0.py:72 passes. So `render` and `confirmation` see only (passenger, id, seat), and miss any dependence on the transport's kind, capacity or current booked seats. After `add_transport` replaces an id (Test0.py:63), an old booking in the source still refers to the replaced object, while the model's id now names the new one.
- Transport ids are strings and the wagon attribute is an integer. The program itself accepts any Python values there.
- `id`, `capacity` and the kind attribute are constants of a transport, since nothing in the core reassigns them.
- Concurrency is out of scope; the program is single-threaded.
