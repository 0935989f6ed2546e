/**
  The reservation ledger: transports (buses, trains, planes) that keep the set of
  their booked seats, and a booking system that registers transports by id and
  records bookings in the order they were confirmed.
 */
module Ledger {
  import opened Seats

  /** The three kinds of transport, each with its own extra attribute. */
  datatype Kind =
    | Bus(itinerary: string)
    | Train(wagon: int)
    | Plane(model: string)

  datatype Passenger = Passenger(name: string, passportNumber: string)

  /** One confirmed booking: who, on which transport, which seat. */
  datatype Booking = Booking(passenger: Passenger, transportId: string, seat: int)

  /** What a booking attempt yields. */
  datatype Outcome =
    | NotFound
    | SeatTaken
    | Confirmed(booking: Booking)
  {
    /**
      The text a booking attempt returns to its caller: one of two fixed
      messages, or the booking's own confirmation (`confirmation`).
     */
    function Reply(confirmation: Booking -> string): (r: string)
      ensures NotFound? ==> r == "Не найдено"
      ensures SeatTaken? ==> r == "Место занято"
      ensures Confirmed? ==> r == confirmation(booking)
    {
      match this
      case NotFound => "Не найдено"
      case SeatTaken => "Место занято"
      case Confirmed(b) => confirmation(b)
    }
  }

  class Transport {
    const id: string
    const capacity: int
    const kind: Kind
    var bookedSeats: set<int>

    /** Every booked seat lies in 1..capacity. */
    ghost predicate Valid()
      reads this
    {
      Within(bookedSeats, capacity)
    }

    constructor (id: string, capacity: int, kind: Kind)
      ensures Valid()
      ensures this.id == id && this.capacity == capacity && this.kind == kind
      ensures bookedSeats == {}
    {
      this.id := id;
      this.capacity := capacity;
      this.kind := kind;
      bookedSeats := {};
    }

    /** Marks `seat` as booked when it is in 1..capacity and not yet booked; otherwise does nothing. */
    method BookSeat(seat: int)
      requires Valid()
      modifies this
      ensures Valid()
      ensures bookedSeats == AfterBooking(old(bookedSeats), capacity, seat)
    {
      if 1 <= seat <= capacity && seat !in bookedSeats {
        bookedSeats := bookedSeats + {seat};
      }
    }

    /** The free seats: every seat of 1..capacity that is not booked, in ascending order. */
    function AvailableSeats(): (r: seq<int>)
      reads this
      ensures forall s :: s in r <==> 1 <= s <= capacity && s !in bookedSeats
      ensures Increasing(r)
    {
      FreeIn(1, capacity + 1, bookedSeats)
    }

    /** The number of free seats, as shown in the transport's summary line. */
    function FreeCount(): (n: nat)
      reads this
      requires Valid()
      ensures n + |bookedSeats| == if capacity < 0 then 0 else capacity
    {
      AvailableCount(capacity, bookedSeats);
      |AvailableSeats()|
    }
  }

  class BookingSystem {
    var transports: map<string, Transport>
    var bookings: seq<Booking>

    /** Each transport is filed under its own id and keeps its seats in range. */
    ghost predicate Valid()
      reads this, transports.Values
    {
      forall k :: k in transports ==> transports[k].id == k && transports[k].Valid()
    }

    constructor ()
      ensures Valid()
      ensures transports == map[] && bookings == []
    {
      transports := map[];
      bookings := [];
    }

    /** Files `transport` under its id, replacing any transport filed there before. */
    method AddTransport(transport: Transport)
      requires Valid() && transport.Valid()
      modifies this
      ensures Valid()
      ensures transports == old(transports)[transport.id := transport]
      ensures bookings == old(bookings)
    {
      transports := transports[transport.id := transport];
    }

    /**
      Books `seat` on the transport filed under `transportId` for `passenger`.
      An unknown id or a seat that is not free changes nothing; a success marks
      the seat booked and appends one booking.
     */
    method MakeBooking(passenger: Passenger, transportId: string, seat: int) returns (outcome: Outcome)
      requires Valid()
      modifies this, transports.Values
      ensures Valid()
      ensures transports == old(transports)
      ensures forall k :: k in transports && k != transportId ==>
                transports[k].bookedSeats == old(transports[k].bookedSeats)
      ensures transportId !in transports ==>
                outcome == NotFound && bookings == old(bookings)
      ensures transportId in transports && seat !in old(transports[transportId].AvailableSeats()) ==>
                && outcome == SeatTaken
                && bookings == old(bookings)
                && transports[transportId].bookedSeats == old(transports[transportId].bookedSeats)
      ensures transportId in transports && seat in old(transports[transportId].AvailableSeats()) ==>
                && outcome == Confirmed(Booking(passenger, transportId, seat))
                && transports[transportId].bookedSeats == old(transports[transportId].bookedSeats) + {seat}
                && seat !in transports[transportId].AvailableSeats()
                && bookings == old(bookings) + [Booking(passenger, transportId, seat)]
    {
      if transportId !in transports {
        return NotFound;
      }
      var transport := transports[transportId];
      if seat !in transport.AvailableSeats() {
        return SeatTaken;
      }
      var booking := Booking(passenger, transportId, seat);
      transport.BookSeat(seat);
      bookings := bookings + [booking];
      outcome := Confirmed(booking);
    }

    /** The display form of every booking (`render`), in confirmation order. */
    function ListBookings(render: Booking -> string): (lines: seq<string>)
      reads this
      ensures |lines| == |bookings|
      ensures forall i :: 0 <= i < |bookings| ==> lines[i] == render(bookings[i])
    {
      var all := bookings;
      seq(|all|, i requires 0 <= i < |all| => render(all[i]))
    }
  }

  /**
    A bus with two seats: the first booking of seat 1 succeeds, seat 2 is then the
    only free seat, a second booking of seat 1 is refused, and one booking is listed.
   */
  method Scenario(render: Booking -> string)
    returns (first: Outcome, free: seq<int>, second: Outcome, lines: seq<string>)
    ensures first == Confirmed(Booking(Passenger("Ann", "1111"), "1", 1))
    ensures free == [2]
    ensures second == SeatTaken
    ensures lines == [render(Booking(Passenger("Ann", "1111"), "1", 1))]
  {
    var system := new BookingSystem();
    var bus := new Transport("1", 2, Bus("A-B"));
    system.AddTransport(bus);
    first := system.MakeBooking(Passenger("Ann", "1111"), "1", 1);
    free := bus.AvailableSeats();
    assert free == FreeIn(1, 3, {1});
    assert FreeIn(2, 3, {1}) == [2] + FreeIn(3, 3, {1});
    second := system.MakeBooking(Passenger("Bob", "2222"), "1", 1);
    lines := system.ListBookings(render);
  }

  /**
    Any passenger asks for a seat, then asks for it again. The listing grows by the
    one new booking exactly when the first attempt is confirmed, and the second
    attempt is always refused.
   */
  method BookTwice(system: BookingSystem, render: Booking -> string,
                   passenger: Passenger, transportId: string, seat: int)
    returns (first: Outcome, before: seq<string>, after: seq<string>, second: Outcome)
    requires system.Valid()
    modifies system, system.transports.Values
    ensures system.Valid()
    ensures system.transports == old(system.transports)
    ensures before == old(system.ListBookings(render))
    ensures after == system.ListBookings(render)
    ensures first.Confirmed? <==>
              transportId in old(system.transports) && seat in old(system.transports[transportId].AvailableSeats())
    ensures first.Confirmed? ==> after == before + [render(Booking(passenger, transportId, seat))]
    ensures !first.Confirmed? ==> after == before
    ensures second == if transportId in system.transports then SeatTaken else NotFound
  {
    before := system.ListBookings(render);
    first := system.MakeBooking(passenger, transportId, seat);
    after := system.ListBookings(render);
    second := system.MakeBooking(passenger, transportId, seat);
  }
}
