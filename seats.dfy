/**
  Seat arithmetic of one transport: which seat numbers are free, and what a
  request to book one seat does to the set of booked seats. Seats are numbered
  1..capacity; the capacity is whatever integer the transport was built with.
 */
module Seats {

  /** Every booked seat lies in 1..capacity. */
  predicate Within(booked: set<int>, capacity: int) {
    forall s :: s in booked ==> 1 <= s <= capacity
  }

  /** Strictly ascending, hence without duplicates. */
  predicate Increasing(xs: seq<int>) {
    forall i, j :: 0 <= i < j < |xs| ==> xs[i] < xs[j]
  }

  /** The seats lo, lo + 1, ..., hi - 1 that are not in `booked`, in ascending order. */
  function FreeIn(lo: int, hi: int, booked: set<int>): (r: seq<int>)
    ensures forall s :: s in r <==> lo <= s < hi && s !in booked
    ensures Increasing(r)
    decreases hi - lo
  {
    if lo >= hi then []
    else
      var rest := FreeIn(lo + 1, hi, booked);
      assert forall j :: 0 <= j < |rest| ==> lo < rest[j] by {
        forall j | 0 <= j < |rest| ensures lo < rest[j] {
          assert rest[j] in rest;
        }
      }
      if lo in booked then rest else [lo] + rest
  }

  /** The booked seats among lo..hi - 1. */
  function BookedIn(lo: int, hi: int, booked: set<int>): set<int> {
    set s | s in booked && lo <= s < hi
  }

  /** Within lo..hi - 1, the free seats and the booked seats add up to the whole range. */
  lemma {:induction false} FreeInCount(lo: int, hi: int, booked: set<int>)
    requires lo <= hi
    ensures |FreeIn(lo, hi, booked)| + |BookedIn(lo, hi, booked)| == hi - lo
    decreases hi - lo
  {
    if lo == hi {
      assert BookedIn(lo, hi, booked) == {};
    } else {
      FreeInCount(lo + 1, hi, booked);
      if lo in booked {
        assert BookedIn(lo, hi, booked) == BookedIn(lo + 1, hi, booked) + {lo};
      } else {
        assert BookedIn(lo, hi, booked) == BookedIn(lo + 1, hi, booked);
      }
    }
  }

  /**
    The free count of a transport: the available seats and the booked seats
    together number the capacity (none at all when the capacity is not positive).
   */
  lemma AvailableCount(capacity: int, booked: set<int>)
    requires Within(booked, capacity)
    ensures |FreeIn(1, capacity + 1, booked)| + |booked| == if capacity < 0 then 0 else capacity
  {
    if capacity < 0 {
      assert booked == {} by {
        forall s | s in booked ensures false {
        }
      }
    } else {
      FreeInCount(1, capacity + 1, booked);
      assert BookedIn(1, capacity + 1, booked) == booked;
    }
  }

  /** The booked set after a request to book `seat`: added only when it is in range and free. */
  function AfterBooking(booked: set<int>, capacity: int, seat: int): (r: set<int>)
    ensures r == booked <==> !(1 <= seat <= capacity) || seat in booked
    ensures r != booked ==> r == booked + {seat} && seat !in booked
  {
    if 1 <= seat <= capacity && seat !in booked then booked + {seat} else booked
  }

  /** Booking a seat keeps every booked seat within 1..capacity. */
  lemma AfterBookingWithin(booked: set<int>, capacity: int, seat: int)
    requires Within(booked, capacity)
    ensures Within(AfterBooking(booked, capacity, seat), capacity)
  {
  }

  /** A request adds at most the requested seat, and adds it exactly when it is in range. */
  lemma AfterBookingEffect(booked: set<int>, capacity: int, seat: int)
    ensures booked <= AfterBooking(booked, capacity, seat)
    ensures AfterBooking(booked, capacity, seat) - booked <= {seat}
    ensures seat in AfterBooking(booked, capacity, seat) <==> seat in booked || 1 <= seat <= capacity
  {
  }

  /** Asking twice for the same seat leaves the same booked set as asking once. */
  lemma AfterBookingIdempotent(booked: set<int>, capacity: int, seat: int)
    ensures AfterBooking(AfterBooking(booked, capacity, seat), capacity, seat)
         == AfterBooking(booked, capacity, seat)
  {
  }

  /** Once a seat has been asked for, it is never among the free seats again. */
  lemma RequestedSeatNotFree(booked: set<int>, capacity: int, seat: int)
    ensures seat !in FreeIn(1, capacity + 1, AfterBooking(booked, capacity, seat))
  {
  }
}
