/** The booking store and the `getBookings` query shared by the three revisions.
    The store's in-memory implementation is not part of this model: it is taken
    to keep bookings in insertion order, to append on `save`, and to match
    `findByPassengerName` exactly. */
module BookingPersistence {
  import opened Common
  import opened Bookings

  /** The bookings of one flight, in store order. */
  function OfFlight(bookings: seq<Booking>, flightId: string): (r: seq<Booking>)
    ensures |r| <= |bookings|
    ensures forall i :: 0 <= i < |r| ==> r[i] in bookings && r[i].flightId == flightId
    ensures forall i :: 0 <= i < |bookings| && bookings[i].flightId == flightId ==> bookings[i] in r
  {
    Filter(bookings, (b: Booking) => b.flightId == flightId)
  }

  /** Appending a booking adds it to its own flight's list and to no other. */
  lemma OfFlightAppend(bookings: seq<Booking>, b: Booking, flightId: string)
    ensures OfFlight(bookings + [b], flightId) == OfFlight(bookings, flightId) + (if b.flightId == flightId then [b] else [])
    ensures |OfFlight(bookings + [b], flightId)| == |OfFlight(bookings, flightId)| + (if b.flightId == flightId then 1 else 0)
  {
    var p := (x: Booking) => x.flightId == flightId;
    FilterConcat(bookings, [b], p);
    assert Filter([b], p) == (if p(b) then [b] else []) + Filter([b][1..], p);
  }

  /** Each booking of the flight is kept as often as the store holds it, and
      no other booking is kept. */
  lemma OfFlightCounts(bookings: seq<Booking>, flightId: string)
    ensures forall i :: 0 <= i < |bookings| ==>
              multiset(OfFlight(bookings, flightId))[bookings[i]]
                == if bookings[i].flightId == flightId then multiset(bookings)[bookings[i]] else 0
  {
    FilterCounts(bookings, (b: Booking) => b.flightId == flightId);
  }

  /** The bookings under one passenger name, in store order. */
  function OfPassenger(bookings: seq<Booking>, passengerName: string): (r: seq<Booking>)
    ensures |r| <= |bookings|
    ensures forall i :: 0 <= i < |r| ==> r[i] in bookings && r[i].passengerName == passengerName
    ensures forall i :: 0 <= i < |bookings| && bookings[i].passengerName == passengerName ==> bookings[i] in r
  {
    Filter(bookings, (b: Booking) => b.passengerName == passengerName)
  }

  /** Each booking under the name is kept as often as the store holds it, and
      no other booking is kept. */
  lemma OfPassengerCounts(bookings: seq<Booking>, passengerName: string)
    ensures forall i :: 0 <= i < |bookings| ==>
              multiset(OfPassenger(bookings, passengerName))[bookings[i]]
                == if bookings[i].passengerName == passengerName then multiset(bookings)[bookings[i]] else 0
  {
    FilterCounts(bookings, (b: Booking) => b.passengerName == passengerName);
  }

  class BookingRepository {
    var bookings: seq<Booking>

    constructor ()
      ensures bookings == []
    {
      bookings := [];
    }

    /** `findByFlightId`. */
    function FindByFlightId(flightId: string): (r: seq<Booking>)
      reads this
      ensures r == OfFlight(bookings, flightId)
    {
      OfFlight(bookings, flightId)
    }

    /** `save`: the booking is appended, and returned. */
    method Save(booking: Booking) returns (saved: Booking)
      modifies this
      ensures bookings == old(bookings) + [booking] && saved == booking
      ensures |FindByFlightId(booking.flightId)| == |old(FindByFlightId(booking.flightId))| + 1
      ensures forall f :: f != booking.flightId ==> FindByFlightId(f) == old(FindByFlightId(f))
    {
      OfFlightAppend(bookings, booking, booking.flightId);
      forall f | f != booking.flightId
        ensures OfFlight(bookings + [booking], f) == OfFlight(bookings, f)
      {
        OfFlightAppend(bookings, booking, f);
      }
      bookings := bookings + [booking];
      saved := booking;
    }
  }

  /** Which bookings `getBookings(flightId, passengerName)` selects: by a given
      flight id, and then by the name ignoring case; by the name alone (exactly)
      when no flight id is given; otherwise all of them. An empty string counts
      as not given. */
  predicate QueryMatches(b: Booking, flightId: Option<string>, passengerName: Option<string>) {
    if IsPresent(flightId) then
      b.flightId == flightId.value && (IsPresent(passengerName) ==> EqualsIgnoreCase(b.passengerName, passengerName.value))
    else
      IsPresent(passengerName) ==> b.passengerName == passengerName.value
  }

  /** `getBookings`, the same in all three revisions. */
  function GetBookings(repo: BookingRepository, flightId: Option<string>, passengerName: Option<string>): (r: seq<Booking>)
    reads repo
    ensures |r| <= |repo.bookings|
    ensures forall i :: 0 <= i < |r| ==> r[i] in repo.bookings && QueryMatches(r[i], flightId, passengerName)
    ensures forall i :: 0 <= i < |repo.bookings| && QueryMatches(repo.bookings[i], flightId, passengerName) ==>
                        repo.bookings[i] in r
  {
    if IsPresent(flightId) then
      var ofFlight := OfFlight(repo.bookings, flightId.value);
      if IsPresent(passengerName) then
        Filter(ofFlight, (b: Booking) => EqualsIgnoreCase(b.passengerName, passengerName.value))
      else ofFlight
    else if IsPresent(passengerName) then OfPassenger(repo.bookings, passengerName.value)
    else repo.bookings
  }

  /** Giving a name narrows a flight's bookings and never adds any. */
  lemma NameNarrowsFlightQuery(repo: BookingRepository, flightId: string, passengerName: string)
    requires flightId != ""
    ensures forall b :: b in GetBookings(repo, Some(flightId), Some(passengerName)) ==>
                        b in GetBookings(repo, Some(flightId), None)
  {
  }
}
