/** The low-demand cancellation run of the two older revisions
    (business/CancellationService.java and domain/CancellationService.java, the
    same loop): every stored flight that is SCHEDULED, at most 7 whole days from
    departure and below its minimum is set to CANCELLED directly and saved, its
    bookings are refunded and its passengers notified once. */
module LegacyCancellation {
  import opened Common
  import opened Flights
  import opened Bookings
  import opened Collaborators
  import opened BookingPersistence
  import opened CancellationLogs
  import opened LegacyPersistence

  /** A stored flight as the run first sees it: its id and the fields the rule reads. */
  datatype Snapshot = Snapshot(id: string, status: FlightStatus, departure: Instant, minPassengers: int)

  function Ids(s: seq<Snapshot>): (ids: seq<string>)
    ensures |ids| == |s| && forall i :: 0 <= i < |s| ==> ids[i] == s[i].id
  {
    seq(|s|, i requires 0 <= i < |s| => s[i].id)
  }

  lemma IdsAppend(s: seq<Snapshot>, x: Snapshot)
    ensures Ids(s + [x]) == Ids(s) + [x.id]
  {
    assert |Ids(s + [x])| == |Ids(s) + [x.id]|;
  }

  /** The rule of the loop: SCHEDULED, departing at most 7 whole days from `now`
      (a flight already gone counts too), and fewer bookings than its minimum. */
  predicate LowDemand(s: Snapshot, bookings: int, now: Instant) {
    s.status == Scheduled && DaysBetween(now, s.departure) <= 7 && bookings < s.minPassengers
  }

  /** The flights the run cancels, in the order it meets them. */
  function Cancellations(flights: seq<Snapshot>, bookings: seq<Booking>, now: Instant): seq<Snapshot> {
    if flights == [] then []
    else
      var f := flights[|flights| - 1];
      Cancellations(flights[..|flights| - 1], bookings, now)
      + (if LowDemand(f, |OfFlight(bookings, f.id)|, now) then [f] else [])
  }

  /** The cancellations are exactly the low-demand flights. */
  lemma {:induction false} CancellationsMembers(flights: seq<Snapshot>, bookings: seq<Booking>, now: Instant)
    ensures var r := Cancellations(flights, bookings, now);
      && |r| <= |flights|
      && (forall i :: 0 <= i < |r| ==> r[i] in flights && LowDemand(r[i], |OfFlight(bookings, r[i].id)|, now))
      && (forall i :: 0 <= i < |flights| && LowDemand(flights[i], |OfFlight(bookings, flights[i].id)|, now) ==>
                       flights[i] in r)
  {
    if flights != [] {
      var front := flights[..|flights| - 1];
      CancellationsMembers(front, bookings, now);
      assert flights == front + [flights[|flights| - 1]];
    }
  }

  lemma CancellationsStep(flights: seq<Snapshot>, i: int, bookings: seq<Booking>, now: Instant)
    requires 0 <= i < |flights|
    ensures var f := flights[i];
      Cancellations(flights[..i + 1], bookings, now)
        == Cancellations(flights[..i], bookings, now) + (if LowDemand(f, |OfFlight(bookings, f.id)|, now) then [f] else [])
  {
    assert flights[..i + 1][..i] == flights[..i];
  }

  /** The run's counter and logs after the flights before position `i`. */
  ghost predicate LogsAfter(flights: seq<Snapshot>, i: int, bookings: seq<Booking>, now: Instant, count: int,
                            refunds0: seq<PaymentCall>, refunds: seq<PaymentCall>, notices0: seq<Notice>, notices: seq<Notice>)
    requires 0 <= i <= |flights|
  {
    var cancelled := Cancellations(flights[..i], bookings, now);
    && count == |cancelled|
    && refunds == refunds0 + Refunds(Ids(cancelled), bookings)
    && notices == notices0 + Notices(Ids(cancelled), bookings)
  }

  /** Processing the flight at position `i` moves the counter and logs on by its
      refunds and notice when its demand is low, and leaves them otherwise. */
  lemma LogsAdvance(flights: seq<Snapshot>, i: int, bookings: seq<Booking>, now: Instant, count: int,
                    refunds0: seq<PaymentCall>, refunds: seq<PaymentCall>, notices0: seq<Notice>, notices: seq<Notice>,
                    cancelled: bool)
    requires 0 <= i < |flights| && LogsAfter(flights, i, bookings, now, count, refunds0, refunds, notices0, notices)
    requires cancelled <==> LowDemand(flights[i], |OfFlight(bookings, flights[i].id)|, now)
    ensures var ofFlight := OfFlight(bookings, flights[i].id);
      LogsAfter(flights, i + 1, bookings, now, count + (if cancelled then 1 else 0),
                refunds0, refunds + (if cancelled then RefundsFor(ofFlight) else []),
                notices0, notices + (if cancelled then [CancellationNotice(flights[i].id, ofFlight)] else []))
  {
    var soFar := Cancellations(flights[..i], bookings, now);
    CancellationsStep(flights, i, bookings, now);
    if cancelled {
      IdsAppend(soFar, flights[i]);
      LogsStep(refunds0, notices0, Ids(soFar), flights[i].id, bookings, refunds, notices);
    } else {
      assert soFar + [] == soFar;
      assert refunds + [] == refunds && notices + [] == notices;
    }
  }

  /** The snapshot of a flight that has an id. */
  ghost function SnapshotOf(f: LegacyFlight): Snapshot
    requires f.id.Some?
    reads f
  {
    Snapshot(f.id.value, f.status, f.departure, f.minPassengers)
  }

  /** The snapshots of flights that all have ids, position by position. */
  ghost function SnapshotsOf(fs: seq<LegacyFlight>): (snaps: seq<Snapshot>)
    requires forall j :: 0 <= j < |fs| ==> fs[j].id.Some?
    reads fs
    ensures |snaps| == |fs| && forall j :: 0 <= j < |fs| ==> snaps[j] == SnapshotOf(fs[j])
  {
    if fs == [] then [] else SnapshotsOf(fs[..|fs| - 1]) + [SnapshotOf(fs[|fs| - 1])]
  }

  class CancellationService {
    const flightRepository: LegacyFlightRepository
    const bookingRepository: BookingRepository
    const paymentGateway: PaymentGateway
    const notificationService: NotificationService

    constructor (flightRepository: LegacyFlightRepository, bookingRepository: BookingRepository,
                 paymentGateway: PaymentGateway, notificationService: NotificationService)
      ensures this.flightRepository == flightRepository && this.bookingRepository == bookingRepository
      ensures this.paymentGateway == paymentGateway && this.notificationService == notificationService
    {
      this.flightRepository := flightRepository;
      this.bookingRepository := bookingRepository;
      this.paymentGateway := paymentGateway;
      this.notificationService := notificationService;
    }

    ghost predicate Valid()
      reads flightRepository, flightRepository.flights.Values`id
    {
      flightRepository.Valid()
    }

    /** One pass of the loop: the flight is cancelled exactly when its demand is
        low, and is then saved, refunded and notified. */
    method ProcessFlight(flight: LegacyFlight, now: Instant) returns (cancelled: bool)
      requires Valid() && flight in flightRepository.flights.Values && flight.id.Some?
      modifies flight`status, flight`id, flightRepository, paymentGateway`log, notificationService`log
      ensures Valid() && flight.id == old(flight.id)
      ensures flightRepository.flights == old(flightRepository.flights) && flightRepository.nextId == old(flightRepository.nextId)
      ensures var ofFlight := OfFlight(bookingRepository.bookings, flight.id.value);
        && (cancelled <==> LowDemand(old(SnapshotOf(flight)), |ofFlight|, now))
        && flight.status == (if cancelled then Cancelled else old(flight.status))
        && paymentGateway.log == old(paymentGateway.log) + (if cancelled then RefundsFor(ofFlight) else [])
        && notificationService.log == old(notificationService.log)
             + (if cancelled then [CancellationNotice(flight.id.value, ofFlight)] else [])
    {
      flightRepository.StoredFlightIsKeyed(flight);
      if flight.status != Scheduled {
        return false;
      }
      var daysUntilDeparture := DaysBetween(now, flight.departure);
      if daysUntilDeparture > 7 {
        return false;
      }
      var bookings := bookingRepository.FindByFlightId(flight.id.value);
      if |bookings| >= flight.minPassengers {
        return false;
      }
      flight.SetStatus(Cancelled);
      var _ := flightRepository.Save(flight);
      RefundAndNotify(paymentGateway, notificationService, flight.id.value, bookings);
      cancelled := true;
    }

    /** Each flight `fs[j]` is stored and `snaps[j]` records its id, departure and
        minimum. */
    ghost predicate SnapshotsMatch(fs: seq<LegacyFlight>, snaps: seq<Snapshot>)
      reads flightRepository, fs
    {
      && |fs| == |snaps|
      && forall j :: 0 <= j < |fs| ==>
           && fs[j] in flightRepository.flights.Values && fs[j].id == Some(snaps[j].id)
           && fs[j].departure == snaps[j].departure && fs[j].minPassengers == snaps[j].minPassengers
    }

    /** The flights before position `i` are cancelled when their demand was low;
        every other flight keeps the status its snapshot recorded. */
    ghost predicate StatusesAfter(fs: seq<LegacyFlight>, snaps: seq<Snapshot>, i: int, now: Instant)
      requires |fs| == |snaps|
      reads fs, bookingRepository
    {
      forall j :: 0 <= j < |fs| ==>
        fs[j].status == (if j < i && LowDemand(snaps[j], |OfFlight(bookingRepository.bookings, snaps[j].id)|, now)
                         then Cancelled else snaps[j].status)
    }

    /** After the flights before position `i`: `count` cancelled, and their refunds
        and notices logged after `refunds0` and `notices0`. */
    ghost predicate Progress(snaps: seq<Snapshot>, i: int, now: Instant, count: int,
                             refunds0: seq<PaymentCall>, notices0: seq<Notice>)
      requires 0 <= i <= |snaps|
      reads paymentGateway, notificationService, bookingRepository
    {
      LogsAfter(snaps, i, bookingRepository.bookings, now, count, refunds0, paymentGateway.log, notices0, notificationService.log)
    }

    /** The pass of the loop for the flight at position `i`. */
    method CancelAt(fs: seq<LegacyFlight>, ghost snaps: seq<Snapshot>, i: int, flight: LegacyFlight, now: Instant, count: nat,
                    ghost refunds0: seq<PaymentCall>, ghost notices0: seq<Notice>)
      returns (cancelled: bool)
      requires Valid() && Distinct(fs) && 0 <= i < |fs| && flight == fs[i]
      requires SnapshotsMatch(fs, snaps) && StatusesAfter(fs, snaps, i, now)
      requires Progress(snaps, i, now, count, refunds0, notices0)
      modifies flight`status, flight`id, flightRepository, paymentGateway`log, notificationService`log
      ensures Valid() && SnapshotsMatch(fs, snaps) && StatusesAfter(fs, snaps, i + 1, now)
      ensures Progress(snaps, i + 1, now, count + (if cancelled then 1 else 0), refunds0, notices0)
      ensures flightRepository.flights == old(flightRepository.flights) && flightRepository.nextId == old(flightRepository.nextId)
      ensures cancelled <==> LowDemand(snaps[i], |OfFlight(bookingRepository.bookings, snaps[i].id)|, now)
    {
      ghost var bookings := bookingRepository.bookings;
      ghost var refundsBefore := paymentGateway.log;
      ghost var noticesBefore := notificationService.log;
      cancelled := ProcessFlight(flight, now);
      LogsAdvance(snaps, i, bookings, now, count, refunds0, refundsBefore, notices0, noticesBefore, cancelled);
    }

    /** The flights `findAll` returned, with their snapshots, are where the loop
        starts: each has an id, their ids are distinct, every stored id is among
        them, and each is stored under its own id. */
    lemma RunStart(fs: seq<LegacyFlight>, now: Instant)
      requires Valid() && Distinct(fs)
      requires forall f :: f in fs <==> f in flightRepository.flights.Values
      ensures forall j :: 0 <= j < |fs| ==> fs[j].id.Some?
      ensures var snaps := SnapshotsOf(fs);
        && SnapshotsMatch(fs, snaps) && StatusesAfter(fs, snaps, 0, now)
        && Distinct(Ids(snaps))
        && (forall k :: k in flightRepository.flights ==> k in Ids(snaps))
        && (forall j :: 0 <= j < |snaps| ==> snaps[j].id in flightRepository.flights && flightRepository.flights[snaps[j].id] == fs[j])
    {
      forall j | 0 <= j < |fs|
        ensures fs[j].id.Some? && fs[j].id.value in flightRepository.flights && flightRepository.flights[fs[j].id.value] == fs[j]
      {
        flightRepository.StoredFlightIsKeyed(fs[j]);
      }
      var snaps := SnapshotsOf(fs);
      forall k | k in flightRepository.flights
        ensures k in Ids(snaps)
      {
        assert flightRepository.flights[k] in flightRepository.flights.Values;
        var j :| 0 <= j < |fs| && fs[j] == flightRepository.flights[k];
        assert Ids(snaps)[j] == k;
      }
    }

    /** Where the loop ends, read through the store: each flight is cancelled
        exactly when its demand was low. */
    lemma RunEnd(fs: seq<LegacyFlight>, snaps: seq<Snapshot>, now: Instant)
      requires SnapshotsMatch(fs, snaps) && StatusesAfter(fs, snaps, |fs|, now)
      requires forall j :: 0 <= j < |snaps| ==> snaps[j].id in flightRepository.flights && flightRepository.flights[snaps[j].id] == fs[j]
      ensures forall j :: 0 <= j < |snaps| ==>
        flightRepository.flights[snaps[j].id].status
          == (if LowDemand(snaps[j], |OfFlight(bookingRepository.bookings, snaps[j].id)|, now)
              then Cancelled else snaps[j].status)
    {
    }

    /** The loop of `cancelFlights` over distinct stored flights `fs`, with
        `snaps` as they were before it. */
    method CancelAll(fs: seq<LegacyFlight>, ghost snaps: seq<Snapshot>, now: Instant) returns (cancelledCount: nat)
      requires Valid() && Distinct(fs) && SnapshotsMatch(fs, snaps) && StatusesAfter(fs, snaps, 0, now)
      modifies flightRepository, flightRepository.flights.Values`status, flightRepository.flights.Values`id
      modifies paymentGateway`log, notificationService`log
      ensures Valid() && SnapshotsMatch(fs, snaps) && StatusesAfter(fs, snaps, |fs|, now)
      ensures flightRepository.flights == old(flightRepository.flights) && flightRepository.nextId == old(flightRepository.nextId)
      ensures var bookings := bookingRepository.bookings;
              var cancelled := Cancellations(snaps, bookings, now);
        && cancelledCount == |cancelled|
        && paymentGateway.log == old(paymentGateway.log) + Refunds(Ids(cancelled), bookings)
        && notificationService.log == old(notificationService.log) + Notices(Ids(cancelled), bookings)
    {
      cancelledCount := 0;
      var i := 0;
      assert snaps[..0] == [];
      while i < |fs|
        invariant 0 <= i <= |fs| && Valid()
        invariant flightRepository.flights == old(flightRepository.flights) && flightRepository.nextId == old(flightRepository.nextId)
        invariant SnapshotsMatch(fs, snaps) && StatusesAfter(fs, snaps, i, now)
        invariant Progress(snaps, i, now, cancelledCount, old(paymentGateway.log), old(notificationService.log))
      {
        var cancelled := CancelAt(fs, snaps, i, fs[i], now, cancelledCount, old(paymentGateway.log), old(notificationService.log));
        if cancelled {
          cancelledCount := cancelledCount + 1;
        }
        i := i + 1;
      }
      assert snaps[..i] == snaps;
    }

    /** `cancelFlights`, with `now` for the clock. `candidates` records every
        stored flight as the run first met it; the run cancels exactly the
        low-demand ones, refunds their bookings, sends one notice each and
        returns how many it cancelled. */
    method CancelFlights(now: Instant) returns (cancelledCount: nat, ghost candidates: seq<Snapshot>)
      requires Valid()
      modifies flightRepository, flightRepository.flights.Values`status, flightRepository.flights.Values`id
      modifies paymentGateway`log, notificationService`log
      ensures Valid()
      ensures flightRepository.flights == old(flightRepository.flights) && flightRepository.nextId == old(flightRepository.nextId)
      // The candidates: every stored flight once, as it was before the run.
      ensures Distinct(Ids(candidates))
      ensures forall k :: k in flightRepository.flights ==> k in Ids(candidates)
      ensures forall j :: 0 <= j < |candidates| ==>
        candidates[j].id in flightRepository.flights && candidates[j] == old(SnapshotOf(flightRepository.flights[candidates[j].id]))
      ensures var bookings := bookingRepository.bookings;
              var cancelled := Cancellations(candidates, bookings, now);
        && cancelledCount == |cancelled|
        && paymentGateway.log == old(paymentGateway.log) + Refunds(Ids(cancelled), bookings)
        && notificationService.log == old(notificationService.log) + Notices(Ids(cancelled), bookings)
      // Each low-demand flight is cancelled; every other flight keeps its status.
      ensures forall j :: 0 <= j < |candidates| ==>
        flightRepository.flights[candidates[j].id].status
          == (if LowDemand(candidates[j], |OfFlight(bookingRepository.bookings, candidates[j].id)|, now)
              then Cancelled else candidates[j].status)
    {
      var flights := flightRepository.FindAll();
      RunStart(flights, now);
      candidates := SnapshotsOf(flights);
      cancelledCount := CancelAll(flights, candidates, now);
      RunEnd(flights, candidates, now);
    }
  }
}
