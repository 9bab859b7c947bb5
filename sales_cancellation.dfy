/** The sales revision's low-demand cancellation run
    (sales/domain/CancellationService.java): every flight the adapter offers is
    cancelled through its own low-demand transition, and each cancelled flight's
    bookings are refunded and its passengers notified once. */
module SalesCancellation {
  import opened Common
  import opened Flights
  import opened Bookings
  import opened Collaborators
  import opened BookingPersistence
  import opened SalesFleetAdapter
  import opened CancellationLogs

  /** The low-demand rule as a flight's snapshot sees it: it departs no later than
      the cutoff and has fewer bookings than its minimum. */
  predicate LowDemand(info: FlightInfo, bookings: int, cutoff: Instant) {
    !(info.departure > cutoff) && bookings < info.minPassengers
  }

  /** The candidates the run cancels, in candidate order. */
  function Cancellations(candidates: seq<FlightInfo>, bookings: seq<Booking>, cutoff: Instant): seq<FlightInfo> {
    if candidates == [] then []
    else
      var c := candidates[|candidates| - 1];
      Cancellations(candidates[..|candidates| - 1], bookings, cutoff)
      + (if LowDemand(c, |OfFlight(bookings, c.id)|, cutoff) then [c] else [])
  }

  /** The cancellations are exactly the low-demand candidates. */
  lemma {:induction false} CancellationsMembers(candidates: seq<FlightInfo>, bookings: seq<Booking>, cutoff: Instant)
    ensures var r := Cancellations(candidates, bookings, cutoff);
      && |r| <= |candidates|
      && (forall i :: 0 <= i < |r| ==> r[i] in candidates && LowDemand(r[i], |OfFlight(bookings, r[i].id)|, cutoff))
      && (forall i :: 0 <= i < |candidates| && LowDemand(candidates[i], |OfFlight(bookings, candidates[i].id)|, cutoff) ==>
                       candidates[i] in r)
  {
    if candidates != [] {
      var front := candidates[..|candidates| - 1];
      CancellationsMembers(front, bookings, cutoff);
      assert candidates == front + [candidates[|candidates| - 1]];
    }
  }

  /** Looking at one more candidate adds it to the cancellations exactly when its
      demand is low. */
  lemma CancellationsStep(candidates: seq<FlightInfo>, i: int, bookings: seq<Booking>, cutoff: Instant)
    requires 0 <= i < |candidates|
    ensures var c := candidates[i];
      Cancellations(candidates[..i + 1], bookings, cutoff)
        == Cancellations(candidates[..i], bookings, cutoff)
           + (if LowDemand(c, |OfFlight(bookings, c.id)|, cutoff) then [c] else [])
  {
    assert candidates[..i + 1][..i] == candidates[..i];
  }

  /** Distinct candidates: the one at position `i` is not among the cancellations
      of those before it. */
  lemma NotYetCancelled(candidates: seq<FlightInfo>, i: int, bookings: seq<Booking>, cutoff: Instant)
    requires Distinct(Ids(candidates)) && 0 <= i < |candidates|
    ensures candidates[i].id !in Ids(Cancellations(candidates[..i], bookings, cutoff))
  {
    var cancelled := Cancellations(candidates[..i], bookings, cutoff);
    CancellationsMembers(candidates[..i], bookings, cutoff);
    forall m | 0 <= m < |cancelled|
      ensures cancelled[m].id != candidates[i].id
    {
      var j :| 0 <= j < i && candidates[..i][j] == cancelled[m];
      assert Ids(candidates)[j] != Ids(candidates)[i];
    }
  }

  /** The run's counter and logs after the candidates before position `i`. */
  ghost predicate LogsAfter(candidates: seq<FlightInfo>, i: int, bookings: seq<Booking>, cutoff: Instant, count: int,
                            refunds0: seq<PaymentCall>, refunds: seq<PaymentCall>, notices0: seq<Notice>, notices: seq<Notice>)
    requires 0 <= i <= |candidates|
  {
    var cancelled := Cancellations(candidates[..i], bookings, cutoff);
    && count == |cancelled|
    && refunds == refunds0 + Refunds(Ids(cancelled), bookings)
    && notices == notices0 + Notices(Ids(cancelled), bookings)
  }

  /** Processing the candidate at position `i` moves the counter and logs on by
      its refunds and notice when its demand is low, and leaves them otherwise. */
  lemma LogsAdvance(candidates: seq<FlightInfo>, i: int, bookings: seq<Booking>, cutoff: Instant, count: int,
                    refunds0: seq<PaymentCall>, refunds: seq<PaymentCall>, notices0: seq<Notice>, notices: seq<Notice>,
                    cancelled: bool)
    requires 0 <= i < |candidates| && LogsAfter(candidates, i, bookings, cutoff, count, refunds0, refunds, notices0, notices)
    requires cancelled <==> LowDemand(candidates[i], |OfFlight(bookings, candidates[i].id)|, cutoff)
    ensures var ofFlight := OfFlight(bookings, candidates[i].id);
      LogsAfter(candidates, i + 1, bookings, cutoff, count + (if cancelled then 1 else 0),
                refunds0, refunds + (if cancelled then RefundsFor(ofFlight) else []),
                notices0, notices + (if cancelled then [CancellationNotice(candidates[i].id, ofFlight)] else []))
  {
    var soFar := Cancellations(candidates[..i], bookings, cutoff);
    CancellationsStep(candidates, i, bookings, cutoff);
    if cancelled {
      IdsAppend(soFar, candidates[i]);
      LogsStep(refunds0, notices0, Ids(soFar), candidates[i].id, bookings, refunds, notices);
    } else {
      assert soFar + [] == soFar;
      assert refunds + [] == refunds && notices + [] == notices;
    }
  }

  class CancellationService {
    const flightInfoProvider: FleetAdapter
    const bookingRepository: BookingRepository
    const paymentGateway: PaymentGateway
    const notificationService: NotificationService

    constructor (flightInfoProvider: FleetAdapter, bookingRepository: BookingRepository,
                 paymentGateway: PaymentGateway, notificationService: NotificationService)
      ensures this.flightInfoProvider == flightInfoProvider && this.bookingRepository == bookingRepository
      ensures this.paymentGateway == paymentGateway && this.notificationService == notificationService
    {
      this.flightInfoProvider := flightInfoProvider;
      this.bookingRepository := bookingRepository;
      this.paymentGateway := paymentGateway;
      this.notificationService := notificationService;
    }

    /** The adapter's stores are consistent and it counts in this service's store. */
    ghost predicate Valid()
      reads flightInfoProvider.flightRepository, flightInfoProvider.flightRepository.flights.Values`id
      reads flightInfoProvider.rocketRepository, flightInfoProvider.rocketRepository.rockets.Values`id
    {
      flightInfoProvider.Valid() && flightInfoProvider.bookingRepository == bookingRepository
    }

    /** One pass of the loop of `cancelFlights`, for a candidate whose flight is
        still SCHEDULED: cancelled exactly when its demand is low, and then
        refunded and notified. */
    method ProcessCandidate(flight: FlightInfo, cutoffDate: Instant) returns (cancelled: bool)
      requires Valid() && flight.id in flightInfoProvider.flightRepository.flights
      requires var f := flightInfoProvider.flightRepository.flights[flight.id];
               f.status == Scheduled && f.departure == flight.departure && f.minPassengers == flight.minPassengers
      modifies paymentGateway`log, notificationService`log
      modifies flightInfoProvider.flightRepository.flights.Values`status
      ensures Valid()
      ensures var ofFlight := OfFlight(bookingRepository.bookings, flight.id);
        && (cancelled <==> LowDemand(flight, |ofFlight|, cutoffDate))
        && paymentGateway.log == old(paymentGateway.log) + (if cancelled then RefundsFor(ofFlight) else [])
        && notificationService.log == old(notificationService.log)
             + (if cancelled then [CancellationNotice(flight.id, ofFlight)] else [])
      ensures flightInfoProvider.flightRepository.flights[flight.id].status == (if cancelled then Cancelled else Scheduled)
      ensures forall g :: g in flightInfoProvider.flightRepository.flights.Values
                          && g != flightInfoProvider.flightRepository.flights[flight.id] ==>
                          g.status == old(g.status)
    {
      var bookings := bookingRepository.FindByFlightId(flight.id);
      cancelled := flightInfoProvider.CancelFlightIfLowDemand(flight.id, |bookings|, cutoffDate);
      if !cancelled {
        return;
      }
      RefundAndNotify(paymentGateway, notificationService, flight.id, bookings);
    }

    /** Every candidate's flight is stored, departs and has the minimum its
        snapshot says. */
    ghost predicate SnapshotsMatch(candidates: seq<FlightInfo>)
      reads flightInfoProvider.flightRepository, flightInfoProvider.flightRepository.flights.Values
    {
      forall j :: 0 <= j < |candidates| ==>
        && candidates[j].id in flightInfoProvider.flightRepository.flights
        && var f := flightInfoProvider.flightRepository.flights[candidates[j].id];
           f.departure == candidates[j].departure && f.minPassengers == candidates[j].minPassengers
    }

    /** The candidates before position `i` are cancelled when their demand is low
        and the rest are still SCHEDULED. */
    ghost predicate StatusesAfter(candidates: seq<FlightInfo>, i: int, cutoffDate: Instant)
      requires SnapshotsMatch(candidates)
      reads flightInfoProvider.flightRepository, flightInfoProvider.flightRepository.flights.Values, bookingRepository
    {
      forall j :: 0 <= j < |candidates| ==>
        flightInfoProvider.flightRepository.flights[candidates[j].id].status
          == (if j < i && LowDemand(candidates[j], |OfFlight(bookingRepository.bookings, candidates[j].id)|, cutoffDate)
              then Cancelled else Scheduled)
    }

    /** After the candidates before position `i`: `count` flights cancelled, and
        their refunds and notices logged after `refunds0` and `notices0`. */
    ghost predicate Progress(candidates: seq<FlightInfo>, i: int, cutoffDate: Instant, count: int,
                             refunds0: seq<PaymentCall>, notices0: seq<Notice>)
      requires 0 <= i <= |candidates|
      reads paymentGateway, notificationService, bookingRepository
    {
      LogsAfter(candidates, i, bookingRepository.bookings, cutoffDate, count,
                refunds0, paymentGateway.log, notices0, notificationService.log)
    }

    /** The stored flights that are not candidates have the statuses `before`. */
    ghost predicate OthersAsBefore(candidates: seq<FlightInfo>, before: map<string, FlightStatus>)
      reads flightInfoProvider.flightRepository, flightInfoProvider.flightRepository.flights.Values
    {
      forall k :: k in flightInfoProvider.flightRepository.flights && k !in Ids(candidates) ==>
        k in before && flightInfoProvider.flightRepository.flights[k].status == before[k]
    }

    /** The pass of the loop for the candidate at position `i`: it is cancelled
        exactly when its demand is low, and the run's progress moves on by one. */
    method CancelAt(flightsToCancel: seq<FlightInfo>, i: int, cutoffDate: Instant, count: nat,
                    ghost refunds0: seq<PaymentCall>, ghost notices0: seq<Notice>, ghost before: map<string, FlightStatus>)
      returns (cancelled: bool)
      requires Valid() && Distinct(Ids(flightsToCancel)) && 0 <= i < |flightsToCancel|
      requires SnapshotsMatch(flightsToCancel) && StatusesAfter(flightsToCancel, i, cutoffDate)
      requires Progress(flightsToCancel, i, cutoffDate, count, refunds0, notices0)
      requires OthersAsBefore(flightsToCancel, before)
      modifies paymentGateway`log, notificationService`log
      modifies flightInfoProvider.flightRepository.flights.Values`status
      ensures Valid() && SnapshotsMatch(flightsToCancel) && StatusesAfter(flightsToCancel, i + 1, cutoffDate)
      ensures Progress(flightsToCancel, i + 1, cutoffDate, count + (if cancelled then 1 else 0), refunds0, notices0)
      ensures OthersAsBefore(flightsToCancel, before)
      ensures flightInfoProvider.flightRepository.flights == old(flightInfoProvider.flightRepository.flights)
      ensures cancelled <==> LowDemand(flightsToCancel[i], |OfFlight(bookingRepository.bookings, flightsToCancel[i].id)|, cutoffDate)
    {
      ghost var flights := flightInfoProvider.flightRepository.flights;
      ghost var bookings := bookingRepository.bookings;
      ghost var refundsBefore := paymentGateway.log;
      ghost var noticesBefore := notificationService.log;
      var flight := flightsToCancel[i];
      cancelled := ProcessCandidate(flight, cutoffDate);
      flightInfoProvider.flightRepository.OthersAreOtherFlights(flight.id);
      DistinctIdsAt(flightsToCancel, i);
      LogsAdvance(flightsToCancel, i, bookings, cutoffDate, count, refunds0, refundsBefore, notices0, noticesBefore, cancelled);
    }

    /** The loop of `cancelFlights` over distinct candidates whose flights are
        still the SCHEDULED ones their snapshots describe. */
    method CancelCandidates(flightsToCancel: seq<FlightInfo>, cutoffDate: Instant) returns (cancelledCount: nat)
      requires Valid() && Distinct(Ids(flightsToCancel))
      requires SnapshotsMatch(flightsToCancel) && StatusesAfter(flightsToCancel, 0, cutoffDate)
      modifies paymentGateway`log, notificationService`log
      modifies flightInfoProvider.flightRepository.flights.Values`status
      ensures Valid() && SnapshotsMatch(flightsToCancel) && StatusesAfter(flightsToCancel, |flightsToCancel|, cutoffDate)
      ensures flightInfoProvider.flightRepository.flights == old(flightInfoProvider.flightRepository.flights)
      ensures var bookings := bookingRepository.bookings;
              var cancelled := Cancellations(flightsToCancel, bookings, cutoffDate);
        && cancelledCount == |cancelled|
        && paymentGateway.log == old(paymentGateway.log) + Refunds(Ids(cancelled), bookings)
        && notificationService.log == old(notificationService.log) + Notices(Ids(cancelled), bookings)
      ensures forall k :: k in flightInfoProvider.flightRepository.flights && k !in Ids(flightsToCancel) ==>
        flightInfoProvider.flightRepository.flights[k].status == old(flightInfoProvider.flightRepository.flights[k].status)
    {
      ghost var flights := flightInfoProvider.flightRepository.flights;
      ghost var before := map k | k in flights :: flights[k].status;
      cancelledCount := 0;
      var i := 0;
      assert flightsToCancel[..0] == [];
      while i < |flightsToCancel|
        invariant 0 <= i <= |flightsToCancel| && Valid() && flightInfoProvider.flightRepository.flights == flights
        invariant SnapshotsMatch(flightsToCancel) && StatusesAfter(flightsToCancel, i, cutoffDate)
        invariant Progress(flightsToCancel, i, cutoffDate, cancelledCount, old(paymentGateway.log), old(notificationService.log))
        invariant OthersAsBefore(flightsToCancel, before)
      {
        var cancelled := CancelAt(flightsToCancel, i, cutoffDate, cancelledCount,
                                  old(paymentGateway.log), old(notificationService.log), before);
        if cancelled {
          cancelledCount := cancelledCount + 1;
        }
        i := i + 1;
      }
      assert flightsToCancel[..i] == flightsToCancel;
    }

    /** `cancelFlights`, with `now` for the clock. `candidates` is the list the
        adapter returned; the run cancels exactly its low-demand members, refunds
        their bookings, sends one notice each, and returns how many it cancelled. */
    method CancelFlights(now: Instant) returns (cancelledCount: nat, ghost candidates: seq<FlightInfo>)
      requires Valid()
      modifies paymentGateway`log, notificationService`log
      modifies flightInfoProvider.flightRepository.flights.Values`status
      ensures Valid() && flightInfoProvider.flightRepository.flights == old(flightInfoProvider.flightRepository.flights)
      // The candidates: the SCHEDULED future flights at most 7 whole days away, each once.
      ensures forall i :: 0 <= i < |candidates| ==>
        && candidates[i].id in flightInfoProvider.flightRepository.flights
        && old(IsCancellationCandidate(flightInfoProvider.flightRepository.flights[candidates[i].id], now))
        && old(flightInfoProvider.GetFlightById(candidates[i].id)) == Some(candidates[i])
      ensures forall k :: k in flightInfoProvider.flightRepository.flights
                          && old(IsCancellationCandidate(flightInfoProvider.flightRepository.flights[k], now)) ==>
                          k in Ids(candidates)
      ensures Distinct(Ids(candidates))
      ensures var bookings := bookingRepository.bookings;
              var cancelled := Cancellations(candidates, bookings, PlusDays(now, 7));
        && cancelledCount == |cancelled|
        && paymentGateway.log == old(paymentGateway.log) + Refunds(Ids(cancelled), bookings)
        && notificationService.log == old(notificationService.log) + Notices(Ids(cancelled), bookings)
      // Each candidate is cancelled exactly when its demand is low, and stays
      // SCHEDULED otherwise; no other flight changes.
      ensures forall i :: 0 <= i < |candidates| ==>
        flightInfoProvider.flightRepository.flights[candidates[i].id].status
          == (if LowDemand(candidates[i], |OfFlight(bookingRepository.bookings, candidates[i].id)|, PlusDays(now, 7))
              then Cancelled else Scheduled)
      ensures forall k :: k in flightInfoProvider.flightRepository.flights && k !in Ids(candidates) ==>
        flightInfoProvider.flightRepository.flights[k].status == old(flightInfoProvider.flightRepository.flights[k].status)
    {
      var cutoffDate := PlusDays(now, 7);
      var flightsToCancel := flightInfoProvider.GetFlightsForCancellation(cutoffDate, 5, now);
      candidates := flightsToCancel;
      cancelledCount := CancelCandidates(flightsToCancel, cutoffDate);
    }
  }
}
