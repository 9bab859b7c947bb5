/** How sales sees the fleet (sales/infrastructure/adapters/FleetAdapter.java):
    flight snapshots read from the fleet stores, and the status-changing port
    methods the sales services call. */
module SalesFleetAdapter {
  import opened Common
  import opened Capacities
  import opened Flights
  import opened Rockets
  import opened Bookings
  import opened FleetPersistence
  import opened BookingPersistence

  /** A flight as sales sees it. The capacity is the one `BookingsService` reads:
      a Capacity, absent when the rocket is unknown. */
  datatype FlightInfo = FlightInfo(id: string, rocketId: string, departure: Instant, basePrice: real,
                                   status: string, minPassengers: int, capacity: Option<Capacity>)

  /** The capacity as the port's record writes it: an int, 0 when unknown. */
  function CapacityOrZero(c: Option<Capacity>): (n: int)
    ensures c.None? <==> n == 0
    ensures c.Some? ==> n == MaxPassengers(c.value)
    ensures 0 <= n <= MaxCapacity
  {
    if c.Some? then MaxPassengers(c.value) else 0
  }

  /** Whether `getFlightsForCancellation` lists a flight `findAll` returned:
      SCHEDULED, departing after `now`, at most 7 whole days ahead. */
  predicate IsCancellationCandidate(f: Flight, now: Instant)
    reads f
  {
    f.departure > now && f.status == Scheduled && DaysBetween(now, f.departure) <= 7
  }

  /** The flight ids of a list of snapshots, in list order. */
  function Ids(r: seq<FlightInfo>): (ids: seq<string>)
    ensures |ids| == |r| && forall i :: 0 <= i < |r| ==> ids[i] == r[i].id
  {
    seq(|r|, i requires 0 <= i < |r| => r[i].id)
  }

  lemma IdsAppend(r: seq<FlightInfo>, x: FlightInfo)
    ensures Ids(r + [x]) == Ids(r) + [x.id]
  {
  }

  /** With distinct ids, no other snapshot has the id of the one at `i`. */
  lemma DistinctIdsAt(r: seq<FlightInfo>, i: int)
    requires Distinct(Ids(r)) && 0 <= i < |r|
    ensures forall j :: 0 <= j < |r| && j != i ==> r[j].id != r[i].id
  {
    forall j | 0 <= j < |r| && j != i
      ensures r[j].id != r[i].id
    {
      assert Ids(r)[j] != Ids(r)[i];
    }
  }

  class FleetAdapter {
    const flightRepository: FlightInMemoryRepository
    const rocketRepository: RocketRepository
    const bookingRepository: BookingRepository

    constructor (flightRepository: FlightInMemoryRepository, rocketRepository: RocketRepository,
                 bookingRepository: BookingRepository)
      ensures this.flightRepository == flightRepository && this.rocketRepository == rocketRepository
      ensures this.bookingRepository == bookingRepository
    {
      this.flightRepository := flightRepository;
      this.rocketRepository := rocketRepository;
      this.bookingRepository := bookingRepository;
    }

    ghost predicate Valid()
      reads flightRepository, flightRepository.flights.Values`id, rocketRepository, rocketRepository.rockets.Values`id
    {
      flightRepository.Valid() && rocketRepository.Valid()
    }

    /** The capacity of the rocket currently stored under `rocketId`. */
    function RocketCapacity(rocketId: string): (c: Option<Capacity>)
      reads rocketRepository, rocketRepository.rockets.Values`id
      ensures c.None? <==> rocketId !in rocketRepository.rockets
      ensures c.Some? ==> c.value == rocketRepository.rockets[rocketId].capacity
    {
      match rocketRepository.FindById(rocketId)
      case None => None
      case Some(r) => Some(r.capacity)
    }

    /** `getFlightById`: nothing for an unknown flight, otherwise a copy of the
        stored flight with its status name and its rocket's current capacity. */
    function GetFlightById(flightId: string): (r: Option<FlightInfo>)
      requires Valid()
      reads flightRepository, flightRepository.flights.Values, rocketRepository, rocketRepository.rockets.Values`id
      ensures r.None? <==> flightId !in flightRepository.flights
      ensures r.Some? ==>
        var f := flightRepository.flights[flightId];
        && r.value.id == flightId && f.id == Some(flightId)
        && r.value.rocketId == f.rocketId && r.value.departure == f.departure
        && r.value.basePrice == f.basePrice && r.value.minPassengers == f.minPassengers
        && StatusValueOf(r.value.status) == Some(f.status)
        && r.value.capacity == RocketCapacity(f.rocketId)
    {
      match flightRepository.FindById(flightId)
      case None => None
      case Some(f) =>
        StatusNameRoundTrip(f.status);
        Some(FlightInfo(f.id.value, f.rocketId, f.departure, f.basePrice, StatusName(f.status), f.minPassengers,
                        RocketCapacity(f.rocketId)))
    }

    /** `getRocketCapacityForFlight`: 0 when the flight or its rocket is unknown,
        and the capacity the flight's snapshot carries otherwise. */
    function GetRocketCapacityForFlight(flightId: string): (n: int)
      requires Valid()
      reads flightRepository, flightRepository.flights.Values, rocketRepository, rocketRepository.rockets.Values`id
      ensures 0 <= n <= MaxCapacity
      ensures flightId !in flightRepository.flights ==> n == 0
      ensures flightId in flightRepository.flights ==>
        n == CapacityOrZero(GetFlightById(flightId).value.capacity)
        && (n == 0 <==> flightRepository.flights[flightId].rocketId !in rocketRepository.rockets)
    {
      match flightRepository.FindById(flightId)
      case None => 0
      case Some(f) =>
        match rocketRepository.FindById(f.rocketId)
        case None => 0
        case Some(rocket) => rocket.GetCapacity()
    }

    /** `getCurrentPassengerCount`: the number of stored bookings for the flight. */
    function GetCurrentPassengerCount(flightId: string): (n: nat)
      reads bookingRepository
      ensures n == |OfFlight(bookingRepository.bookings, flightId)|
    {
      |bookingRepository.FindByFlightId(flightId)|
    }

    /** `canAcceptPassengers`: false for an unknown flight, a CANCELLED or SOLD_OUT
        one, or one whose rocket is unknown; otherwise whether the bookings so far
        are below the rocket's capacity. */
    function CanAcceptPassengers(flightId: string): (ok: bool)
      reads flightRepository, flightRepository.flights.Values, rocketRepository, rocketRepository.rockets.Values`id
      reads bookingRepository
      ensures ok <==>
        && flightId in flightRepository.flights
        && flightRepository.flights[flightId].status != Cancelled
        && flightRepository.flights[flightId].status != SoldOut
        && RocketCapacity(flightRepository.flights[flightId].rocketId).Some?
        && GetCurrentPassengerCount(flightId) < MaxPassengers(RocketCapacity(flightRepository.flights[flightId].rocketId).value)
    {
      match flightRepository.FindById(flightId)
      case None => false
      case Some(f) =>
        if f.status == Cancelled || f.status == SoldOut then false
        else
          match rocketRepository.FindById(f.rocketId)
          case None => false
          case Some(rocket) => GetCurrentPassengerCount(flightId) < rocket.GetCapacity()
    }

    /** When the adapter says yes, the snapshot is bookable and carries a capacity
        that admits one more passenger: the INTERNAL and the second CAPACITY
        failure of `createBooking` cannot then occur. */
    lemma AcceptedFlightIsBoardable(flightId: string)
      requires Valid() && CanAcceptPassengers(flightId)
      ensures GetFlightById(flightId).Some?
      ensures var info := GetFlightById(flightId).value;
              && info.status != "CANCELLED" && info.status != "SOLD_OUT"
              && info.capacity.Some?
              && EnsureCanBoard(info.capacity.value, GetCurrentPassengerCount(flightId)).Pass?
    {
      var f := flightRepository.flights[flightId];
      var info := GetFlightById(flightId).value;
      assert StatusName(f.status) == info.status by {
        StatusNameRoundTrip(f.status);
      }
    }

    /** The adapter asks the current rocket, the flight asks the capacity it was
        scheduled with; while the two agree the answers are the same. */
    lemma AdapterAgreesWithFlight(flightId: string)
      requires Valid() && flightId in flightRepository.flights
      requires RocketCapacity(flightRepository.flights[flightId].rocketId) == Some(flightRepository.flights[flightId].capacity)
      ensures CanAcceptPassengers(flightId)
           == flightRepository.flights[flightId].CanAcceptNewPassenger(GetCurrentPassengerCount(flightId))
    {
    }

    /** `getFlightsForCancellation`: one snapshot per flight `findAll` returns that
        is SCHEDULED and at most 7 whole days away, in `findAll` order. Its
        `cutoffDate` and `minPassengers` arguments are not used. */
    /** The snapshots of some stored flights, in the same order. */
    function Snapshots(fs: seq<Flight>): (r: seq<FlightInfo>)
      requires Valid() && forall i :: 0 <= i < |fs| ==> fs[i] in flightRepository.flights.Values
      reads flightRepository, flightRepository.flights.Values, rocketRepository, rocketRepository.rockets.Values`id
      ensures |r| == |fs|
      ensures forall i :: 0 <= i < |fs| ==>
        && fs[i].id.Some? && r[i].id == fs[i].id.value && flightRepository.flights[r[i].id] == fs[i]
        && GetFlightById(r[i].id) == Some(r[i])
    {
      if fs == [] then []
      else
        var f := fs[|fs| - 1];
        flightRepository.StoredFlightIsKeyed(f);
        Snapshots(fs[..|fs| - 1]) + [GetFlightById(f.id.value).value]
    }

    /** The stored flights `getFlightsForCancellation` keeps from `findAll`, each
        once, in `findAll` order. */
    method CandidateFlights(now: Instant) returns (picked: seq<Flight>)
      ensures forall f :: f in picked <==> f in flightRepository.flights.Values && IsCancellationCandidate(f, now)
      ensures Distinct(picked)
    {
      var all := flightRepository.FindAll(now);
      picked := [];
      var i := 0;
      while i < |all|
        invariant 0 <= i <= |all|
        invariant forall f :: f in picked <==> f in all[..i] && IsCancellationCandidate(f, now)
        invariant Distinct(picked)
      {
        var f := all[i];
        assert all[..i + 1] == all[..i] + [f];
        if f.status == Scheduled && DaysBetween(now, f.departure) <= 7 {
          assert f !in all[..i];
          picked := picked + [f];
        }
        i := i + 1;
      }
      assert all[..i] == all;
    }

    method GetFlightsForCancellation(cutoffDate: Instant, minPassengers: int, now: Instant) returns (r: seq<FlightInfo>)
      requires Valid()
      ensures forall i :: 0 <= i < |r| ==>
        && r[i].id in flightRepository.flights
        && IsCancellationCandidate(flightRepository.flights[r[i].id], now)
        && GetFlightById(r[i].id) == Some(r[i])
      ensures forall k :: k in flightRepository.flights && IsCancellationCandidate(flightRepository.flights[k], now) ==>
        k in Ids(r)
      ensures Distinct(Ids(r))
    {
      var picked := CandidateFlights(now);
      r := Snapshots(picked);
      forall k | k in flightRepository.flights && IsCancellationCandidate(flightRepository.flights[k], now)
        ensures k in Ids(r)
      {
        var j :| 0 <= j < |picked| && picked[j] == flightRepository.flights[k];
        assert Ids(r)[j] == k;
      }
    }

    // -------------------------------------------------------------------------
    // Status changes. The source calls them on the port but neither the port nor
    // the adapter shows them: here each one delegates to the stored Flight's own
    // transition, and does nothing for an unknown flight.

    /** `updateFlightStatus`: nothing for an unknown flight; otherwise the status
        named is written as is, bypassing the Flight's guards. An unknown name
        makes `FlightStatus.valueOf` throw, surfacing as INTERNAL. */
    method UpdateFlightStatus(flightId: string, status: string) returns (r: Outcome)
      requires Valid()
      modifies flightRepository, flightRepository.flights.Values
      ensures Valid() && flightRepository.flights == old(flightRepository.flights)
      ensures flightRepository.nextId == old(flightRepository.nextId)
      ensures r.Fail? <==> flightId in flightRepository.flights && StatusValueOf(status).None?
      ensures r.Fail? ==> r.code == Internal
      ensures forall g :: g in flightRepository.flights.Values ==>
        g.status == (if r.Pass? && Some(g) == flightRepository.FindById(flightId)
                     then StatusValueOf(status).value else old(g.status))
    {
      var fo := flightRepository.FindById(flightId);
      if fo.None? {
        return Pass;
      }
      var f := fo.value;
      var s := StatusValueOf(status);
      if s.None? {
        return Fail(Internal);
      }
      f.status := s.value;
      var _ := flightRepository.Save(f);
      r := Pass;
    }

    /** `markFlightSoldOut`, realised by `Flight.markSoldOut`. */
    method MarkFlightSoldOut(flightId: string)
      requires Valid()
      modifies flightRepository.flights.Values`status
      ensures flightId in flightRepository.flights ==>
        var f := flightRepository.flights[flightId];
        f.status == Step(old(f.status), SoldOutMark, f.departure, f.minPassengers)
      ensures forall g :: g in flightRepository.flights.Values
                          && (flightId !in flightRepository.flights || g != flightRepository.flights[flightId]) ==>
                          g.status == old(g.status)
    {
      var fo := flightRepository.FindById(flightId);
      if fo.Some? {
        fo.value.MarkSoldOut();
      }
    }

    /** `confirmFlightIfMinReached`, realised by `Flight.confirmIfMinReached`. */
    method ConfirmFlightIfMinReached(flightId: string, currentPassengers: int) returns (confirmed: bool)
      requires Valid()
      modifies flightRepository.flights.Values`status
      ensures confirmed <==> flightId in flightRepository.flights
                             && Fires(old(flightRepository.flights[flightId].status), ConfirmAttempt(currentPassengers),
                                      flightRepository.flights[flightId].departure,
                                      flightRepository.flights[flightId].minPassengers)
      ensures flightId in flightRepository.flights ==>
        var f := flightRepository.flights[flightId];
        f.status == Step(old(f.status), ConfirmAttempt(currentPassengers), f.departure, f.minPassengers)
      ensures forall g :: g in flightRepository.flights.Values
                          && (flightId !in flightRepository.flights || g != flightRepository.flights[flightId]) ==>
                          g.status == old(g.status)
    {
      var fo := flightRepository.FindById(flightId);
      confirmed := false;
      if fo.Some? {
        confirmed := fo.value.ConfirmIfMinReached(currentPassengers);
      }
    }

    /** `cancelFlightIfLowDemand`, realised by `Flight.cancelDueToLowDemand`. */
    method CancelFlightIfLowDemand(flightId: string, currentPassengers: int, cutoff: Instant) returns (cancelled: bool)
      requires Valid()
      modifies flightRepository.flights.Values`status
      ensures cancelled <==> flightId in flightRepository.flights
                             && Fires(old(flightRepository.flights[flightId].status),
                                      LowDemandCancel(currentPassengers, cutoff),
                                      flightRepository.flights[flightId].departure,
                                      flightRepository.flights[flightId].minPassengers)
      ensures flightId in flightRepository.flights ==>
        var f := flightRepository.flights[flightId];
        f.status == Step(old(f.status), LowDemandCancel(currentPassengers, cutoff), f.departure, f.minPassengers)
      ensures forall g :: g in flightRepository.flights.Values
                          && (flightId !in flightRepository.flights || g != flightRepository.flights[flightId]) ==>
                          g.status == old(g.status)
    {
      var fo := flightRepository.FindById(flightId);
      cancelled := false;
      if fo.Some? {
        cancelled := fo.value.CancelDueToLowDemand(currentPassengers, cutoff);
      }
    }
  }
}
