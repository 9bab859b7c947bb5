/** The fleet's flight aggregate (fleet/domain/models/Flight.java): schedule-time
    validation, and the status state machine whose guarded transitions are the
    only writes to a flight besides its id. */
module Flights {
  import opened Common
  import opened Capacities

  datatype FlightStatus = Scheduled | Confirmed | SoldOut | Cancelled

  /** `FlightStatus.name()`. */
  function StatusName(s: FlightStatus): string {
    match s
    case Scheduled => "SCHEDULED"
    case Confirmed => "CONFIRMED"
    case SoldOut => "SOLD_OUT"
    case Cancelled => "CANCELLED"
  }

  /** `FlightStatus.valueOf(name)`; None where Java throws IllegalArgumentException. */
  function StatusValueOf(name: string): (r: Option<FlightStatus>)
    ensures r.Some? ==> StatusName(r.value) == name
    ensures r.None? ==> forall s :: StatusName(s) != name
  {
    if name == "SCHEDULED" then Some(Scheduled)
    else if name == "CONFIRMED" then Some(Confirmed)
    else if name == "SOLD_OUT" then Some(SoldOut)
    else if name == "CANCELLED" then Some(Cancelled)
    else None
  }

  lemma StatusNameRoundTrip(s: FlightStatus)
    ensures StatusValueOf(StatusName(s)) == Some(s)
  {
  }

  // ---------------------------------------------------------------------------
  // Schedule-time validation (`validateSchedule`).

  /** The checks of `validateSchedule`, each named after the way it fails. */
  datatype ScheduleViolation =
    | PriceNotPositive
    | DepartureMissing
    | DepartureNotInFuture
    | DepartureBeyondOneYear
    | MinNotPositive
    | MinAboveCapacity

  /** The position of each check in `validateSchedule`. */
  function ScheduleCheckRank(v: ScheduleViolation): nat {
    match v
    case PriceNotPositive => 0
    case DepartureMissing => 1
    case DepartureNotInFuture => 2
    case DepartureBeyondOneYear => 3
    case MinNotPositive => 4
    case MinAboveCapacity => 5
  }

  /** Whether check `v` fails. `yearLater` stands for `now.plusYears(1)`. */
  predicate ScheduleCheckFails(v: ScheduleViolation, departure: Option<Instant>, basePrice: real,
                               minPassengers: int, capacity: Capacity, now: Instant, yearLater: Instant)
  {
    match v
    case PriceNotPositive => basePrice <= 0.0
    case DepartureMissing => departure.None?
    case DepartureNotInFuture => departure.Some? && !(departure.value > now)
    case DepartureBeyondOneYear => departure.Some? && departure.value > yearLater
    case MinNotPositive => minPassengers <= 0
    case MinAboveCapacity => minPassengers > MaxPassengers(capacity)
  }

  /** The check `validateSchedule` raises VALIDATION for: the first failing one
      in source order, or None when all pass. */
  function FirstScheduleViolation(departure: Option<Instant>, basePrice: real, minPassengers: int,
                                  capacity: Capacity, now: Instant, yearLater: Instant): (r: Option<ScheduleViolation>)
    ensures r.Some? ==>
      && ScheduleCheckFails(r.value, departure, basePrice, minPassengers, capacity, now, yearLater)
      && forall v :: ScheduleCheckRank(v) < ScheduleCheckRank(r.value) ==>
           !ScheduleCheckFails(v, departure, basePrice, minPassengers, capacity, now, yearLater)
    ensures r.None? <==>
      forall v :: !ScheduleCheckFails(v, departure, basePrice, minPassengers, capacity, now, yearLater)
  {
    if basePrice <= 0.0 then Some(PriceNotPositive)
    else if departure.None? then Some(DepartureMissing)
    else if !(departure.value > now) then Some(DepartureNotInFuture)
    else if departure.value > yearLater then Some(DepartureBeyondOneYear)
    else if minPassengers <= 0 then Some(MinNotPositive)
    else if minPassengers > MaxPassengers(capacity) then Some(MinAboveCapacity)
    else None
  }

  /** What passing every schedule check guarantees about the new flight. */
  lemma ScheduleAcceptedMeans(departure: Option<Instant>, basePrice: real, minPassengers: int,
                              capacity: Capacity, now: Instant, yearLater: Instant)
    requires FirstScheduleViolation(departure, basePrice, minPassengers, capacity, now, yearLater).None?
    ensures basePrice > 0.0
    ensures departure.Some? && now < departure.value <= yearLater
    ensures 1 <= minPassengers <= MaxPassengers(capacity)
  {
    assert !ScheduleCheckFails(PriceNotPositive, departure, basePrice, minPassengers, capacity, now, yearLater);
    assert !ScheduleCheckFails(DepartureMissing, departure, basePrice, minPassengers, capacity, now, yearLater);
    assert !ScheduleCheckFails(DepartureNotInFuture, departure, basePrice, minPassengers, capacity, now, yearLater);
    assert !ScheduleCheckFails(DepartureBeyondOneYear, departure, basePrice, minPassengers, capacity, now, yearLater);
    assert !ScheduleCheckFails(MinNotPositive, departure, basePrice, minPassengers, capacity, now, yearLater);
    assert !ScheduleCheckFails(MinAboveCapacity, departure, basePrice, minPassengers, capacity, now, yearLater);
  }

  // ---------------------------------------------------------------------------
  // The status state machine, as functions on a status value.

  /** A request to one of the three guarded transitions. */
  datatype FlightEvent =
    | ConfirmAttempt(passengers: int)                // confirmIfMinReached
    | SoldOutMark                                   // markSoldOut
    | LowDemandCancel(passengers: int, cutoff: Instant) // cancelDueToLowDemand

  /** Whether the guard of the requested transition holds. */
  predicate Fires(s: FlightStatus, e: FlightEvent, departure: Instant, minPassengers: int) {
    match e
    case ConfirmAttempt(n) => s == Scheduled && n >= minPassengers
    case SoldOutMark => s != Cancelled
    case LowDemandCancel(n, cutoff) => s == Scheduled && !(departure > cutoff) && n < minPassengers
  }

  function Target(e: FlightEvent): FlightStatus {
    match e
    case ConfirmAttempt(_) => Confirmed
    case SoldOutMark => SoldOut
    case LowDemandCancel(_, _) => Cancelled
  }

  /** The status after one transition request. */
  function Step(s: FlightStatus, e: FlightEvent, departure: Instant, minPassengers: int): FlightStatus {
    if Fires(s, e, departure, minPassengers) then Target(e) else s
  }

  /** The status after a sequence of transition requests. */
  function Run(s: FlightStatus, events: seq<FlightEvent>, departure: Instant, minPassengers: int): FlightStatus
    decreases |events|
  {
    if events == [] then s else Run(Step(s, events[0], departure, minPassengers), events[1..], departure, minPassengers)
  }

  /** The moves of the state machine: SCHEDULED to CONFIRMED, SOLD_OUT or CANCELLED,
      CONFIRMED to SOLD_OUT, and staying put. */
  predicate Allowed(from: FlightStatus, to: FlightStatus) {
    || from == to
    || (from == Scheduled && to != Scheduled)
    || (from == Confirmed && to == SoldOut)
  }

  /** Every single transition is a move of the state machine. */
  lemma StepAllowed(s: FlightStatus, e: FlightEvent, departure: Instant, minPassengers: int)
    ensures Allowed(s, Step(s, e, departure, minPassengers))
  {
  }

  /** Every run of transitions ends in a state the machine can reach. */
  lemma {:induction false} RunAllowed(s: FlightStatus, events: seq<FlightEvent>, departure: Instant, minPassengers: int)
    ensures Allowed(s, Run(s, events, departure, minPassengers))
    decreases |events|
  {
    if events != [] {
      var t := Step(s, events[0], departure, minPassengers);
      StepAllowed(s, events[0], departure, minPassengers);
      RunAllowed(t, events[1..], departure, minPassengers);
    }
  }

  /** CANCELLED is absorbing: no transition request ever leaves it. */
  lemma {:induction false} CancelledIsAbsorbing(events: seq<FlightEvent>, departure: Instant, minPassengers: int)
    ensures Run(Cancelled, events, departure, minPassengers) == Cancelled
    decreases |events|
  {
    if events != [] {
      assert Step(Cancelled, events[0], departure, minPassengers) == Cancelled;
      CancelledIsAbsorbing(events[1..], departure, minPassengers);
    }
  }

  /** SOLD_OUT only ever goes to SOLD_OUT. */
  lemma {:induction false} SoldOutIsAbsorbing(events: seq<FlightEvent>, departure: Instant, minPassengers: int)
    ensures Run(SoldOut, events, departure, minPassengers) == SoldOut
    decreases |events|
  {
    if events != [] {
      assert Step(SoldOut, events[0], departure, minPassengers) == SoldOut;
      SoldOutIsAbsorbing(events[1..], departure, minPassengers);
    }
  }

  /** A confirmation that fired cannot fire again, so it is notified once;
      marking sold out twice is the same as once. */
  lemma TransitionsIdempotent(s: FlightStatus, n: int, m: int, departure: Instant, minPassengers: int)
    ensures Fires(s, ConfirmAttempt(n), departure, minPassengers) ==>
      !Fires(Step(s, ConfirmAttempt(n), departure, minPassengers), ConfirmAttempt(m), departure, minPassengers)
    ensures Step(Step(s, SoldOutMark, departure, minPassengers), SoldOutMark, departure, minPassengers)
         == Step(s, SoldOutMark, departure, minPassengers)
  {
  }

  // ---------------------------------------------------------------------------
  // The aggregate.

  class Flight {
    var id: Option<string>
    const rocketId: string
    const departure: Instant
    const basePrice: real
    var status: FlightStatus
    const minPassengers: int
    const capacity: Capacity

    /** `Flight.restore`, and the private constructor behind `schedule`:
        every field as given, with no validation. */
    constructor Restore(id: Option<string>, rocketId: string, departure: Instant, basePrice: real,
                        status: FlightStatus, minPassengers: int, capacity: Capacity)
      ensures this.id == id && this.rocketId == rocketId && this.departure == departure
      ensures this.basePrice == basePrice && this.status == status
      ensures this.minPassengers == minPassengers && this.capacity == capacity
    {
      this.id := id;
      this.rocketId := rocketId;
      this.departure := departure;
      this.basePrice := basePrice;
      this.status := status;
      this.minPassengers := minPassengers;
      this.capacity := capacity;
    }

    /** What `schedule` guarantees of every flight it creates. */
    predicate WellFormed() {
      basePrice > 0.0 && 1 <= minPassengers <= MaxPassengers(capacity)
    }

    /** `Flight.schedule`: VALIDATION on the first failing check, otherwise a new
        SCHEDULED flight with no id and the given data. */
    static method Schedule(rocketId: string, departure: Option<Instant>, basePrice: real, capacity: Capacity,
                           minPassengers: int, now: Instant, yearLater: Instant) returns (r: Result<Flight>)
      ensures r.Err? <==> FirstScheduleViolation(departure, basePrice, minPassengers, capacity, now, yearLater).Some?
      ensures r.Err? ==> r.code == Validation
      ensures r.Ok? ==> && fresh(r.value) && r.value.id.None? && r.value.status == Scheduled
                        && r.value.rocketId == rocketId && departure == Some(r.value.departure)
                        && r.value.basePrice == basePrice && r.value.minPassengers == minPassengers
                        && r.value.capacity == capacity && r.value.WellFormed()
                        && now < r.value.departure <= yearLater
    {
      if FirstScheduleViolation(departure, basePrice, minPassengers, capacity, now, yearLater).Some? {
        return Err(Validation);
      }
      ScheduleAcceptedMeans(departure, basePrice, minPassengers, capacity, now, yearLater);
      var f := new Flight.Restore(None, rocketId, departure.value, basePrice, Scheduled, minPassengers, capacity);
      return Ok(f);
    }

    /** `confirmIfMinReached`. */
    method ConfirmIfMinReached(currentPassengers: int) returns (confirmed: bool)
      modifies this`status
      ensures confirmed <==> old(status) == Scheduled && currentPassengers >= minPassengers
      ensures status == (if confirmed then Confirmed else old(status))
      ensures status == Step(old(status), ConfirmAttempt(currentPassengers), departure, minPassengers)
    {
      if status == Scheduled && currentPassengers >= minPassengers {
        status := Confirmed;
        return true;
      }
      return false;
    }

    /** `markSoldOut`. */
    method MarkSoldOut()
      modifies this`status
      ensures status == (if old(status) == Cancelled then Cancelled else SoldOut)
      ensures status == Step(old(status), SoldOutMark, departure, minPassengers)
    {
      if status != Cancelled {
        status := SoldOut;
      }
    }

    /** `canAcceptNewPassenger`: never for a CANCELLED or SOLD_OUT flight, otherwise
        exactly when boarding one more would pass `ensureCanBoard`. */
    function CanAcceptNewPassenger(currentPassengers: int): (ok: bool)
      reads this
      ensures ok <==> status != Cancelled && status != SoldOut && EnsureCanBoard(capacity, currentPassengers).Pass?
      ensures ok ==> currentPassengers < MaxPassengers(capacity)
    {
      if status == Cancelled || status == SoldOut then false else !IsFull(capacity, currentPassengers)
    }

    /** `cancelDueToLowDemand`. */
    method CancelDueToLowDemand(currentPassengers: int, cutoff: Instant) returns (cancelled: bool)
      modifies this`status
      ensures cancelled <==> old(status) == Scheduled && departure <= cutoff && currentPassengers < minPassengers
      ensures status == (if cancelled then Cancelled else old(status))
      ensures status == Step(old(status), LowDemandCancel(currentPassengers, cutoff), departure, minPassengers)
    {
      if status != Scheduled {
        return false;
      }
      if departure > cutoff {
        return false;
      }
      if currentPassengers >= minPassengers {
        return false;
      }
      status := Cancelled;
      return true;
    }

    /** `assignId`. */
    method AssignId(newId: string)
      modifies this`id
      ensures id == Some(newId)
    {
      id := Some(newId);
    }
  }
}
