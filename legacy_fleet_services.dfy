/** The flight and rocket use cases of the two older revisions
    (business/FlightService.java, domain/FlightService.java,
    business/RocketService.java, business/RocketServiceImpl.java,
    domain/RocketService.java). Both flight services are the same code: the
    minimum is raised to at least 5 and checked against 10, never against the
    rocket's capacity. The rocket services differ only in the name check, which
    the `business/` ones have and the `domain/` one lacks. */
module LegacyFleetServices {
  import opened Common
  import opened Capacities
  import opened Rockets
  import Flights
  import opened FleetPersistence
  import opened FleetServices
  import opened LegacyPersistence

  /** `Math.max(minPassengers, DEFAULT_MIN_PASSENGERS)`. */
  function RaisedMin(minPassengers: int): (n: int)
    ensures n >= DefaultMinPassengers && n >= minPassengers
    ensures n == minPassengers || n == DefaultMinPassengers
  {
    if minPassengers >= DefaultMinPassengers then minPassengers else DefaultMinPassengers
  }

  /** The ways `createFlight` fails, each named after the check that raises it. */
  datatype FlightViolation =
    | MinMissing             // a null Integer unboxed by `Math.max`
    | BasePriceNotPositive
    | MinOutsideRange
    | UnknownRocket
    | NoDeparture            // a null date dereferenced by `isAfter`
    | DepartureNotAfterNow
    | DepartureAfterOneYear

  /** The position of each failure in `createFlight`: the `Math.max` of the
      bean's setup, then `validateFlight`'s checks in source order. */
  function FlightCheckRank(v: FlightViolation): nat {
    match v
    case MinMissing => 0
    case BasePriceNotPositive => 1
    case MinOutsideRange => 2
    case UnknownRocket => 3
    case NoDeparture => 4
    case DepartureNotAfterNow => 5
    case DepartureAfterOneYear => 6
  }

  /** The error each failure surfaces as; the two null dereferences are not
      business errors and surface as INTERNAL. */
  function FlightViolationCode(v: FlightViolation): ErrorCode {
    match v
    case MinMissing => Internal
    case BasePriceNotPositive => Validation
    case MinOutsideRange => Validation
    case UnknownRocket => NotFound
    case NoDeparture => Internal
    case DepartureNotAfterNow => Validation
    case DepartureAfterOneYear => Validation
  }

  /** Whether check `v` fails for `command`. `rocketKnown` says whether the
      store has the command's rocket; `yearLater` stands for `now.plusYears(1)`. */
  predicate FlightCheckFails(v: FlightViolation, command: CreateFlightCommand, rocketKnown: bool,
                             now: Instant, yearLater: Instant)
  {
    match v
    case MinMissing => command.minPassengers.None?
    case BasePriceNotPositive => command.basePrice <= 0.0
    case MinOutsideRange =>
      command.minPassengers.Some?
      && (RaisedMin(command.minPassengers.value) <= 0 || RaisedMin(command.minPassengers.value) > 10)
    case UnknownRocket => !rocketKnown
    case NoDeparture => command.departureDate.None?
    case DepartureNotAfterNow => command.departureDate.Some? && !(command.departureDate.value > now)
    case DepartureAfterOneYear => command.departureDate.Some? && command.departureDate.value > yearLater
  }

  /** How `createFlight` fails: the first failing check in source order, or
      None when all pass. */
  function FirstFlightViolation(command: CreateFlightCommand, rocketKnown: bool, now: Instant, yearLater: Instant)
    : (r: Option<FlightViolation>)
    ensures r.Some? ==>
      && FlightCheckFails(r.value, command, rocketKnown, now, yearLater)
      && forall v :: FlightCheckRank(v) < FlightCheckRank(r.value) ==>
           !FlightCheckFails(v, command, rocketKnown, now, yearLater)
    ensures r.None? ==> forall v :: !FlightCheckFails(v, command, rocketKnown, now, yearLater)
  {
    if command.minPassengers.None? then Some(MinMissing)
    else if command.basePrice <= 0.0 then Some(BasePriceNotPositive)
    else if RaisedMin(command.minPassengers.value) <= 0 || RaisedMin(command.minPassengers.value) > 10
    then Some(MinOutsideRange)
    else if !rocketKnown then Some(UnknownRocket)
    else if command.departureDate.None? then Some(NoDeparture)
    else if !(command.departureDate.value > now) then Some(DepartureNotAfterNow)
    else if command.departureDate.value > yearLater then Some(DepartureAfterOneYear)
    else None
  }

  /** What passing every check guarantees: a positive price, a known rocket, a
      departure within the coming year and a minimum of 5 to 10. */
  lemma FlightAcceptedMeans(command: CreateFlightCommand, rocketKnown: bool, now: Instant, yearLater: Instant)
    requires FirstFlightViolation(command, rocketKnown, now, yearLater).None?
    ensures command.basePrice > 0.0 && rocketKnown
    ensures command.departureDate.Some? && now < command.departureDate.value <= yearLater
    ensures command.minPassengers.Some?
    ensures DefaultMinPassengers <= RaisedMin(command.minPassengers.value) <= 10
  {
    assert !FlightCheckFails(MinMissing, command, rocketKnown, now, yearLater);
    assert !FlightCheckFails(BasePriceNotPositive, command, rocketKnown, now, yearLater);
    assert !FlightCheckFails(MinOutsideRange, command, rocketKnown, now, yearLater);
    assert !FlightCheckFails(UnknownRocket, command, rocketKnown, now, yearLater);
    assert !FlightCheckFails(NoDeparture, command, rocketKnown, now, yearLater);
    assert !FlightCheckFails(DepartureNotAfterNow, command, rocketKnown, now, yearLater);
    assert !FlightCheckFails(DepartureAfterOneYear, command, rocketKnown, now, yearLater);
  }

  /** A minimum above 10 is refused once the price is positive, however large
      the rocket; a minimum of 10 or less is never refused by the range check. */
  lemma MinRangeIsAgainstTen(command: CreateFlightCommand, rocketKnown: bool, now: Instant, yearLater: Instant)
    requires command.minPassengers.Some? && command.basePrice > 0.0
    ensures command.minPassengers.value > 10 <==>
      FirstFlightViolation(command, rocketKnown, now, yearLater) == Some(MinOutsideRange)
  {
  }

  /** The minimum is never compared with the rocket: on a rocket with fewer than
      5 seats an accepted flight's minimum exceeds the capacity, which the
      fleet's `schedule` refuses. */
  lemma MinNotBoundByCapacity(command: CreateFlightCommand, capacity: Capacity, now: Instant, yearLater: Instant)
    requires FirstFlightViolation(command, true, now, yearLater).None?
    requires MaxPassengers(capacity) < DefaultMinPassengers
    ensures RaisedMin(command.minPassengers.value) > MaxPassengers(capacity)
    ensures Flights.FirstScheduleViolation(command.departureDate, command.basePrice, RaisedMin(command.minPassengers.value),
                                           capacity, now, yearLater) == Some(Flights.MinAboveCapacity)
  {
    FlightAcceptedMeans(command, true, now, yearLater);
  }

  class FlightService {
    const flightRepository: LegacyFlightRepository
    const rocketRepository: RocketRepository

    constructor (flightRepository: LegacyFlightRepository, rocketRepository: RocketRepository)
      ensures this.flightRepository == flightRepository && this.rocketRepository == rocketRepository
    {
      this.flightRepository := flightRepository;
      this.rocketRepository := rocketRepository;
    }

    /** `getFlights`: by status name for a non-empty filter, otherwise every
        stored flight. */
    method GetFlights(statusFilter: Option<string>) returns (r: seq<LegacyFlight>)
      ensures Distinct(r)
      ensures !IsPresent(statusFilter) ==> forall f :: f in r <==> f in flightRepository.flights.Values
      ensures IsPresent(statusFilter) ==>
        var wanted := Flights.StatusValueOf(ToUpper(statusFilter.value));
        && (wanted.None? ==> r == [])
        && (wanted.Some? ==> forall f :: f in r <==> f in flightRepository.flights.Values && f.status == wanted.value)
    {
      if IsPresent(statusFilter) {
        r := flightRepository.FindByStatus(statusFilter.value);
      } else {
        r := flightRepository.FindAll();
      }
    }

    /** `createFlight`, with `now` for the clock and `yearLater` for
        `now.plusYears(1)`. A refused command saves nothing; an accepted one
        becomes a new SCHEDULED flight, with the raised minimum, stored under
        the next generated id. */
    method CreateFlight(command: CreateFlightCommand, now: Instant, yearLater: Instant) returns (r: Result<LegacyFlight>)
      requires flightRepository.Valid()
      modifies flightRepository
      ensures flightRepository.Valid()
      ensures var v := FirstFlightViolation(command, command.rocketId in rocketRepository.rockets, now, yearLater);
        && (r.Err? <==> v.Some?)
        && (r.Err? ==> r.code == FlightViolationCode(v.value) && unchanged(flightRepository))
      ensures r.Ok? ==>
        && fresh(r.value) && r.value.id == Some(FlightKey(old(flightRepository.nextId)))
        && r.value.status == Flights.Scheduled && r.value.rocketId == command.rocketId
        && command.departureDate == Some(r.value.departure) && r.value.basePrice == command.basePrice
        && command.minPassengers.Some? && r.value.minPassengers == RaisedMin(command.minPassengers.value)
        && flightRepository.flights == old(flightRepository.flights)[r.value.id.value := r.value]
        && flightRepository.nextId == old(flightRepository.nextId) + 1
    {
      if command.minPassengers.None? {
        return Err(Internal);
      }
      var minPassengers := RaisedMin(command.minPassengers.value);
      if command.basePrice <= 0.0 {
        return Err(Validation);
      }
      if minPassengers <= 0 || minPassengers > 10 {
        return Err(Validation);
      }
      var rocket := rocketRepository.FindById(command.rocketId);
      if rocket.None? {
        return Err(NotFound);
      }
      if command.departureDate.None? {
        return Err(Internal);
      }
      if !(command.departureDate.value > now) {
        return Err(Validation);
      }
      if command.departureDate.value > yearLater {
        return Err(Validation);
      }
      var flight := new LegacyFlight(None, command.rocketId, command.departureDate.value, command.basePrice,
                                     Flights.Scheduled, minPassengers);
      var saved := flightRepository.Save(flight);
      return Ok(saved);
    }
  }

  /** Whether a revision's rocket service refuses `command`: a missing or blank
      name in the `business/` revision, a capacity outside 1..10 in both. */
  predicate RocketRefused(revision: Revision, command: CreateRocketCommand) {
    (revision == Business && IsNullOrBlank(command.name)) || !(MinCapacity <= command.capacity <= MaxCapacity)
  }

  /** The `domain/` rocket rule is the fleet's `saveRocket` rule, and the
      `business/` rule adds the name check to it. */
  lemma RocketRulesCompared(command: CreateRocketCommand)
    ensures RocketRefused(Domain, command) <==> From(command.capacity).Err?
    ensures RocketRefused(Business, command) <==> RocketRefused(Domain, command) || IsNullOrBlank(command.name)
  {
  }

  class RocketService {
    const revision: Revision
    const rocketRepository: RocketRepository

    constructor (revision: Revision, rocketRepository: RocketRepository)
      ensures this.revision == revision && this.rocketRepository == rocketRepository
    {
      this.revision := revision;
      this.rocketRepository := rocketRepository;
    }

    /** `getAll`: the store's `findAll`. */
    method GetAll() returns (r: seq<Rocket>)
      ensures forall x :: x in r <==> x in rocketRepository.rockets.Values
      ensures Distinct(r) && |r| == |rocketRepository.rockets.Values|
    {
      r := rocketRepository.FindAll();
    }

    /** `create`: VALIDATION exactly when the revision's rule refuses the
        command, and then nothing is saved; otherwise one new rocket with the
        command's fields is stored under the next generated id and returned. */
    method Create(command: CreateRocketCommand) returns (r: Result<Rocket>)
      requires rocketRepository.Valid()
      modifies rocketRepository
      ensures rocketRepository.Valid()
      ensures r.Err? <==> RocketRefused(revision, command)
      ensures r.Err? ==> r.code == Validation && unchanged(rocketRepository)
      ensures r.Ok? ==>
        && fresh(r.value) && r.value.id == Some(RocketKey(old(rocketRepository.nextId)))
        && r.value.name == command.name && MaxPassengers(r.value.capacity) == command.capacity
        && r.value.speed == command.maxSpeed
        && rocketRepository.rockets == old(rocketRepository.rockets)[r.value.id.value := r.value]
        && rocketRepository.nextId == old(rocketRepository.nextId) + 1
    {
      if revision == Business && IsNullOrBlank(command.name) {
        return Err(Validation);
      }
      if command.capacity <= 0 || command.capacity > 10 {
        return Err(Validation);
      }
      var capacity := From(command.capacity);
      var rocket := Rocket.Register(command.name, capacity.value, command.maxSpeed);
      var saved := rocketRepository.Save(rocket);
      return Ok(saved);
    }
  }
}
