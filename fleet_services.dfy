/** The fleet's use cases (fleet/domain/FlightsService.java and
    fleet/domain/RocketsService.java): listing and creating flights and rockets
    over the in-memory stores. */
module FleetServices {
  import opened Common
  import opened Capacities
  import opened Flights
  import opened Rockets
  import opened FleetPersistence

  /** `DEFAULT_MIN_PASSENGERS`. */
  const DefaultMinPassengers := 5

  /** `CreateFlightCommand`; the minimum is a nullable Integer. */
  datatype CreateFlightCommand = CreateFlightCommand(
    rocketId: string, departureDate: Option<Instant>, basePrice: real, minPassengers: Option<int>)

  /** The rocket command's record is not part of this model; its fields are taken
      from the way `saveRocket` reads them. */
  datatype CreateRocketCommand = CreateRocketCommand(name: Option<string>, capacity: int, maxSpeed: Option<real>)

  /** The minimum a command asks for: the default when it gives none or a
      non-positive one. */
  function RequestedMin(minPassengers: Option<int>): (n: int)
    ensures n >= 1
    ensures minPassengers.Some? && minPassengers.value > 0 ==> n == minPassengers.value
    ensures minPassengers.None? || minPassengers.value <= 0 ==> n == DefaultMinPassengers
  {
    if minPassengers.None? || minPassengers.value <= 0 then DefaultMinPassengers else minPassengers.value
  }

  /** The requested minimum, clamped to the rocket's capacity. */
  function EffectiveMin(minPassengers: Option<int>, capacity: Capacity): (n: int)
    ensures 1 <= n <= MaxPassengers(capacity)
    ensures n <= RequestedMin(minPassengers)
    ensures n == RequestedMin(minPassengers) || n == MaxPassengers(capacity)
  {
    var requested := RequestedMin(minPassengers);
    if requested <= MaxPassengers(capacity) then requested else MaxPassengers(capacity)
  }

  /** The clamped minimum passes both of `schedule`'s minimum checks, so a
      flight the service builds can only fail on its price or departure. */
  lemma EffectiveMinPassesMinChecks(command: CreateFlightCommand, capacity: Capacity, now: Instant, yearLater: Instant)
    ensures var v := FirstScheduleViolation(command.departureDate, command.basePrice,
                                            EffectiveMin(command.minPassengers, capacity), capacity, now, yearLater);
      v.Some? ==> v.value in {PriceNotPositive, DepartureMissing, DepartureNotInFuture, DepartureBeyondOneYear}
  {
  }

  class FlightsService {
    const flightRepository: FlightInMemoryRepository
    const rocketRepository: RocketRepository

    constructor (flightRepository: FlightInMemoryRepository, rocketRepository: RocketRepository)
      ensures this.flightRepository == flightRepository && this.rocketRepository == rocketRepository
    {
      this.flightRepository := flightRepository;
      this.rocketRepository := rocketRepository;
    }

    ghost predicate Valid()
      reads flightRepository, flightRepository.flights.Values`id, rocketRepository, rocketRepository.rockets.Values`id
    {
      flightRepository.Valid() && rocketRepository.Valid()
    }

    /** `getFlights`: by status name when a non-empty filter is given, otherwise
        every future flight. */
    method GetFlights(statusFilter: Option<string>, now: Instant) returns (r: seq<Flight>)
      ensures Distinct(r)
      ensures !IsPresent(statusFilter) ==> forall f :: f in r <==> f in flightRepository.flights.Values && f.departure > now
      ensures IsPresent(statusFilter) ==>
        var wanted := StatusValueOf(ToUpper(statusFilter.value));
        && (wanted.None? ==> r == [])
        && (wanted.Some? ==>
              forall f :: f in r <==> f in flightRepository.flights.Values && f.departure > now && f.status == wanted.value)
    {
      if IsPresent(statusFilter) {
        r := flightRepository.FindByStatus(statusFilter.value, now);
      } else {
        r := flightRepository.FindAll(now);
      }
    }

    /** `createFlight`. `now` and `yearLater` stand for the clock and
        `now.plusYears(1)`. */
    method CreateFlight(command: CreateFlightCommand, now: Instant, yearLater: Instant) returns (r: Result<Flight>)
      requires Valid()
      modifies flightRepository
      ensures Valid()
      // An unknown rocket: NOT_FOUND, and nothing is saved.
      ensures command.rocketId !in rocketRepository.rockets ==> r == Err(NotFound) && unchanged(flightRepository)
      ensures command.rocketId in rocketRepository.rockets ==>
        var capacity := rocketRepository.rockets[command.rocketId].capacity;
        var minPassengers := EffectiveMin(command.minPassengers, capacity);
        var violation := FirstScheduleViolation(command.departureDate, command.basePrice, minPassengers,
                                                capacity, now, yearLater);
        && (r.Err? <==> violation.Some?)
        && (r.Err? ==> r.code == Validation && unchanged(flightRepository))
        // Otherwise the new SCHEDULED flight takes the rocket's capacity and the
        // clamped minimum, gets the next generated id and is stored under it.
        && (r.Ok? ==>
              && fresh(r.value) && r.value.id == Some(FlightKey(old(flightRepository.nextId)))
              && r.value.status == Scheduled && r.value.rocketId == command.rocketId
              && command.departureDate == Some(r.value.departure) && r.value.basePrice == command.basePrice
              && r.value.minPassengers == minPassengers && r.value.capacity == capacity
              && r.value.WellFormed()
              && flightRepository.flights == old(flightRepository.flights)[r.value.id.value := r.value]
              && flightRepository.nextId == old(flightRepository.nextId) + 1)
    {
      var rocket := rocketRepository.FindById(command.rocketId);
      if rocket.None? {
        return Err(NotFound);
      }
      var minPassengers := EffectiveMin(command.minPassengers, rocket.value.capacity);
      var scheduled := Flight.Schedule(command.rocketId, command.departureDate, command.basePrice,
                                       rocket.value.capacity, minPassengers, now, yearLater);
      if scheduled.Err? {
        return Err(scheduled.code);
      }
      var saved := flightRepository.Save(scheduled.value);
      return Ok(saved);
    }
  }

  class RocketsService {
    const rocketRepository: RocketRepository

    constructor (rocketRepository: RocketRepository)
      ensures this.rocketRepository == rocketRepository
    {
      this.rocketRepository := rocketRepository;
    }

    /** `getAllRockets`: the store's `findAll`. */
    method GetAllRockets() returns (r: seq<Rocket>)
      ensures forall x :: x in r <==> x in rocketRepository.rockets.Values
      ensures Distinct(r) && |r| == |rocketRepository.rockets.Values|
    {
      r := rocketRepository.FindAll();
    }

    /** `saveRocket`: VALIDATION exactly when the capacity is outside 1..10 (the
        name is not checked); otherwise a new rocket with the command's fields is
        stored under the next generated id. */
    method SaveRocket(command: CreateRocketCommand) returns (r: Result<Rocket>)
      requires rocketRepository.Valid()
      modifies rocketRepository
      ensures rocketRepository.Valid()
      ensures r.Err? <==> !(MinCapacity <= command.capacity <= MaxCapacity)
      ensures r.Err? ==> r.code == Validation && unchanged(rocketRepository)
      ensures r.Ok? ==>
        && fresh(r.value) && r.value.id == Some(RocketKey(old(rocketRepository.nextId)))
        && r.value.name == command.name && MaxPassengers(r.value.capacity) == command.capacity
        && r.value.speed == command.maxSpeed
        && rocketRepository.rockets == old(rocketRepository.rockets)[r.value.id.value := r.value]
        && rocketRepository.nextId == old(rocketRepository.nextId) + 1
    {
      var capacity := From(command.capacity);
      if capacity.Err? {
        return Err(capacity.code);
      }
      var rocket := Rocket.Register(command.name, capacity.value, command.maxSpeed);
      var saved := rocketRepository.Save(rocket);
      return Ok(saved);
    }
  }
}
