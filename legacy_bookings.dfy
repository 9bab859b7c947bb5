/** The booking workflow of the two older revisions
    (business/BookingServiceImpl.java and domain/BookingsService.java): checks
    against the flight and rocket stores, the discount, payment, the booking,
    and an unguarded status update of the flight. The two revisions differ only
    in the blank-field checks the `business` one runs first. */
module LegacyBookings {
  import opened Common
  import opened Flights
  import opened Rockets
  import opened Bookings
  import opened Pricing
  import opened Collaborators
  import opened FleetPersistence
  import opened BookingPersistence
  import opened LegacyPersistence

  datatype CreateBookingCommand = CreateBookingCommand(flightId: Option<string>, passengerName: Option<string>)

  // ---------------------------------------------------------------------------
  // The checks before payment.

  datatype BookingViolation =
    | FlightIdBlank | PassengerNameBlank | FlightNotFound | FlightNotBookable | RocketNotFound | FlightFull

  function BookingCheckRank(v: BookingViolation): nat {
    match v
    case FlightIdBlank => 0
    case PassengerNameBlank => 1
    case FlightNotFound => 2
    case FlightNotBookable => 3
    case RocketNotFound => 4
    case FlightFull => 5
  }

  /** VALIDATION, VALIDATION, NOT_FOUND, VALIDATION, NOT_FOUND and CAPACITY, in check order. */
  function BookingViolationCode(v: BookingViolation): ErrorCode {
    match v
    case FlightIdBlank => Validation
    case PassengerNameBlank => Validation
    case FlightNotFound => NotFound
    case FlightNotBookable => Validation
    case RocketNotFound => NotFound
    case FlightFull => CapacityError
  }

  /** What `createBooking` reads of the stored flight. */
  datatype FlightFacts = FlightFacts(status: FlightStatus, departure: Instant, basePrice: real, minPassengers: int)

  /** Whether check `v` fails, given the stored flight (if any), its rocket's
      capacity (if the rocket is stored) and the bookings so far. The blank-field
      checks exist in the `business` revision only. */
  predicate BookingCheckFails(revision: Revision, v: BookingViolation, command: CreateBookingCommand,
                              flight: Option<FlightFacts>, capacity: Option<int>, currentBookings: nat)
  {
    match v
    case FlightIdBlank => revision == Business && IsNullOrBlank(command.flightId)
    case PassengerNameBlank => revision == Business && IsNullOrBlank(command.passengerName)
    case FlightNotFound => flight.None?
    case FlightNotBookable => flight.Some? && (flight.value.status == Cancelled || flight.value.status == SoldOut)
    case RocketNotFound => capacity.None?
    case FlightFull => capacity.Some? && currentBookings >= capacity.value
  }

  /** The check `createBooking` fails on: the first failing one in source order. */
  function FirstBookingViolation(revision: Revision, command: CreateBookingCommand, flight: Option<FlightFacts>,
                                 capacity: Option<int>, currentBookings: nat): (r: Option<BookingViolation>)
    ensures r.Some? ==>
      && BookingCheckFails(revision, r.value, command, flight, capacity, currentBookings)
      && forall v :: BookingCheckRank(v) < BookingCheckRank(r.value) ==>
           !BookingCheckFails(revision, v, command, flight, capacity, currentBookings)
    ensures r.None? <==> forall v :: !BookingCheckFails(revision, v, command, flight, capacity, currentBookings)
  {
    if revision == Business && IsNullOrBlank(command.flightId) then
      assert BookingCheckFails(revision, FlightIdBlank, command, flight, capacity, currentBookings);
      Some(FlightIdBlank)
    else if revision == Business && IsNullOrBlank(command.passengerName) then
      assert BookingCheckFails(revision, PassengerNameBlank, command, flight, capacity, currentBookings);
      Some(PassengerNameBlank)
    else if flight.None? then
      assert BookingCheckFails(revision, FlightNotFound, command, flight, capacity, currentBookings);
      Some(FlightNotFound)
    else if flight.value.status == Cancelled || flight.value.status == SoldOut then
      assert BookingCheckFails(revision, FlightNotBookable, command, flight, capacity, currentBookings);
      Some(FlightNotBookable)
    else if capacity.None? then
      assert BookingCheckFails(revision, RocketNotFound, command, flight, capacity, currentBookings);
      Some(RocketNotFound)
    else if currentBookings >= capacity.value then
      assert BookingCheckFails(revision, FlightFull, command, flight, capacity, currentBookings);
      Some(FlightFull)
    else None
  }

  /** On a command with a flight id and a passenger name that are both present
      and not blank, the two revisions reject and accept exactly alike. */
  lemma RevisionsAgreeOnFilledCommands(command: CreateBookingCommand, flight: Option<FlightFacts>,
                                       capacity: Option<int>, currentBookings: nat)
    requires !IsNullOrBlank(command.flightId) && !IsNullOrBlank(command.passengerName)
    ensures FirstBookingViolation(Business, command, flight, capacity, currentBookings)
         == FirstBookingViolation(Domain, command, flight, capacity, currentBookings)
  {
  }

  /** The `domain` revision never rejects a command for its fields: a missing
      flight id is only NOT_FOUND there. */
  lemma DomainHasNoFieldChecks(command: CreateBookingCommand, flight: Option<FlightFacts>,
                               capacity: Option<int>, currentBookings: nat)
    ensures var v := FirstBookingViolation(Domain, command, flight, capacity, currentBookings);
            v.Some? ==> v.value in {FlightNotFound, FlightNotBookable, RocketNotFound, FlightFull}
  {
  }

  /** The price `createBooking` asks for once every check passed. */
  datatype Quote = Quote(currentBookings: nat, capacity: int, discount: real, finalPrice: real)

  /** `calculateDiscount`: days are whole days from `now` to the departure. */
  function CalculateDiscount(flight: FlightFacts, currentBookings: int, capacity: int, now: Instant): real {
    Discount(currentBookings, capacity, flight.minPassengers, DaysBetween(now, flight.departure))
  }

  /** Everything `createBooking` decides before calling the payment gateway. */
  function BookingPrecheck(revision: Revision, command: CreateBookingCommand, flight: Option<FlightFacts>,
                           capacity: Option<int>, currentBookings: nat, now: Instant): (r: Result<Quote>)
    ensures r.Err? <==> FirstBookingViolation(revision, command, flight, capacity, currentBookings).Some?
    ensures r.Err? ==>
      r.code == BookingViolationCode(FirstBookingViolation(revision, command, flight, capacity, currentBookings).value)
    ensures r.Ok? ==>
      && flight.Some? && capacity.Some?
      && (flight.value.status == Scheduled || flight.value.status == Confirmed)
      && (revision == Business ==> !IsNullOrBlank(command.flightId) && !IsNullOrBlank(command.passengerName))
      && r.value.capacity == capacity.value && r.value.currentBookings == currentBookings
      && currentBookings + 1 <= r.value.capacity
      && r.value.discount == CalculateDiscount(flight.value, currentBookings, r.value.capacity, now)
      && r.value.finalPrice == FinalPrice(flight.value.basePrice, r.value.discount)
  {
    var v := FirstBookingViolation(revision, command, flight, capacity, currentBookings);
    if v.Some? then
      Err(BookingViolationCode(v.value))
    else
      assert !BookingCheckFails(revision, FlightIdBlank, command, flight, capacity, currentBookings);
      assert !BookingCheckFails(revision, PassengerNameBlank, command, flight, capacity, currentBookings);
      assert !BookingCheckFails(revision, FlightNotBookable, command, flight, capacity, currentBookings);
      assert !BookingCheckFails(revision, FlightFull, command, flight, capacity, currentBookings);
      var discount := CalculateDiscount(flight.value, currentBookings, capacity.value, now);
      Ok(Quote(currentBookings, capacity.value, discount, FinalPrice(flight.value.basePrice, discount)))
  }

  // ---------------------------------------------------------------------------
  // The status update after a booking.

  /** The status `createBooking` sets after the booking that brings the flight to
      `after` passengers: SOLD_OUT once the capacity is reached, whatever the
      status; otherwise CONFIRMED when a SCHEDULED flight reaches its minimum. */
  function StatusAfterBooking(s: FlightStatus, after: int, capacity: int, minPassengers: int): FlightStatus {
    if after >= capacity then SoldOut
    else if after >= minPassengers && s == Scheduled then Confirmed
    else s
  }

  /** Whether that update sends the confirmation notice. */
  predicate ConfirmationSent(s: FlightStatus, after: int, capacity: int, minPassengers: int) {
    after < capacity && after >= minPassengers && s == Scheduled
  }

  /** On a flight the checks let through, the unguarded update does what the
      guarded transitions of the newer flight entity do: the last seat is
      `markSoldOut`, any other seat `confirmIfMinReached`, and the notice goes out
      exactly when that confirmation fires. So it only makes moves of the state
      machine. */
  lemma StatusAfterBookingFollowsMachine(s: FlightStatus, after: int, capacity: int, minPassengers: int,
                                         departure: Instant)
    requires s == Scheduled || s == Confirmed
    ensures StatusAfterBooking(s, after, capacity, minPassengers)
         == if after >= capacity then Step(s, SoldOutMark, departure, minPassengers)
            else Step(s, ConfirmAttempt(after), departure, minPassengers)
    ensures ConfirmationSent(s, after, capacity, minPassengers)
        <==> after < capacity && Fires(s, ConfirmAttempt(after), departure, minPassengers)
    ensures Allowed(s, StatusAfterBooking(s, after, capacity, minPassengers))
  {
  }

  class BookingsService {
    const revision: Revision
    const bookingRepository: BookingRepository
    const flightRepository: LegacyFlightRepository
    const rocketRepository: RocketRepository
    const paymentGateway: PaymentGateway
    const notificationService: NotificationService

    constructor (revision: Revision, bookingRepository: BookingRepository, flightRepository: LegacyFlightRepository,
                 rocketRepository: RocketRepository, paymentGateway: PaymentGateway,
                 notificationService: NotificationService)
      ensures this.revision == revision && this.bookingRepository == bookingRepository
      ensures this.flightRepository == flightRepository && this.rocketRepository == rocketRepository
      ensures this.paymentGateway == paymentGateway && this.notificationService == notificationService
    {
      this.revision := revision;
      this.bookingRepository := bookingRepository;
      this.flightRepository := flightRepository;
      this.rocketRepository := rocketRepository;
      this.paymentGateway := paymentGateway;
      this.notificationService := notificationService;
    }

    ghost predicate Valid()
      reads flightRepository, flightRepository.flights.Values`id
    {
      flightRepository.Valid()
    }

    /** `flightRepository.findById(command.flightId())`; a null id finds nothing. */
    function FlightFor(flightId: Option<string>): (r: Option<LegacyFlight>)
      reads flightRepository, flightRepository.flights.Values`id
      ensures r.Some? <==> flightId.Some? && flightId.value in flightRepository.flights
      ensures r.Some? ==> r.value == flightRepository.flights[flightId.value]
    {
      if flightId.None? then None else flightRepository.FindById(flightId.value)
    }

    /** The stored flight's fields that the checks and the discount read. */
    function FactsFor(flightId: Option<string>): Option<FlightFacts>
      reads flightRepository, flightRepository.flights.Values
    {
      var f := FlightFor(flightId);
      if f.None? then None else Some(FlightFacts(f.value.status, f.value.departure, f.value.basePrice, f.value.minPassengers))
    }

    /** `rocket.getCapacity()` of the flight's rocket, when both are stored. */
    function CapacityFor(flightId: Option<string>): Option<int>
      reads flightRepository, flightRepository.flights.Values`id, rocketRepository
    {
      var f := FlightFor(flightId);
      if f.None? || f.value.rocketId !in rocketRepository.rockets then None
      else Some(rocketRepository.rockets[f.value.rocketId].GetCapacity())
    }

    /** The bookings stored so far for the command's flight. */
    function CountFor(flightId: Option<string>): nat
      reads bookingRepository
    {
      if flightId.None? then 0 else |OfFlight(bookingRepository.bookings, flightId.value)|
    }

    /** What `createBooking` decides before it asks for payment, on the current state. */
    function Precheck(command: CreateBookingCommand, now: Instant): Result<Quote>
      reads flightRepository, flightRepository.flights.Values, rocketRepository, bookingRepository
    {
      BookingPrecheck(revision, command, FactsFor(command.flightId), CapacityFor(command.flightId),
                      CountFor(command.flightId), now)
    }

    /** No booking saved, no flight changed and no notice sent. */
    twostate predicate NothingRecorded()
      reads bookingRepository, notificationService, flightRepository, flightRepository.flights.Values
    {
      && bookingRepository.bookings == old(bookingRepository.bookings)
      && notificationService.log == old(notificationService.log)
      && flightRepository.flights == old(flightRepository.flights)
      && flightRepository.nextId == old(flightRepository.nextId)
      && forall g :: g in old(flightRepository.flights.Values) ==> g.status == old(g.status)
    }

    /** What `createBooking` does once payment went through: the booking is
        appended, the flight `flight` (stored under the booking's flight id) takes
        the status `StatusAfterBooking` gives, one confirmation notice goes out
        exactly when `ConfirmationSent` says, and the store keeps its flights. */
    twostate predicate BookingRecorded(new booking: Booking, q: Quote, flight: LegacyFlight)
      reads bookingRepository, notificationService, flightRepository, flightRepository.flights.Values, flight
    {
      var id := booking.flightId;
      var after := q.currentBookings + 1;
      && flightRepository.flights == old(flightRepository.flights)
      && flightRepository.nextId == old(flightRepository.nextId)
      && id in flightRepository.flights && flightRepository.flights[id] == flight
      && bookingRepository.bookings == old(bookingRepository.bookings) + [booking]
      && |OfFlight(bookingRepository.bookings, id)| == after
      && flight.status == StatusAfterBooking(old(flight.status), after, q.capacity, flight.minPassengers)
      && notificationService.log == old(notificationService.log)
           + (if ConfirmationSent(old(flight.status), after, q.capacity, flight.minPassengers)
              then [Confirmation(id, after)] else [])
      && forall g :: g in old(flightRepository.flights.Values) && g != flight ==> g.status == old(g.status)
    }

    /** The checks and the quote, step by step as `createBooking` runs them. */
    method CheckBooking(command: CreateBookingCommand, now: Instant) returns (pre: Result<Quote>)
      requires Valid()
      ensures pre == Precheck(command, now)
      ensures pre.Ok? ==>
        && command.flightId.Some? && command.flightId.value in flightRepository.flights
        && pre.value.currentBookings == |OfFlight(bookingRepository.bookings, command.flightId.value)|
    {
      if revision == Business {
        if IsNullOrBlank(command.flightId) {
          return Err(Validation);
        }
        if IsNullOrBlank(command.passengerName) {
          return Err(Validation);
        }
      }
      var flight := FlightFor(command.flightId);
      if flight.None? {
        return Err(NotFound);
      }
      if flight.value.status == Cancelled || flight.value.status == SoldOut {
        return Err(Validation);
      }
      var rocket := rocketRepository.FindById(flight.value.rocketId);
      if rocket.None? {
        return Err(NotFound);
      }
      var existingBookings := bookingRepository.FindByFlightId(command.flightId.value);
      var capacity := rocket.value.GetCapacity();
      var currentBookings := |existingBookings|;
      if currentBookings >= capacity {
        return Err(CapacityError);
      }
      var discount := CalculateDiscount(FactsFor(command.flightId).value, currentBookings, capacity, now);
      pre := Ok(Quote(currentBookings, capacity, discount, FinalPrice(flight.value.basePrice, discount)));
    }

    /** Saving the booking, the status update, and saving the flight back. */
    method RecordBooking(booking: Booking, q: Quote, flight: LegacyFlight)
      requires Valid() && booking.flightId in flightRepository.flights && flightRepository.flights[booking.flightId] == flight
      requires q.currentBookings == |OfFlight(bookingRepository.bookings, booking.flightId)|
      modifies bookingRepository, notificationService`log, flightRepository, flight`status, flight`id
      ensures Valid() && BookingRecorded(booking, q, flight)
    {
      var _ := bookingRepository.Save(booking);
      OfFlightAppend(old(bookingRepository.bookings), booking, booking.flightId);
      var currentBookings := q.currentBookings + 1;
      if currentBookings >= q.capacity {
        flight.SetStatus(SoldOut);
      } else if currentBookings >= flight.minPassengers && flight.status == Scheduled {
        flight.SetStatus(Confirmed);
        notificationService.NotifyConfirmation(booking.flightId, currentBookings);
      }
      var _ := flightRepository.Save(flight);
    }

    /** Payment, then the booking with the command's fields verbatim and its
        recording, once every check passed with quote `q`. */
    method PayAndBook(command: CreateBookingCommand, q: Quote) returns (r: Result<Booking>, ghost reply: Result<string>)
      requires Valid() && command.flightId.Some? && command.flightId.value in flightRepository.flights
      requires command.passengerName.Some?
      requires q.currentBookings == |OfFlight(bookingRepository.bookings, command.flightId.value)|
      modifies bookingRepository, paymentGateway`log, notificationService`log, flightRepository
      modifies flightRepository.flights.Values`status, flightRepository.flights.Values`id
      ensures Valid()
      ensures paymentGateway.log == old(paymentGateway.log) + [Charge(q.finalPrice)]
      ensures reply.Err? ==> r == Err(Payment) && NothingRecorded()
      ensures reply.Ok? ==> r.Ok? && reply.value == r.value.paymentTransactionId
      ensures r.Ok? ==>
        && fresh(r.value) && r.value.id.None?
        && r.value.flightId == command.flightId.value && r.value.passengerName == command.passengerName.value
        && r.value.finalPrice == q.finalPrice
        && BookingRecorded(r.value, q, old(flightRepository.flights[command.flightId.value]))
    {
      var payment := paymentGateway.ProcessPayment(q.finalPrice);
      reply := payment;
      if payment.Err? {
        return Err(Payment), reply;
      }
      var booking := new Booking.Restore(None, command.flightId.value, command.passengerName.value, q.finalPrice,
                                         payment.value);
      assert NothingRecorded();
      RecordBooking(booking, q, flightRepository.flights[command.flightId.value]);
      r := Ok(booking);
    }

    /** `createBooking`, with `now` for the clock. `pre` is what the checks
        decided and `reply` the payment gateway's answer, when it was asked. */
    method CreateBooking(command: CreateBookingCommand, now: Instant)
      returns (r: Result<Booking>, ghost pre: Result<Quote>, ghost reply: Option<Result<string>>)
      requires Valid()
      requires revision == Domain ==> command.passengerName.Some?
      modifies bookingRepository, paymentGateway`log, notificationService`log, flightRepository
      modifies flightRepository.flights.Values`status, flightRepository.flights.Values`id
      ensures Valid() && pre == old(Precheck(command, now))
      // A failed check: that error, and nothing paid, saved, changed or sent.
      ensures pre.Err? ==>
        && r == Err(pre.code) && reply.None?
        && paymentGateway.log == old(paymentGateway.log) && NothingRecorded()
      // Otherwise exactly one charge, of the quoted price.
      ensures reply.Some? <==> pre.Ok?
      ensures pre.Ok? ==> paymentGateway.log == old(paymentGateway.log) + [Charge(pre.value.finalPrice)]
      // A refused payment is PAYMENT, with nothing saved, changed or sent; an
      // accepted one always ends in a booking.
      ensures reply.Some? && reply.value.Err? ==> r == Err(Payment) && NothingRecorded()
      ensures reply.Some? && reply.value.Ok? ==> r.Ok? && r.value.paymentTransactionId == reply.value.value
      // The booking: new, for this flight, under the name as given, at the
      // quoted price; the flight's bookings stay within the rocket's capacity.
      ensures r.Ok? ==>
        var q := pre.value;
        && pre.Ok? && fresh(r.value) && r.value.id.None?
        && r.value.flightId == command.flightId.value && r.value.passengerName == command.passengerName.value
        && r.value.finalPrice == q.finalPrice
        && |OfFlight(bookingRepository.bookings, r.value.flightId)| <= q.capacity
        && BookingRecorded(r.value, q, old(flightRepository.flights[command.flightId.value]))
    {
      reply := None;
      var checked := CheckBooking(command, now);
      pre := checked;
      if checked.Err? {
        return Err(checked.code), pre, reply;
      }
      ghost var answer;
      r, answer := PayAndBook(command, checked.value);
      reply := Some(answer);
    }
  }
}
