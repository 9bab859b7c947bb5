/** The sales booking workflow (sales/domain/BookingsService.java): fail-fast
    checks, the discount, payment, the booking itself, and the flight's status
    after it. */
module SalesBookings {
  import opened Common
  import opened Capacities
  import opened Flights
  import opened Bookings
  import opened Pricing
  import opened Collaborators
  import opened FleetPersistence
  import opened BookingPersistence
  import opened SalesFleetAdapter

  datatype CreateBookingCommand = CreateBookingCommand(flightId: Option<string>, passengerName: Option<string>)

  // ---------------------------------------------------------------------------
  // The checks before payment.

  datatype BookingViolation = FlightNotFound | FlightNotBookable | SeatsRefused | CapacityUnknown | FlightFull

  function BookingCheckRank(v: BookingViolation): nat {
    match v
    case FlightNotFound => 0
    case FlightNotBookable => 1
    case SeatsRefused => 2
    case CapacityUnknown => 3
    case FlightFull => 4
  }

  /** NOT_FOUND, VALIDATION, CAPACITY, INTERNAL and CAPACITY, in check order. */
  function BookingViolationCode(v: BookingViolation): ErrorCode {
    match v
    case FlightNotFound => NotFound
    case FlightNotBookable => Validation
    case SeatsRefused => CapacityError
    case CapacityUnknown => Internal
    case FlightFull => CapacityError
  }

  /** Whether check `v` fails, given the snapshot, the adapter's
      `canAcceptPassengers` answer and the number of bookings so far. */
  predicate BookingCheckFails(v: BookingViolation, info: Option<FlightInfo>, canAccept: bool, currentBookings: nat) {
    match v
    case FlightNotFound => info.None?
    case FlightNotBookable => info.Some? && (info.value.status == "CANCELLED" || info.value.status == "SOLD_OUT")
    case SeatsRefused => !canAccept
    case CapacityUnknown => info.Some? && info.value.capacity.None?
    case FlightFull => info.Some? && info.value.capacity.Some? && IsFull(info.value.capacity.value, currentBookings)
  }

  /** The check `createBooking` fails on: the first failing one in source order. */
  function FirstBookingViolation(info: Option<FlightInfo>, canAccept: bool, currentBookings: nat): (r: Option<BookingViolation>)
    ensures r.Some? ==>
      && BookingCheckFails(r.value, info, canAccept, currentBookings)
      && forall v :: BookingCheckRank(v) < BookingCheckRank(r.value) ==> !BookingCheckFails(v, info, canAccept, currentBookings)
    ensures r.None? <==> forall v :: !BookingCheckFails(v, info, canAccept, currentBookings)
  {
    if info.None? then
      assert BookingCheckFails(FlightNotFound, info, canAccept, currentBookings);
      Some(FlightNotFound)
    else if info.value.status == "CANCELLED" || info.value.status == "SOLD_OUT" then
      assert BookingCheckFails(FlightNotBookable, info, canAccept, currentBookings);
      Some(FlightNotBookable)
    else if !canAccept then
      assert BookingCheckFails(SeatsRefused, info, canAccept, currentBookings);
      Some(SeatsRefused)
    else if info.value.capacity.None? then
      assert BookingCheckFails(CapacityUnknown, info, canAccept, currentBookings);
      Some(CapacityUnknown)
    else if IsFull(info.value.capacity.value, currentBookings) then
      assert BookingCheckFails(FlightFull, info, canAccept, currentBookings);
      Some(FlightFull)
    else None
  }

  /** The price `createBooking` asks for once every check passed. */
  datatype Quote = Quote(currentBookings: nat, capacity: Capacity, discount: real, finalPrice: real)

  /** `calculateDiscount`, on the snapshot: days are whole days from `now`. */
  function CalculateDiscount(info: FlightInfo, currentBookings: int, capacity: Capacity, now: Instant): real {
    Discount(currentBookings, MaxPassengers(capacity), info.minPassengers, DaysBetween(now, info.departure))
  }

  /** Everything `createBooking` decides before calling the payment gateway. */
  function BookingPrecheck(info: Option<FlightInfo>, canAccept: bool, currentBookings: nat, now: Instant): (r: Result<Quote>)
    ensures r.Err? <==> FirstBookingViolation(info, canAccept, currentBookings).Some?
    ensures r.Err? ==> r.code == BookingViolationCode(FirstBookingViolation(info, canAccept, currentBookings).value)
    ensures r.Ok? ==>
      && info.Some? && info.value.capacity.Some?
      && r.value.capacity == info.value.capacity.value && r.value.currentBookings == currentBookings
      && currentBookings + 1 <= MaxPassengers(r.value.capacity)
      && r.value.discount == CalculateDiscount(info.value, currentBookings, r.value.capacity, now)
      && r.value.finalPrice == FinalPrice(info.value.basePrice, r.value.discount)
  {
    if FirstBookingViolation(info, canAccept, currentBookings).Some? then
      Err(BookingViolationCode(FirstBookingViolation(info, canAccept, currentBookings).value))
    else
      var capacity := info.value.capacity.value;
      var discount := CalculateDiscount(info.value, currentBookings, capacity, now);
      Ok(Quote(currentBookings, capacity, discount, FinalPrice(info.value.basePrice, discount)))
  }

  /** Two of the checks guard against what the adapter already rules out: behind
      the FleetAdapter, `createBooking` can fail only with NOT_FOUND, VALIDATION
      or the first CAPACITY check. */
  lemma AdapterLeavesOnlyFirstThreeChecks(adapter: FleetAdapter, flightId: string)
    requires adapter.Valid()
    ensures var v := FirstBookingViolation(adapter.GetFlightById(flightId), adapter.CanAcceptPassengers(flightId),
                                           adapter.GetCurrentPassengerCount(flightId));
            v.Some? ==> v.value in {FlightNotFound, FlightNotBookable, SeatsRefused}
  {
    if adapter.CanAcceptPassengers(flightId) {
      adapter.AcceptedFlightIsBoardable(flightId);
    }
  }

  class BookingsService {
    const bookingRepository: BookingRepository
    const flightInfoProvider: FleetAdapter
    const paymentGateway: PaymentGateway
    const notificationService: NotificationService

    constructor (bookingRepository: BookingRepository, flightInfoProvider: FleetAdapter,
                 paymentGateway: PaymentGateway, notificationService: NotificationService)
      ensures this.bookingRepository == bookingRepository && this.flightInfoProvider == flightInfoProvider
      ensures this.paymentGateway == paymentGateway && this.notificationService == notificationService
    {
      this.bookingRepository := bookingRepository;
      this.flightInfoProvider := flightInfoProvider;
      this.paymentGateway := paymentGateway;
      this.notificationService := notificationService;
    }

    /** The adapter's stores are consistent and it counts in this service's store. */
    ghost predicate Valid()
      reads flightInfoProvider.flightRepository, flightInfoProvider.flightRepository.flights.Values`id
      reads flightInfoProvider.rocketRepository, flightInfoProvider.rocketRepository.rockets.Values`id
    {
      flightInfoProvider.Valid() && flightInfoProvider.bookingRepository == bookingRepository
    }

    /** `getFlightById(command.flightId())`; a null id finds nothing. */
    function InfoFor(flightId: Option<string>): Option<FlightInfo>
      requires Valid()
      reads flightInfoProvider.flightRepository, flightInfoProvider.flightRepository.flights.Values
      reads flightInfoProvider.rocketRepository, flightInfoProvider.rocketRepository.rockets.Values`id
    {
      if flightId.None? then None else flightInfoProvider.GetFlightById(flightId.value)
    }

    /** `canAcceptPassengers(command.flightId())`; false for a null id. */
    function AcceptsFor(flightId: Option<string>): bool
      reads flightInfoProvider.flightRepository, flightInfoProvider.flightRepository.flights.Values
      reads flightInfoProvider.rocketRepository, flightInfoProvider.rocketRepository.rockets.Values`id
      reads flightInfoProvider.bookingRepository
    {
      flightId.Some? && flightInfoProvider.CanAcceptPassengers(flightId.value)
    }

    /** The bookings stored so far for the command's flight. */
    function CountFor(flightId: Option<string>): nat
      reads bookingRepository
    {
      if flightId.None? then 0 else |OfFlight(bookingRepository.bookings, flightId.value)|
    }

    /** What `createBooking` decides before it asks for payment, on the current state. */
    function Precheck(command: CreateBookingCommand, now: Instant): Result<Quote>
      requires Valid()
      reads flightInfoProvider.flightRepository, flightInfoProvider.flightRepository.flights.Values
      reads flightInfoProvider.rocketRepository, flightInfoProvider.rocketRepository.rockets.Values`id
      reads bookingRepository
    {
      BookingPrecheck(InfoFor(command.flightId), AcceptsFor(command.flightId), CountFor(command.flightId), now)
    }

    /** No booking saved, no status changed and no notice sent. */
    twostate predicate NothingRecorded()
      reads bookingRepository, notificationService, flightInfoProvider.flightRepository
      reads flightInfoProvider.flightRepository.flights.Values
    {
      && bookingRepository.bookings == old(bookingRepository.bookings)
      && notificationService.log == old(notificationService.log)
      && flightInfoProvider.flightRepository.flights == old(flightInfoProvider.flightRepository.flights)
      && forall g :: g in old(flightInfoProvider.flightRepository.flights.Values) ==> g.status == old(g.status)
    }

    /** What `createBooking` does once the booking exists: it is appended; the
        last seat marks the flight sold out and sends nothing; otherwise the flight
        is confirmed, with one notice, exactly when that transition fires. No
        other flight changes. */
    twostate predicate BookingRecorded(new booking: Booking, q: Quote)
      reads bookingRepository, notificationService, flightInfoProvider.flightRepository
      reads flightInfoProvider.flightRepository.flights.Values
    {
      var id := booking.flightId;
      var after := q.currentBookings + 1;
      && flightInfoProvider.flightRepository.flights == old(flightInfoProvider.flightRepository.flights)
      && id in flightInfoProvider.flightRepository.flights
      && bookingRepository.bookings == old(bookingRepository.bookings) + [booking]
      && |OfFlight(bookingRepository.bookings, id)| == after
      && id in old(flightInfoProvider.flightRepository.flights)
      && var f := old(flightInfoProvider.flightRepository.flights[id]);
      && (IsFull(q.capacity, after) ==>
            && f.status == Step(old(f.status), SoldOutMark, f.departure, f.minPassengers)
            && notificationService.log == old(notificationService.log))
      && (!IsFull(q.capacity, after) ==>
            && f.status == Step(old(f.status), ConfirmAttempt(after), f.departure, f.minPassengers)
            && notificationService.log == old(notificationService.log)
                 + (if Fires(old(f.status), ConfirmAttempt(after), f.departure, f.minPassengers)
                    then [Confirmation(id, after)] else []))
      && forall g :: g in old(flightInfoProvider.flightRepository.flights.Values) && g != f ==> g.status == old(g.status)
    }

    /** The fail-fast checks and the quote, step by step as `createBooking` runs them. */
    method CheckBooking(command: CreateBookingCommand, now: Instant) returns (pre: Result<Quote>)
      requires Valid()
      ensures pre == Precheck(command, now)
      ensures pre.Ok? ==>
        && command.flightId.Some? && command.flightId.value in flightInfoProvider.flightRepository.flights
        && pre.value.currentBookings == |OfFlight(bookingRepository.bookings, command.flightId.value)|
        && pre.value.currentBookings + 1 <= MaxPassengers(pre.value.capacity)
    {
      var flightId := command.flightId;
      var info := InfoFor(flightId);
      if info.None? {
        return Err(NotFound);
      }
      if info.value.status == "CANCELLED" || info.value.status == "SOLD_OUT" {
        return Err(Validation);
      }
      if !AcceptsFor(flightId) {
        return Err(CapacityError);
      }
      var currentBookings := |bookingRepository.FindByFlightId(flightId.value)|;
      if info.value.capacity.None? {
        return Err(Internal);
      }
      var capacity := info.value.capacity.value;
      var boarding := EnsureCanBoard(capacity, currentBookings);
      if boarding.Fail? {
        return Err(CapacityError);
      }
      var discount := CalculateDiscount(info.value, currentBookings, capacity, now);
      pre := Ok(Quote(currentBookings, capacity, discount, FinalPrice(info.value.basePrice, discount)));
    }

    /** Saving the booking and the status change after it. */
    method RecordBooking(booking: Booking, q: Quote)
      requires Valid() && booking.flightId in flightInfoProvider.flightRepository.flights
      requires q.currentBookings == |OfFlight(bookingRepository.bookings, booking.flightId)|
      modifies bookingRepository, notificationService`log
      modifies flightInfoProvider.flightRepository.flights.Values`status
      ensures Valid() && BookingRecorded(booking, q)
    {
      var id := booking.flightId;
      var _ := bookingRepository.Save(booking);
      OfFlightAppend(old(bookingRepository.bookings), booking, id);
      var after := q.currentBookings + 1;
      if IsFull(q.capacity, after) {
        flightInfoProvider.MarkFlightSoldOut(id);
      } else {
        var confirmed := flightInfoProvider.ConfirmFlightIfMinReached(id, after);
        if confirmed {
          notificationService.NotifyConfirmation(id, after);
        }
      }
    }

    /** `Booking.create` with the payment's transaction id, and the recording of
        the booking it makes. */
    method CompleteBooking(command: CreateBookingCommand, q: Quote, transactionId: string) returns (r: Result<Booking>)
      requires Valid() && command.flightId.Some? && command.flightId.value in flightInfoProvider.flightRepository.flights
      requires q.currentBookings == |OfFlight(bookingRepository.bookings, command.flightId.value)|
      modifies bookingRepository, notificationService`log
      modifies flightInfoProvider.flightRepository.flights.Values`status
      ensures Valid()
      ensures var v := FirstCreationViolation(command.flightId, command.passengerName, q.finalPrice, Some(transactionId));
        && (r.Err? <==> v.Some?)
        && (v.Some? ==> r == Err(ViolationCode(v.value)) && NothingRecorded())
      ensures r.Ok? ==>
        && r.value.paymentTransactionId == transactionId
        && r.value.flightId == command.flightId.value && r.value.finalPrice == q.finalPrice
        && r.value.passengerName == TrimmedName(command.passengerName.value) && r.value.Sound()
        && BookingRecorded(r.value, q)
    {
      var created := Booking.Create(command.flightId, command.passengerName, q.finalPrice, Some(transactionId));
      assert NothingRecorded();
      if created.Err? {
        return Err(created.code);
      }
      var booking := created.value;
      assert booking.flightId == command.flightId.value;
      assert Valid() && q.currentBookings == |OfFlight(bookingRepository.bookings, booking.flightId)|;
      RecordBooking(booking, q);
      r := Ok(booking);
    }

    /** Payment, `Booking.create` and the booking's recording, in that order, once
        every check passed with quote `q`. */
    method PayAndBook(command: CreateBookingCommand, q: Quote) returns (r: Result<Booking>, ghost reply: Result<string>)
      requires Valid() && command.flightId.Some? && command.flightId.value in flightInfoProvider.flightRepository.flights
      requires q.currentBookings == |OfFlight(bookingRepository.bookings, command.flightId.value)|
      modifies bookingRepository, paymentGateway`log, notificationService`log
      modifies flightInfoProvider.flightRepository.flights.Values`status
      ensures Valid()
      ensures paymentGateway.log == old(paymentGateway.log) + [Charge(q.finalPrice)]
      ensures reply.Err? ==> r == Err(Payment) && NothingRecorded()
      ensures reply.Ok? ==>
        var v := FirstCreationViolation(command.flightId, command.passengerName, q.finalPrice, Some(reply.value));
        && (r.Err? <==> v.Some?)
        && (v.Some? ==> r == Err(ViolationCode(v.value)) && NothingRecorded())
      ensures r.Ok? ==>
        && reply == Ok(r.value.paymentTransactionId)
        && r.value.flightId == command.flightId.value && r.value.finalPrice == q.finalPrice
        && r.value.passengerName == TrimmedName(command.passengerName.value) && r.value.Sound()
        && BookingRecorded(r.value, q)
    {
      var payment := paymentGateway.ProcessPayment(q.finalPrice);
      reply := payment;
      if payment.Err? {
        return Err(Payment), reply;
      }
      assert NothingRecorded();
      r := CompleteBooking(command, q, payment.value);
    }

    /** `createBooking`. `reply` is the payment gateway's answer, when it was asked. */
    method CreateBooking(command: CreateBookingCommand, now: Instant) returns (r: Result<Booking>, ghost pre: Result<Quote>, ghost reply: Option<Result<string>>)
      requires Valid()
      modifies bookingRepository, paymentGateway`log, notificationService`log
      modifies flightInfoProvider.flightRepository.flights.Values`status
      ensures Valid() && pre == old(Precheck(command, now))
      // A failed check: that error, and nothing paid, saved, changed or sent.
      ensures pre.Err? ==>
        && r == Err(pre.code) && reply.None?
        && paymentGateway.log == old(paymentGateway.log) && NothingRecorded()
      // Otherwise exactly one charge, of the quoted price.
      ensures reply.Some? <==> pre.Ok?
      ensures pre.Ok? ==>
        paymentGateway.log == old(paymentGateway.log) + [Charge(pre.value.finalPrice)]
      // A refused payment is PAYMENT. After an accepted one, `Booking.create` can
      // still refuse, with its own error, once the charge is made. Either way
      // nothing is saved, changed or sent.
      ensures reply.Some? && reply.value.Err? ==> r == Err(Payment) && NothingRecorded()
      ensures reply.Some? && reply.value.Ok? ==>
        var v := FirstCreationViolation(command.flightId, command.passengerName,
                                        pre.value.finalPrice, Some(reply.value.value));
        && (r.Err? <==> v.Some?)
        && (v.Some? ==> r == Err(ViolationCode(v.value)) && NothingRecorded())
      // A booking made: for this flight, at the quoted price, under the trimmed
      // name and the payment's transaction; the flight stays within its capacity.
      ensures r.Ok? ==> pre.Ok? && reply == Some(Ok(r.value.paymentTransactionId))
      ensures r.Ok? ==>
        var q := pre.value;
        && r.value.flightId == command.flightId.value && r.value.finalPrice == q.finalPrice
        && r.value.passengerName == TrimmedName(command.passengerName.value) && r.value.Sound()
        && q.currentBookings + 1 <= MaxPassengers(q.capacity)
        && BookingRecorded(r.value, q)
    {
      reply := None;
      var checked := CheckBooking(command, now);
      pre := checked;
      if checked.Err? {
        return Err(checked.code), pre, reply;
      }
      ghost var answer;
      r, answer := PayAndBook(command, checked.value);
      reply := Some(answer);
    }
  }
}
