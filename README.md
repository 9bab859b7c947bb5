# Launch bookings, modelled in Dafny

This project models the domain core of a launch-booking service, together with the properties its code promises. Rockets carry between 1 and 10 passengers. A flight is scheduled on a rocket. Passengers book seats, pay through a payment gateway, and get a discount chosen by a first-match rule. Flights with low demand are cancelled a week before departure, and their bookings are refunded.

The repository holds three revisions of this logic side by side:

* **The latest revision** (`sales/`, `fleet/` and `shared/`):
  - a `Capacity` value object;
  - a `Flight` aggregate with a guarded status machine (SCHEDULED, CONFIRMED, SOLD_OUT, CANCELLED);
  - `Booking` and `Rocket` entities;
  - the fleet's flight and rocket services and in-memory stores;
  - the sales booking and cancellation services, which see the fleet only through an adapter (`FleetAdapter`).
* **The `business/` revision:** a booking service that checks blank fields first; a cancellation service that sets statuses directly; a flight service that raises the minimum to 5 and checks it against 10; and two rocket services that check the name and the capacity.
* **The `domain/` revision:** the same services with injected collaborators. It has no blank-field checks and no name check on rockets.

Each revision is its own set of Dafny modules:

| module | file | what it holds |
|---|---|---|
| `Common` | common.dfy | error kinds, results, instants and whole-day arithmetic, Java's string predicates (`isBlank`, `trim`, `strip`, and `toUpperCase` and `equalsIgnoreCase` on ASCII letters), the generated id text, and the open order of a hash map |
| `Capacities` | capacity.dfy | `Capacity` as the subset type 1..10 |
| `Flights` | flight.dfy | schedule-time validation, the status machine as functions, and the `Flight` class |
| `Rockets` | rocket.dfy | the `Rocket` class |
| `Bookings` | booking.dfy | the `Booking` class and its creation checks |
| `Collaborators` | collaborators.dfy | the payment gateway and the notification service, whose calls are kept in ghost logs |
| `Pricing` | pricing.dfy | the discount rule shared by all three revisions |
| `BookingPersistence` | booking_persistence.dfy | the booking store and `getBookings` |
| `FleetPersistence` | fleet_persistence.dfy | the flight and rocket stores of the fleet |
| `SalesFleetAdapter` | fleet_adapter.dfy | the `FleetAdapter` and its port methods |
| `FleetServices` | fleet_services.dfy | `FlightsService` and `RocketsService` |
| `SalesBookings` | sales_bookings.dfy | the sales `BookingsService` |
| `CancellationLogs` | cancellation_logs.dfy | the refunds and notices a cancellation run leaves in the logs, shared by all three revisions |
| `SalesCancellation` | sales_cancellation.dfy | the sales `CancellationService` |
| `LegacyPersistence` | legacy_persistence.dfy | the older revisions' mutable flight bean and flight store, plus a `Revision` tag (`Business` or `Domain`) |
| `LegacyBookings` | legacy_bookings.dfy | both older booking services |
| `LegacyCancellation` | legacy_cancellation.dfy | both older cancellation services |
| `LegacyFleetServices` | legacy_fleet_services.dfy | the older flight services and all three older rocket services |

Conventions used throughout:

* **Objects and state.** Objects whose fields the source updates are classes. This covers flights, bookings, rockets, the stores and the services. Their methods state the complete new state.
* **Check order.** Each fail-fast check chain is a violation datatype plus a `First…Violation` function. Its contract says that the check it returns fails and that every earlier check passes. The service method is then proved to fail with exactly that check's error.
* **Collaborators.** Every call to the payment gateway or the notification service is appended to a ghost log. This makes "exactly one refund per booking, in order" and "no notification" statable.
* **Time.** Instants are integers, counted in seconds on the local time line. The clock (`now`) is a parameter. So is `now.plusYears(1)` (`yearLater`), because calendar years are not modelled.
* **Prices.** Prices are `real`, and the discounts are the exact values 0, 0.1, 0.2 and 0.3.

Where the code and its description disagree, the model follows the code. Three cases:

* In the sales revision, `FlightInfo`'s capacity is a nullable `Capacity`, because that is how `BookingsService` uses it. The record in the repository has an `int` instead.
* The FleetAdapter's `getFlightsForCancellation` ignores its cutoff and minimum arguments.
* The `business/` and `domain/` cancellation loops also cancel a flight whose departure has already passed, because its day distance is negative.

## Model

Paths are under `src/main/java/com/astrobookings/`, written out in full.

| member | source | states |
|---|---|---|
| Capacities.From | src/main/java/com/astrobookings/shared/domain/Capacity.java:17-23 | succeeds exactly when 1 <= n <= 10, with a capacity whose bound is n; fails with VALIDATION otherwise |
| Capacities.MaxPassengers | src/main/java/com/astrobookings/shared/domain/Capacity.java:25-27 | every capacity's bound lies within 1..10 |
| Capacities.EnsureCanBoard | src/main/java/com/astrobookings/shared/domain/Capacity.java:29-34 | fails, with CAPACITY, exactly when the count makes the capacity full, and passes otherwise |
| Capacities.FromMaxPassengers | src/main/java/com/astrobookings/shared/domain/Capacity.java:17-27 | reading a capacity's bound back through `from` gives the same capacity |
| Capacities.IsFullMonotone | src/main/java/com/astrobookings/shared/domain/Capacity.java:36-38 | full at n implies full at any larger count; not full exactly when n is below the bound |
| Common.DaysBetween | src/main/java/com/astrobookings/sales/domain/BookingsService.java:82 | the whole days between two instants, truncated toward zero in both directions (brackets the exact difference) |
| Common.PlusDays | src/main/java/com/astrobookings/sales/domain/CancellationService.java:32 | the instant n days later is exactly n whole days away |
| Common.TrimEmptyIff | src/main/java/com/astrobookings/sales/domain/models/Booking.java:23 | `trim` gives the empty string exactly when every character is at most U+0020 |
| Common.StripOfNonBlank | src/main/java/com/astrobookings/sales/domain/models/Booking.java:35-37 | stripping a non-blank string leaves a non-blank string that begins and ends with non-whitespace |
| Common.ToUpperMatchesIgnoringCase | src/main/java/com/astrobookings/fleet/infrastructure/persistence/FlightInMemoryRepository.java:48 | against a name made of capital letters and `_`, upper-casing then comparing is the same as `equalsIgnoreCase` |
| Common.EqualsIgnoreCaseIsEquivalence | src/main/java/com/astrobookings/sales/domain/BookingsService.java:105 | case-insensitive name equality is reflexive, symmetric and transitive |
| Common.NatToStringInjective | src/main/java/com/astrobookings/fleet/infrastructure/persistence/FlightInMemoryRepository.java:60 | two counters with the same decimal text are equal |
| Common.PrefixedIdInjective | src/main/java/com/astrobookings/fleet/infrastructure/persistence/FlightInMemoryRepository.java:60 | ids built from one prefix and two counters are equal only when the counters are |
| Flights.StatusValueOf | src/main/java/com/astrobookings/fleet/infrastructure/persistence/FlightInMemoryRepository.java:48 | gives the status whose name is the string, and nothing when no status has that name |
| Flights.StatusNameRoundTrip | src/main/java/com/astrobookings/sales/infrastructure/adapters/FleetAdapter.java:37-54 | a status name read back with `valueOf` gives the same status |
| Flights.FirstScheduleViolation | src/main/java/com/astrobookings/fleet/domain/models/Flight.java:40-62 | the check returned fails and every earlier one (price, missing date, not in the future, beyond a year, min <= 0, min > capacity) passes; none is returned exactly when all pass |
| Flights.ScheduleAcceptedMeans | src/main/java/com/astrobookings/fleet/domain/models/Flight.java:40-62 | a flight that passes every check has a positive price, departs after now and within a year, and has 1 <= min <= capacity |
| Flights.Flight.Schedule | src/main/java/com/astrobookings/fleet/domain/models/Flight.java:29-33 | VALIDATION exactly when a schedule check fails; otherwise a new SCHEDULED flight with no id, the given data and the well-formedness the checks guarantee |
| Flights.Flight.Restore | src/main/java/com/astrobookings/fleet/domain/models/Flight.java:35-38 | every field exactly as given, not validated |
| Flights.Flight.ConfirmIfMinReached | src/main/java/com/astrobookings/fleet/domain/models/Flight.java:64-70 | true and CONFIRMED exactly when the flight was SCHEDULED and the count reaches the minimum; otherwise false and the status unchanged |
| Flights.Flight.MarkSoldOut | src/main/java/com/astrobookings/fleet/domain/models/Flight.java:72-76 | SOLD_OUT from any status except CANCELLED, which stays |
| Flights.Flight.CanAcceptNewPassenger | src/main/java/com/astrobookings/fleet/domain/models/Flight.java:78-83 | false for CANCELLED or SOLD_OUT, otherwise exactly when `ensureCanBoard` passes; reads, never writes |
| Flights.Flight.CancelDueToLowDemand | src/main/java/com/astrobookings/fleet/domain/models/Flight.java:85-97 | true and CANCELLED exactly when SCHEDULED, departing no later than the cutoff and below the minimum; otherwise false and unchanged |
| Flights.Flight.AssignId | src/main/java/com/astrobookings/fleet/domain/models/Flight.java:103-105 | only the id changes, to the one given |
| Flights.StepAllowed | src/main/java/com/astrobookings/fleet/domain/models/Flight.java:64-97 | every transition request is a move of the state machine (SCHEDULED onward, CONFIRMED to SOLD_OUT, or staying put) |
| Flights.RunAllowed | src/main/java/com/astrobookings/fleet/domain/models/Flight.java:64-97 | any sequence of transition requests stays within the state machine's moves |
| Flights.CancelledIsAbsorbing | src/main/java/com/astrobookings/fleet/domain/models/Flight.java:64-97 | no sequence of transition requests leaves CANCELLED |
| Flights.SoldOutIsAbsorbing | src/main/java/com/astrobookings/fleet/domain/models/Flight.java:64-97 | no sequence of transition requests leaves SOLD_OUT |
| Flights.TransitionsIdempotent | src/main/java/com/astrobookings/fleet/domain/models/Flight.java:64-76 | a confirmation that fired cannot fire again; marking sold out twice equals once |
| Rockets.Rocket.Register | src/main/java/com/astrobookings/fleet/domain/models/Rocket.java:18-20 | a new rocket with no id and the given name, capacity and speed |
| Rockets.Rocket.Restore | src/main/java/com/astrobookings/fleet/domain/models/Rocket.java:22-24 | every field exactly as given |
| Rockets.Rocket.AssignId | src/main/java/com/astrobookings/fleet/domain/models/Rocket.java:30-32 | only the id changes; name, capacity and speed are constants |
| Rockets.Rocket.GetCapacity | src/main/java/com/astrobookings/fleet/domain/models/Rocket.java:38-40 | the capacity's bound, within 1..10, and `from` of it gives back the capacity |
| Bookings.FirstCreationViolation | src/main/java/com/astrobookings/sales/domain/models/Booking.java:31-44 | the check returned fails and every earlier one (flight id, name, price, transaction) passes; none exactly when all pass |
| Bookings.ViolationCode | src/main/java/com/astrobookings/sales/domain/models/Booking.java:31-44 | a missing transaction is PAYMENT, and every other creation failure is VALIDATION |
| Bookings.CreationAcceptedMeans | src/main/java/com/astrobookings/sales/domain/models/Booking.java:21-44 | a booking that passes every check has a non-blank flight id, name and transaction and a positive price; the name `trim` stores is empty exactly when every character of it is at most U+0020, while the corrected `StoredName` of it is never blank |
| Bookings.Booking.Create | src/main/java/com/astrobookings/sales/domain/models/Booking.java:21-24 | fails exactly on the first failing check, with its error; otherwise a new booking with no id, the name passed through `trim`, and the other fields verbatim, with a non-blank flight id and transaction and a positive price |
| Bookings.Booking.Restore | src/main/java/com/astrobookings/sales/domain/models/Booking.java:26-29 | every field verbatim, without validation or trimming |
| Bookings.Booking.AssignId | src/main/java/com/astrobookings/sales/domain/models/Booking.java:46-48 | only the id changes; the four data fields are constants |
| Bookings.TrimmedNameCanBeEmpty | src/main/java/com/astrobookings/sales/domain/models/Booking.java:23-37 | the name "\u0000" passes every check but `trim` stores it as the empty string |
| Bookings.StoredName | src/main/java/com/astrobookings/sales/domain/models/Booking.java:23 | the stored form of a non-blank name is non-blank and has no whitespace at either end |
| Collaborators.PaymentGateway.ProcessPayment | src/main/java/com/astrobookings/domain/ports/output/PaymentGateway.java:4 | records one charge of the amount; a refusal is PAYMENT |
| Collaborators.PaymentGateway.ProcessRefund | src/main/java/com/astrobookings/domain/ports/output/PaymentGateway.java:8 | records one refund of that transaction and amount |
| Collaborators.NotificationService.NotifyConfirmation | src/main/java/com/astrobookings/sales/domain/ports/output/NotificationService.java:7-13 | records one confirmation notice for the flight and count |
| Collaborators.NotificationService.NotifyCancellation | src/main/java/com/astrobookings/sales/domain/ports/output/NotificationService.java:7-13 | records one cancellation notice for the flight with its bookings |
| Collaborators.RefundsFor | src/main/java/com/astrobookings/sales/domain/CancellationService.java:47-49 | one refund per booking, in list order, each at the booking's own transaction id and final price |
| Collaborators.RefundsForConcat | src/main/java/com/astrobookings/sales/domain/CancellationService.java:47-49 | refunding two lists one after the other is refunding their concatenation |
| Pricing.Discount | src/main/java/com/astrobookings/sales/domain/BookingsService.java:80-97 | the last seat gets nothing; each of 0.3, 0.1 and 0.2 is given exactly when its rule is the first that applies (reaching the minimum, more than 180 days, 7..30 days); nothing otherwise |
| Pricing.FinalPriceBounds | src/main/java/com/astrobookings/sales/domain/BookingsService.java:57-58 | the amount charged lies between 70% and 100% of a positive base price, and is positive |
| Pricing.SeatRulesTakePrecedence | src/main/java/com/astrobookings/sales/domain/BookingsService.java:80-97 | when the last-seat or reaching-the-minimum rule applies, the days to departure do not matter |
| BookingPersistence.OfFlight | src/main/java/com/astrobookings/sales/domain/ports/output/BookingRepository.java:9 | keeps exactly the stored bookings of that flight; their order is the store's, by `OfFlightAppend` |
| BookingPersistence.OfFlightAppend | src/main/java/com/astrobookings/sales/domain/ports/output/BookingRepository.java:9-13 | a saved booking joins its own flight's list, at the end, and no other list |
| BookingPersistence.OfFlightCounts | src/main/java/com/astrobookings/sales/domain/ports/output/BookingRepository.java:9 | each booking of the flight is returned as often as the store holds it, and no other booking is returned |
| BookingPersistence.OfPassenger | src/main/java/com/astrobookings/sales/domain/ports/output/BookingRepository.java:11 | keeps exactly the stored bookings under that name, and no others |
| BookingPersistence.OfPassengerCounts | src/main/java/com/astrobookings/sales/domain/ports/output/BookingRepository.java:11 | each booking under the name is returned as often as the store holds it, and no other booking is returned |
| BookingPersistence.BookingRepository.FindByFlightId | src/main/java/com/astrobookings/sales/domain/ports/output/BookingRepository.java:9 | the flight's bookings, in store order |
| BookingPersistence.BookingRepository.Save | src/main/java/com/astrobookings/sales/domain/ports/output/BookingRepository.java:13 | appends the booking and returns it: its flight gains one booking and no other flight's list changes |
| BookingPersistence.GetBookings | src/main/java/com/astrobookings/sales/domain/BookingsService.java:99-114 | keeps exactly the bookings the query matches: a given flight first, then the name ignoring case; else the name alone exactly; else everything. The older revisions' `getBookings` (business/BookingServiceImpl.java:111-126, domain/BookingsService.java:105-120) run the same query |
| BookingPersistence.NameNarrowsFlightQuery | src/main/java/com/astrobookings/sales/domain/BookingsService.java:99-114 | adding a name to a flight query never adds a booking |
| FleetPersistence.GeneratedKeysInjective | src/main/java/com/astrobookings/fleet/infrastructure/persistence/FlightInMemoryRepository.java:58-64 | the ids "f"+n and "r"+n are equal exactly when the counters are, so a generated id is never reused |
| FleetPersistence.StatusLookupIgnoresCase | src/main/java/com/astrobookings/fleet/infrastructure/persistence/FlightInMemoryRepository.java:46-56 | `valueOf(status.toUpperCase())` finds a status exactly when the filter equals its name ignoring case |
| FleetPersistence.FlightInMemoryRepository.constructor | src/main/java/com/astrobookings/fleet/infrastructure/persistence/FlightInMemoryRepository.java:19-33 | the store starts with f1 (SCHEDULED) and f2 (CANCELLED), both on r1 with min 5 and capacity 7, and the counter at 3, no later id taken |
| FleetPersistence.FlightInMemoryRepository.StoredFlightIsKeyed | src/main/java/com/astrobookings/fleet/infrastructure/persistence/FlightInMemoryRepository.java:58-64 | a stored flight is stored under its own id |
| FleetPersistence.FlightInMemoryRepository.OthersAreOtherFlights | src/main/java/com/astrobookings/fleet/infrastructure/persistence/FlightInMemoryRepository.java:58-64 | different ids hold different flight objects |
| FleetPersistence.FlightInMemoryRepository.FindById | src/main/java/com/astrobookings/fleet/infrastructure/persistence/FlightInMemoryRepository.java:42-44 | the flight under that id, whose own id is that id, and nothing when there is none |
| FleetPersistence.FlightInMemoryRepository.FindAll | src/main/java/com/astrobookings/fleet/infrastructure/persistence/FlightInMemoryRepository.java:35-40 | exactly the stored flights departing after now, each once |
| FleetPersistence.FlightInMemoryRepository.FindByStatus | src/main/java/com/astrobookings/fleet/infrastructure/persistence/FlightInMemoryRepository.java:46-56 | nothing for an unknown name; otherwise exactly the future flights having the status named in any letter case, each once |
| FleetPersistence.FlightInMemoryRepository.Save | src/main/java/com/astrobookings/fleet/infrastructure/persistence/FlightInMemoryRepository.java:58-64 | a flight without id gets "f"+counter and the counter moves on; it is stored under its id and every other entry is unchanged; overwriting never grows the store, a generated id always does, and the counter stays fresh |
| FleetPersistence.RocketRepository.constructor | src/main/java/com/astrobookings/infrastructure/persistence/RocketInMemoryRepository.java:15-21 | the store starts with r1 "Falcon 9", capacity 7, and the counter at 2, no later id taken |
| FleetPersistence.RocketRepository.FindById | src/main/java/com/astrobookings/infrastructure/persistence/RocketInMemoryRepository.java:27-29 | the rocket under that id, whose own id is that id, and nothing when there is none |
| FleetPersistence.RocketRepository.FindAll | src/main/java/com/astrobookings/infrastructure/persistence/RocketInMemoryRepository.java:23-25 | every stored rocket exactly once |
| FleetPersistence.RocketRepository.Save | src/main/java/com/astrobookings/infrastructure/persistence/RocketInMemoryRepository.java:31-37 | a rocket without id gets "r"+counter and the counter moves on; it is stored under its id, an existing key is overwritten without growing the store |
| SalesFleetAdapter.CapacityOrZero | src/main/java/com/astrobookings/sales/domain/ports/output/FlightInfoProvider.java:44-52 | the record's int capacity is 0 exactly when the capacity is unknown, and is otherwise its bound |
| SalesFleetAdapter.FleetAdapter.GetFlightById | src/main/java/com/astrobookings/sales/infrastructure/adapters/FleetAdapter.java:37-54 | nothing exactly for an unknown flight; otherwise the stored flight's id, rocket, departure, price, status name and minimum, and its rocket's current capacity |
| SalesFleetAdapter.FleetAdapter.GetRocketCapacityForFlight | src/main/java/com/astrobookings/sales/infrastructure/adapters/FleetAdapter.java:57-64 | 0 for an unknown flight or rocket, and the rocket's capacity otherwise |
| SalesFleetAdapter.FleetAdapter.GetCurrentPassengerCount | src/main/java/com/astrobookings/sales/infrastructure/adapters/FleetAdapter.java:67-69 | the number of stored bookings of the flight |
| SalesFleetAdapter.FleetAdapter.CanAcceptPassengers | src/main/java/com/astrobookings/sales/infrastructure/adapters/FleetAdapter.java:81-95 | true exactly for a stored flight that is neither CANCELLED nor SOLD_OUT, whose rocket is stored and has more seats than bookings so far |
| SalesFleetAdapter.FleetAdapter.AcceptedFlightIsBoardable | src/main/java/com/astrobookings/sales/infrastructure/adapters/FleetAdapter.java:81-95 | an accepted flight has a snapshot that is bookable, carries a capacity, and passes `ensureCanBoard` |
| SalesFleetAdapter.FleetAdapter.AdapterAgreesWithFlight | src/main/java/com/astrobookings/sales/infrastructure/adapters/FleetAdapter.java:81-95 | while the rocket's capacity is the flight's own, the adapter answers as the flight's `canAcceptNewPassenger` |
| SalesFleetAdapter.FleetAdapter.Snapshots | src/main/java/com/astrobookings/sales/infrastructure/adapters/FleetAdapter.java:109-119 | one snapshot per stored flight, in order, each the one `getFlightById` gives |
| SalesFleetAdapter.FleetAdapter.CandidateFlights | src/main/java/com/astrobookings/sales/infrastructure/adapters/FleetAdapter.java:98-108 | exactly the stored future SCHEDULED flights at most 7 whole days away, each once |
| SalesFleetAdapter.FleetAdapter.GetFlightsForCancellation | src/main/java/com/astrobookings/sales/infrastructure/adapters/FleetAdapter.java:98-122 | snapshots of exactly those candidates, each once, whatever the cutoff and minimum arguments |
| SalesFleetAdapter.FleetAdapter.UpdateFlightStatus | src/main/java/com/astrobookings/sales/infrastructure/adapters/FleetAdapter.java:72-78 | nothing for an unknown flight; otherwise the named status is written bypassing the guards, INTERNAL for an unknown name; no other flight changes |
| SalesFleetAdapter.FleetAdapter.MarkFlightSoldOut | src/main/java/com/astrobookings/sales/domain/BookingsService.java:71-72 | the flight takes the `markSoldOut` transition and no other flight changes |
| SalesFleetAdapter.FleetAdapter.ConfirmFlightIfMinReached | src/main/java/com/astrobookings/sales/domain/BookingsService.java:73-74 | true exactly when the confirmation transition fires, and the flight takes it; no other flight changes |
| SalesFleetAdapter.FleetAdapter.CancelFlightIfLowDemand | src/main/java/com/astrobookings/sales/domain/CancellationService.java:37-39 | true exactly when the low-demand transition fires, and the flight takes it; no other flight changes |
| FleetServices.RequestedMin | src/main/java/com/astrobookings/fleet/domain/FlightsService.java:38-40 | 5 when the command gives no minimum or one <= 0, the command's minimum otherwise |
| FleetServices.EffectiveMin | src/main/java/com/astrobookings/fleet/domain/FlightsService.java:41 | the requested minimum clamped to the capacity: within 1..capacity, never above the request, and either the request or the capacity |
| FleetServices.EffectiveMinPassesMinChecks | src/main/java/com/astrobookings/fleet/domain/FlightsService.java:38-48 | with the clamped minimum, `schedule` can only fail on price or departure |
| FleetServices.FlightsService.GetFlights | src/main/java/com/astrobookings/fleet/domain/FlightsService.java:23-29 | for a non-empty filter, the future flights of the status named (none for an unknown name); otherwise every future flight |
| FleetServices.FlightsService.CreateFlight | src/main/java/com/astrobookings/fleet/domain/FlightsService.java:31-51 | NOT_FOUND and nothing saved for an unknown rocket; VALIDATION and nothing saved exactly when `schedule` refuses; otherwise a new SCHEDULED flight with the rocket's capacity and the clamped minimum, stored under the next generated id |
| FleetServices.RocketsService.GetAllRockets | src/main/java/com/astrobookings/fleet/domain/RocketsService.java:18-20 | every stored rocket exactly once |
| FleetServices.RocketsService.SaveRocket | src/main/java/com/astrobookings/fleet/domain/RocketsService.java:22-26 | VALIDATION and nothing saved exactly when the capacity is outside 1..10, whatever the name; otherwise a new rocket with the command's name, capacity and speed under the next generated id |
| SalesBookings.FirstBookingViolation | src/main/java/com/astrobookings/sales/domain/BookingsService.java:37-55 | the check returned fails and every earlier one (flight missing, not bookable, refused by the adapter, capacity unknown, full) passes; none exactly when all pass |
| SalesBookings.BookingPrecheck | src/main/java/com/astrobookings/sales/domain/BookingsService.java:37-58 | the first failing check's error (NOT_FOUND, VALIDATION, CAPACITY, INTERNAL, CAPACITY); otherwise a quote with a seat still free, the discount and the price base x (1 - discount) |
| SalesBookings.AdapterLeavesOnlyFirstThreeChecks | src/main/java/com/astrobookings/sales/domain/BookingsService.java:37-55 | behind the FleetAdapter, the INTERNAL and the second CAPACITY failures cannot happen |
| SalesBookings.BookingsService.CheckBooking | src/main/java/com/astrobookings/sales/domain/BookingsService.java:37-58 | the checks run in source order give exactly the precheck on the current state; a quote counts the flight's stored bookings |
| SalesBookings.BookingsService.RecordBooking | src/main/java/com/astrobookings/sales/domain/BookingsService.java:68-75 | the booking is appended; the last seat marks the flight sold out and sends nothing; otherwise the confirmation transition is taken and one notice is sent exactly when it fires; no other flight changes |
| SalesBookings.BookingsService.CompleteBooking | src/main/java/com/astrobookings/sales/domain/BookingsService.java:67-75 | `Booking.create` refusing leaves nothing saved, changed or sent; otherwise the booking, with the name passed through `trim`, is recorded as above |
| SalesBookings.BookingsService.PayAndBook | src/main/java/com/astrobookings/sales/domain/BookingsService.java:60-75 | exactly one charge of the quoted price; a refused payment is PAYMENT with nothing saved, changed or sent; otherwise as `CompleteBooking`, with the payment's transaction id |
| SalesBookings.BookingsService.CreateBooking | src/main/java/com/astrobookings/sales/domain/BookingsService.java:36-78 | a failed check gives its error with nothing paid, saved, changed or sent; otherwise one charge; PAYMENT or a creation failure after it records nothing; a booking made is for this flight at the quoted price with the name passed through `trim`, keeps the flight within capacity, and sets the status as `RecordBooking` says |
| SalesCancellation.CancellationsMembers | src/main/java/com/astrobookings/sales/domain/CancellationService.java:36-53 | the flights cancelled are exactly the candidates with low demand (departing by the cutoff with fewer bookings than the minimum) |
| SalesCancellation.CancellationsStep | src/main/java/com/astrobookings/sales/domain/CancellationService.java:36-53 | one more candidate joins the cancellations exactly when its demand is low |
| SalesCancellation.NotYetCancelled | src/main/java/com/astrobookings/sales/domain/CancellationService.java:36-53 | with distinct candidates, no flight is cancelled twice |
| SalesCancellation.LogsAdvance | src/main/java/com/astrobookings/sales/domain/CancellationService.java:36-53 | one more pass moves the counter and both logs on by that flight's refunds and notice exactly when it is cancelled |
| SalesCancellation.CancellationService.ProcessCandidate | src/main/java/com/astrobookings/sales/domain/CancellationService.java:37-51 | cancelled exactly when demand is low; then one refund per booking in order and one notice with those bookings, else nothing; the service sets no status itself |
| SalesCancellation.CancellationService.CancelAt | src/main/java/com/astrobookings/sales/domain/CancellationService.java:36-53 | one pass keeps the run's invariant: earlier low-demand candidates cancelled, the rest SCHEDULED, counter and logs matching, other flights as before |
| SalesCancellation.CancellationService.CancelCandidates | src/main/java/com/astrobookings/sales/domain/CancellationService.java:35-54 | the count is the number of low-demand candidates; the logs hold their refunds and notices in order; other flights keep their status |
| SalesCancellation.CancellationService.CancelFlights | src/main/java/com/astrobookings/sales/domain/CancellationService.java:31-55 | the candidates are the SCHEDULED future flights at most 7 days away, each once; with cutoff now + 7 days, exactly the low-demand ones are cancelled, refunded and notified, the rest stay SCHEDULED, and the count is theirs |
| CancellationLogs.Notices | src/main/java/com/astrobookings/sales/domain/CancellationService.java:51 | one cancellation notice per cancelled flight, carrying its stored bookings |
| CancellationLogs.EveryBookingRefunded | src/main/java/com/astrobookings/sales/domain/CancellationService.java:47-49 | every booking of a cancelled flight is refunded, at its own transaction id and price |
| CancellationLogs.RefundsAreOfCancelledBookings | src/main/java/com/astrobookings/sales/domain/CancellationService.java:47-49 | every refund is of a stored booking of a cancelled flight |
| CancellationLogs.RefundEach | src/main/java/com/astrobookings/sales/domain/CancellationService.java:47-49 | the refund loop logs one refund per booking, in list order |
| CancellationLogs.RefundAndNotify | src/main/java/com/astrobookings/sales/domain/CancellationService.java:47-51 | the refunds for the list, then one cancellation notice with the same list |
| LegacyPersistence.LegacyFlight.constructor | src/main/java/com/astrobookings/business/FlightService.java:33-38 | a flight bean with every field as the setters give it |
| LegacyPersistence.LegacyFlight.SetStatus | src/main/java/com/astrobookings/business/CancellationService.java:37 | sets any status from any status |
| LegacyPersistence.LegacyFlightRepository.FindById | src/main/java/com/astrobookings/domain/ports/output/FlightRepository.java:10 | the flight under that id, whose own id is that id, and nothing when there is none |
| LegacyPersistence.LegacyFlightRepository.FindAll | src/main/java/com/astrobookings/domain/ports/output/FlightRepository.java:8 | every stored flight exactly once |
| LegacyPersistence.LegacyFlightRepository.FindByStatus | src/main/java/com/astrobookings/domain/ports/output/FlightRepository.java:12 | nothing for an unknown name; otherwise exactly the flights of the status named in any letter case |
| LegacyPersistence.LegacyFlightRepository.Save | src/main/java/com/astrobookings/domain/ports/output/FlightRepository.java:14 | a flight without id gets "f"+counter; it is stored under its id; re-saving a stored flight leaves the store as it was |
| LegacyBookings.FirstBookingViolation | src/main/java/com/astrobookings/business/BookingServiceImpl.java:37-62 | the check returned fails and every earlier one passes: blank flight id and blank name (`business/` only), flight missing, not bookable, rocket missing, full |
| LegacyBookings.RevisionsAgreeOnFilledCommands | src/main/java/com/astrobookings/domain/BookingsService.java:38-56 | on a command whose flight id and name are present and not blank, both older revisions decide alike |
| LegacyBookings.DomainHasNoFieldChecks | src/main/java/com/astrobookings/domain/BookingsService.java:38-56 | the `domain/` revision never fails on the command's fields |
| LegacyBookings.BookingPrecheck | src/main/java/com/astrobookings/business/BookingServiceImpl.java:37-65 | the first failing check's error; otherwise a bookable flight, a known rocket with a seat still free, the discount and the price base x (1 - discount) |
| LegacyBookings.StatusAfterBookingFollowsMachine | src/main/java/com/astrobookings/business/BookingServiceImpl.java:81-88 | on a SCHEDULED or CONFIRMED flight, the unguarded update equals `markSoldOut` on the last seat and `confirmIfMinReached` otherwise, notifies exactly when that confirmation fires, and is a move of the state machine |
| LegacyBookings.BookingsService.FlightFor | src/main/java/com/astrobookings/business/BookingServiceImpl.java:44-50 | the stored flight under the command's id, nothing for a null or unknown id |
| LegacyBookings.BookingsService.CheckBooking | src/main/java/com/astrobookings/business/BookingServiceImpl.java:37-65 | the checks in source order give exactly the precheck on the current state; for the `domain/` revision (domain/BookingsService.java:38-60) the same checks without the blank-field ones |
| LegacyBookings.BookingsService.RecordBooking | src/main/java/com/astrobookings/business/BookingServiceImpl.java:79-88 | the booking is appended; SOLD_OUT once capacity is reached, even from CONFIRMED; else CONFIRMED with one notice when a SCHEDULED flight reaches its minimum; the flight is saved back and no other flight changes |
| LegacyBookings.BookingsService.PayAndBook | src/main/java/com/astrobookings/business/BookingServiceImpl.java:67-88 | exactly one charge; a refused payment is PAYMENT with nothing saved, changed or sent; an accepted one always ends in a new booking with the command's fields verbatim, recorded as above |
| LegacyBookings.BookingsService.CreateBooking | src/main/java/com/astrobookings/business/BookingServiceImpl.java:36-91 | a failed check gives its error with nothing paid or recorded; otherwise one charge; PAYMENT records nothing; a booking made keeps the flight's bookings within the rocket's capacity and sets the status as `RecordBooking` says. The `domain/` revision (domain/BookingsService.java:37-85) behaves alike, and stores the name exactly as given |
| LegacyCancellation.CancellationsMembers | src/main/java/com/astrobookings/business/CancellationService.java:28-33 | the flights cancelled are exactly those SCHEDULED, at most 7 whole days from departure and below their minimum |
| LegacyCancellation.CancellationsStep | src/main/java/com/astrobookings/business/CancellationService.java:28-47 | one more flight joins the cancellations exactly when its demand is low |
| LegacyCancellation.LogsAdvance | src/main/java/com/astrobookings/business/CancellationService.java:28-47 | one more pass moves the counter and both logs on by that flight's refunds and notice exactly when it is cancelled |
| LegacyCancellation.CancellationService.ProcessFlight | src/main/java/com/astrobookings/business/CancellationService.java:29-47 | cancelled exactly when the rule holds; then set CANCELLED and saved (store unchanged), one refund per booking in order and one notice with them, else nothing; the same pass in the `domain/` revision (domain/CancellationService.java:39-57) |
| LegacyCancellation.CancellationService.CancelAt | src/main/java/com/astrobookings/business/CancellationService.java:28-51 | one pass keeps the run's invariant: earlier low-demand flights cancelled, the rest as they were, counter and logs matching |
| LegacyCancellation.CancellationService.RunStart | src/main/java/com/astrobookings/business/CancellationService.java:24 | the flights `findAll` returns each have an id, distinct ids covering the store, and are stored under them |
| LegacyCancellation.CancellationService.RunEnd | src/main/java/com/astrobookings/business/CancellationService.java:28-51 | after the loop, each stored flight is CANCELLED exactly when its demand was low and otherwise keeps its status |
| LegacyCancellation.CancellationService.CancelAll | src/main/java/com/astrobookings/business/CancellationService.java:28-51 | the count is the number of low-demand flights; the logs hold their refunds and notices in order |
| LegacyCancellation.CancellationService.CancelFlights | src/main/java/com/astrobookings/business/CancellationService.java:23-53 | every stored flight is examined once; exactly the low-demand ones are cancelled, refunded and notified, all others keep their status, and the count is theirs; the same run in the `domain/` revision (domain/CancellationService.java:33-63) |
| LegacyFleetServices.RaisedMin | src/main/java/com/astrobookings/business/FlightService.java:38 | at least 5 and at least the request, and one of the two |
| LegacyFleetServices.FirstFlightViolation | src/main/java/com/astrobookings/business/FlightService.java:32-68 | the failure returned happens and every earlier one does not: null minimum, price <= 0, raised min outside 1..10, rocket missing, null date, not in the future, beyond a year; none when all pass |
| LegacyFleetServices.FlightAcceptedMeans | src/main/java/com/astrobookings/business/FlightService.java:45-68 | an accepted flight has a positive price, a known rocket, a departure within the coming year, and a minimum of 5 to 10 |
| LegacyFleetServices.MinRangeIsAgainstTen | src/main/java/com/astrobookings/business/FlightService.java:49-57 | with a positive price, the range check refuses exactly a minimum above 10, whatever the rocket |
| LegacyFleetServices.MinNotBoundByCapacity | src/main/java/com/astrobookings/domain/FlightService.java:50-58 | on a rocket of fewer than 5 seats, an accepted flight's minimum exceeds the capacity, which the fleet's `schedule` refuses |
| LegacyFleetServices.FlightService.GetFlights | src/main/java/com/astrobookings/business/FlightService.java:24-30 | for a non-empty filter, the flights of the status named (none for an unknown name); otherwise every stored flight; the same in the `domain/` revision (domain/FlightService.java:25-31) |
| LegacyFleetServices.FlightService.CreateFlight | src/main/java/com/astrobookings/business/FlightService.java:32-43 | fails exactly on the first failure, with its error and nothing saved; otherwise a new SCHEDULED flight with the raised minimum, stored once under the next generated id; the same in the `domain/` revision (domain/FlightService.java:33-44) |
| LegacyFleetServices.RocketRulesCompared | src/main/java/com/astrobookings/domain/RocketService.java:31-35 | the `domain/` rule refuses exactly what `Capacity.from` refuses; the `business/` rule adds a blank-name refusal |
| LegacyFleetServices.RocketService.GetAll | src/main/java/com/astrobookings/business/RocketService.java:21-23 | every stored rocket exactly once |
| LegacyFleetServices.RocketService.Create | src/main/java/com/astrobookings/business/RocketService.java:25-42 | VALIDATION and nothing saved for a blank name, then for a capacity outside 1..10; otherwise one new rocket with the command's fields under the next generated id. business/RocketServiceImpl.java:21-38 has the same rule. The `domain/` revision (domain/RocketService.java:21-35) checks only the capacity and accepts a blank name |

## Left out

- Console output: the `System.out` lines of the cancellation services and of the console payment and notification stubs print only.
- Concurrency: executions are sequential, and nothing locks a flight between the capacity check and the save.
- The clock and the calendar: `now` and `now.plusYears(1)` are parameters. `plusDays(7)` is exactly 7 x 86400 seconds. A `LocalDateTime` is read as seconds on one time line.
- Floating point: prices and discounts are exact reals, with no IEEE rounding.
- Transport and wiring: the HTTP handlers, the error-to-status mapping, the factories and the application bootstrap.
- Collaborators.PaymentGateway.ProcessPayment: its reply is left open (a transaction id or a refusal). The stubs' rule of refusing amounts above 10000, and their random transaction ids, are not modelled.
- The booking store's implementation is not part of this model. It is taken to keep bookings in insertion order, to append on `save`, and to match `findByPassengerName` exactly.
- BookingPersistence.BookingRepository.Save: it assigns no id. A booking is stored and returned with the id it came with, which is none for every booking the workflows create. A second save of the same booking appends it again rather than replacing it. The id the store would assign on a first save therefore appears nowhere in the model.
- FleetPersistence.FlightInMemoryRepository.constructor: in the source the map and the counter are `static`, so every instance shares one store that is seeded once. In the model each construction builds and seeds an independent store. Sharing holds only where the same store object is handed to every service, so two stores built separately may disagree where the source's cannot.
- FleetPersistence.RocketRepository.constructor: the same holds for the rocket store, whose map and counter are `static` too.
- Common.ToUpperMatchesIgnoringCase: case mapping is ASCII-only and ignores the locale. The source's `toUpperCase` and `equalsIgnoreCase` use the full Unicode tables and the default locale, so the lemma is not a fact about Java for inputs such as "ß" against "SS", or "\u212A" (the Kelvin sign) against "K".
- BookingPersistence.GetBookings: the name comparison under a flight id is ASCII-only. A booking stored under "JOSÉ" is not returned for "josé", though Java returns it.
- FleetPersistence.StatusLookupIgnoresCase: the status lookup upper-cases with the ASCII-only mapping. Java also maps "ſcheduled" and "conﬁrmed" onto status names, and under a Turkish locale "confirmed" upper-cases to "CONFİRMED" and matches nothing.
- FleetPersistence.FlightInMemoryRepository.FindByStatus: inherits that ASCII-only, locale-free lookup, so a filter such as "conﬁrmed" finds nothing in the model while Java finds the confirmed flights.
- FleetServices.FlightsService.GetFlights: inherits the same lookup through `findByStatus`.
- LegacyPersistence.LegacyFlightRepository.FindByStatus: the assumed legacy store uses the same ASCII-only, locale-free lookup.
- LegacyFleetServices.FlightService.GetFlights: inherits that lookup.
- The `business/` revision does not compile as it stands. `CancellationService` instantiates the interfaces `PaymentGateway` and `NotificationService` (business/CancellationService.java:17-18). `RocketServiceImpl` `implements` the class `RocketService` (business/RocketServiceImpl.java:10).
- LegacyCancellation.CancellationService.CancelFlights: for the `business/` revision it describes what that code would do if it compiled, with a gateway and a notifier supplied.
- LegacyFleetServices.RocketService.Create: for business/RocketServiceImpl.java it likewise describes what the code would do if it compiled.
- SalesFleetAdapter.FleetAdapter.MarkFlightSoldOut: neither the port nor the adapter shows this method. It is assumed to delegate to `Flight.markSoldOut` on the stored flight, without a save.
- SalesFleetAdapter.FleetAdapter.ConfirmFlightIfMinReached: likewise assumed to delegate to `Flight.confirmIfMinReached`.
- SalesFleetAdapter.FleetAdapter.CancelFlightIfLowDemand: likewise assumed to delegate to `Flight.cancelDueToLowDemand`.
- SalesFleetAdapter.FleetAdapter.UpdateFlightStatus: the shown `Flight` has no `setStatus`. The model writes the status directly.
- The fleet's rocket store is taken to be infrastructure/persistence/RocketInMemoryRepository.java, whose id counter and seed rocket it models.
- FleetServices.CreateRocketCommand is not part of this model. Its fields are taken from the way the services read them.
- The older revisions' flight class (persistence/models/Flight) and their flight store implementation are not part of this model. The flight is a bean with the fields the services set. The store is taken to behave like the fleet store, except that `findAll` returns every stored flight and `findByStatus` applies no date filter.
- The older revisions' rocket class is not part of this model. Their rockets are the fleet `Rocket`, whose capacity holds only after the capacity check, which every older rocket service runs before building one.
- LegacyBookings.BookingsService.CreateBooking: in the `domain/` revision it requires a passenger name. A null name there would be stored as null, which a booking's string field cannot hold.
- LegacyFleetServices.FlightService.CreateFlight: the bean is built after the checks rather than before. Nothing outside can observe the difference. A null minimum and a null date, which the source dereferences, surface as INTERNAL.
- The iteration order of a `HashMap` is left open: `findAll` returns every element once, in an order the model does not fix.

## Findings

| source | as written | input that shows it | evidently intended | confidence | as-written member | corrected member |
|---|---|---|---|---|---|---|
| src/main/java/com/astrobookings/sales/domain/models/Booking.java:23 | `create` validates the name with `isBlank`, which uses `Character.isWhitespace`, but stores `passengerName.trim()`, which removes every character up to U+0020 | the passenger name "\u0000": it passes every check and is stored as the empty string | store the name with `strip()`, so that a name that passed `isBlank` stays non-blank | not executed | Bookings.TrimmedNameCanBeEmpty | Bookings.StoredName |

`Booking.create` and the sales workflows store the name as written, through `trim`. `StoredName` is the corrected form, with its property proved. `CreationAcceptedMeans` states both: `trim` leaves the name empty exactly when every character of it is at most U+0020, while `StoredName` of an accepted name is never blank.

