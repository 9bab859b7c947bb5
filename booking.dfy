/** The sales booking entity (sales/domain/models/Booking.java): creation-time
    validation in a fixed order, and a record whose four data fields are final. */
module Bookings {
  import opened Common

  class Booking {
    var id: Option<string>
    const flightId: string
    const passengerName: string
    const finalPrice: real
    const paymentTransactionId: string

    /** `Booking.restore`: every field verbatim, with no validation and no trimming. */
    constructor Restore(id: Option<string>, flightId: string, passengerName: string, finalPrice: real,
                        paymentTransactionId: string)
      ensures this.id == id && this.flightId == flightId && this.passengerName == passengerName
      ensures this.finalPrice == finalPrice && this.paymentTransactionId == paymentTransactionId
    {
      this.id := id;
      this.flightId := flightId;
      this.passengerName := passengerName;
      this.finalPrice := finalPrice;
      this.paymentTransactionId := paymentTransactionId;
    }

    /** `Booking.create`: the first failing check of `validate` is raised; otherwise
        a booking with no id, the name passed through `trim`, and the other
        fields verbatim. A name that passed validation can still be stored empty
        (see `TrimmedNameCanBeEmpty`); `StoredName` is the corrected form. */
    static method Create(flightId: Option<string>, passengerName: Option<string>, finalPrice: real,
                         transactionId: Option<string>) returns (r: Result<Booking>)
      ensures r.Err? <==> FirstCreationViolation(flightId, passengerName, finalPrice, transactionId).Some?
      ensures r.Err? ==> r.code == ViolationCode(FirstCreationViolation(flightId, passengerName, finalPrice, transactionId).value)
      ensures r.Ok? ==> && fresh(r.value) && r.value.id.None?
                        && flightId == Some(r.value.flightId)
                        && passengerName.Some? && r.value.passengerName == TrimmedName(passengerName.value)
                        && r.value.finalPrice == finalPrice
                        && transactionId == Some(r.value.paymentTransactionId)
                        && r.value.Sound()
    {
      var v := FirstCreationViolation(flightId, passengerName, finalPrice, transactionId);
      if v.Some? {
        return Err(ViolationCode(v.value));
      }
      CreationAcceptedMeans(flightId, passengerName, finalPrice, transactionId);
      var b := new Booking.Restore(None, flightId.value, TrimmedName(passengerName.value), finalPrice, transactionId.value);
      return Ok(b);
    }

    /** What `create` guarantees of the fields it stores verbatim. The stored
        name is not among them: `trim` may leave it empty. */
    predicate Sound() {
      !IsBlank(flightId) && finalPrice > 0.0 && !IsBlank(paymentTransactionId)
    }

    /** `assignId`: the only write after construction. */
    method AssignId(newId: string)
      modifies this`id
      ensures id == Some(newId)
    {
      id := Some(newId);
    }
  }

  // ---------------------------------------------------------------------------
  // Creation-time validation (`validate`).

  datatype CreationViolation = FlightIdMissing | PassengerNameMissing | PriceNotPositive | TransactionMissing

  function CreationCheckRank(v: CreationViolation): nat {
    match v
    case FlightIdMissing => 0
    case PassengerNameMissing => 1
    case PriceNotPositive => 2
    case TransactionMissing => 3
  }

  /** A missing transaction is a PAYMENT failure; the other three are VALIDATION. */
  function ViolationCode(v: CreationViolation): (c: ErrorCode)
    ensures c == Payment <==> v == TransactionMissing
    ensures c == Validation <==> v != TransactionMissing
  {
    if v == TransactionMissing then Payment else Validation
  }

  predicate CreationCheckFails(v: CreationViolation, flightId: Option<string>, passengerName: Option<string>,
                               finalPrice: real, transactionId: Option<string>)
  {
    match v
    case FlightIdMissing => IsNullOrBlank(flightId)
    case PassengerNameMissing => IsNullOrBlank(passengerName)
    case PriceNotPositive => finalPrice <= 0.0
    case TransactionMissing => IsNullOrBlank(transactionId)
  }

  /** The check `validate` raises for: the first failing one in source order. */
  function FirstCreationViolation(flightId: Option<string>, passengerName: Option<string>, finalPrice: real,
                                  transactionId: Option<string>): (r: Option<CreationViolation>)
    ensures r.Some? ==>
      && CreationCheckFails(r.value, flightId, passengerName, finalPrice, transactionId)
      && forall v :: CreationCheckRank(v) < CreationCheckRank(r.value) ==>
           !CreationCheckFails(v, flightId, passengerName, finalPrice, transactionId)
    ensures r.None? <==> forall v :: !CreationCheckFails(v, flightId, passengerName, finalPrice, transactionId)
  {
    if IsNullOrBlank(flightId) then Some(FlightIdMissing)
    else if IsNullOrBlank(passengerName) then Some(PassengerNameMissing)
    else if finalPrice <= 0.0 then Some(PriceNotPositive)
    else if IsNullOrBlank(transactionId) then Some(TransactionMissing)
    else None
  }

  lemma CreationAcceptedMeans(flightId: Option<string>, passengerName: Option<string>, finalPrice: real,
                              transactionId: Option<string>)
    requires FirstCreationViolation(flightId, passengerName, finalPrice, transactionId).None?
    ensures flightId.Some? && !IsBlank(flightId.value)
    ensures passengerName.Some? && !IsBlank(passengerName.value)
    ensures finalPrice > 0.0
    ensures transactionId.Some? && !IsBlank(transactionId.value)
    ensures TrimmedName(passengerName.value) == [] <==>
              forall i :: 0 <= i < |passengerName.value| ==> IsTrimmable(passengerName.value[i])
    ensures !IsBlank(StoredName(passengerName.value))
  {
    assert !CreationCheckFails(FlightIdMissing, flightId, passengerName, finalPrice, transactionId);
    assert !CreationCheckFails(PassengerNameMissing, flightId, passengerName, finalPrice, transactionId);
    assert !CreationCheckFails(PriceNotPositive, flightId, passengerName, finalPrice, transactionId);
    assert !CreationCheckFails(TransactionMissing, flightId, passengerName, finalPrice, transactionId);
    TrimEmptyIff(passengerName.value);
  }

  // ---------------------------------------------------------------------------
  // The stored passenger name.

  /** The name as `create` is written to store it: `passengerName.trim()`. */
  function TrimmedName(name: string): string {
    Trim(name)
  }

  /** `trim` removes every code point up to U+0020, but `isBlank` treats most of
      them (U+0000, U+0001, ...) as ordinary characters: such a name passes
      validation and is then stored empty. */
  lemma TrimmedNameCanBeEmpty()
    ensures var name := "\U{0000}";
            && FirstCreationViolation(Some("f1"), Some(name), 100.0, Some("tx")).None?
            && TrimmedName(name) == ""
  {
    var name := "\U{0000}";
    assert !IsWhitespace(name[0]);
    assert !IsBlank("f1") by { assert !IsWhitespace("f1"[0]); }
    assert !IsBlank("tx") by { assert !IsWhitespace("tx"[0]); }
    TrimEmptyIff(name);
  }

  /** The name as `create` is meant to store it: surrounding whitespace, in the
      sense `isBlank` uses, removed (Java's `strip`). */
  function StoredName(name: string): (r: string)
    ensures !IsBlank(name) ==> r != [] && !IsBlank(r)
    ensures !IsBlank(name) ==> !IsWhitespace(r[0]) && !IsWhitespace(r[|r| - 1])
  {
    if IsBlank(name) then Strip(name) else StripOfNonBlank(name); Strip(name)
  }
}
