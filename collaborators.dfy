/** The payment gateway and the notification service every revision calls. Their
    implementations only print to the console; here each call is recorded in a
    ghost log, and the payment reply is left open. */
module Collaborators {
  import opened Common
  import opened Bookings

  /** A call made to the payment gateway. */
  datatype PaymentCall = Charge(amount: real) | Refund(transactionId: string, amount: real)

  /** A notification that was sent. */
  datatype Notice =
    | Confirmation(flightId: string, passengers: int)
    | CancellationNotice(flightId: string, bookings: seq<Booking>)

  class PaymentGateway {
    ghost var log: seq<PaymentCall>

    constructor ()
      ensures log == []
    {
      log := [];
    }

    /** `processPayment(amount)`: either a transaction id or an exception, which
        the callers turn into PAYMENT. Which one the gateway gives is not modelled. */
    method ProcessPayment(amount: real) returns (r: Result<string>)
      modifies this`log
      ensures r.Err? ==> r.code == Payment
      ensures log == old(log) + [Charge(amount)]
    {
      var accepted: bool :| true;
      var transactionId: string :| true;
      log := log + [Charge(amount)];
      r := if accepted then Ok(transactionId) else Err(Payment);
    }

    /** `processRefund(transactionId, amount)`. */
    method ProcessRefund(transactionId: string, amount: real)
      modifies this`log
      ensures log == old(log) + [Refund(transactionId, amount)]
    {
      log := log + [Refund(transactionId, amount)];
    }
  }

  class NotificationService {
    ghost var log: seq<Notice>

    constructor ()
      ensures log == []
    {
      log := [];
    }

    /** `notifyConfirmation(flightId, passengers)`. */
    method NotifyConfirmation(flightId: string, passengers: int)
      modifies this`log
      ensures log == old(log) + [Confirmation(flightId, passengers)]
    {
      log := log + [Confirmation(flightId, passengers)];
    }

    /** `notifyCancellation(flightId, bookings)`. */
    method NotifyCancellation(flightId: string, bookings: seq<Booking>)
      modifies this`log
      ensures log == old(log) + [CancellationNotice(flightId, bookings)]
    {
      log := log + [CancellationNotice(flightId, bookings)];
    }
  }

  /** One refund per booking, in list order, each at the booking's own
      transaction id and final price. */
  function RefundsFor(bookings: seq<Booking>): (r: seq<PaymentCall>)
    ensures |r| == |bookings|
    ensures forall i :: 0 <= i < |bookings| ==>
      r[i] == Refund(bookings[i].paymentTransactionId, bookings[i].finalPrice)
  {
    if bookings == [] then []
    else [Refund(bookings[0].paymentTransactionId, bookings[0].finalPrice)] + RefundsFor(bookings[1..])
  }

  lemma {:induction false} RefundsForConcat(a: seq<Booking>, b: seq<Booking>)
    ensures RefundsFor(a + b) == RefundsFor(a) + RefundsFor(b)
  {
    if a == [] {
      assert a + b == b;
    } else {
      assert (a + b)[1..] == a[1..] + b;
      RefundsForConcat(a[1..], b);
    }
  }
}
