/** What a cancellation run leaves in the collaborators' logs, shared by the
    three revisions' `cancelFlights`: for each cancelled flight, in run order,
    one refund per booking in store order and then one cancellation notice
    carrying the same bookings. */
module CancellationLogs {
  import opened Common
  import opened Bookings
  import opened Collaborators
  import opened BookingPersistence

  /** The refunds for the cancelled flights `ids`: each flight's bookings, in
      store order, one flight after the other. */
  function Refunds(ids: seq<string>, bookings: seq<Booking>): seq<PaymentCall> {
    if ids == [] then []
    else Refunds(ids[..|ids| - 1], bookings) + RefundsFor(OfFlight(bookings, ids[|ids| - 1]))
  }

  /** One cancellation notice per cancelled flight, carrying its bookings. */
  function Notices(ids: seq<string>, bookings: seq<Booking>): (r: seq<Notice>)
    ensures |r| == |ids|
    ensures forall i :: 0 <= i < |ids| ==> r[i] == CancellationNotice(ids[i], OfFlight(bookings, ids[i]))
  {
    seq(|ids|, i requires 0 <= i < |ids| => CancellationNotice(ids[i], OfFlight(bookings, ids[i])))
  }

  /** Every booking of a cancelled flight is refunded, at its own transaction id
      and price. */
  lemma {:induction false} EveryBookingRefunded(ids: seq<string>, bookings: seq<Booking>, j: int, i: int)
    requires 0 <= j < |ids| && 0 <= i < |bookings| && bookings[i].flightId == ids[j]
    ensures Refund(bookings[i].paymentTransactionId, bookings[i].finalPrice) in Refunds(ids, bookings)
  {
    var last := |ids| - 1;
    if j == last {
      var ofFlight := OfFlight(bookings, ids[j]);
      var m :| 0 <= m < |ofFlight| && ofFlight[m] == bookings[i];
      assert RefundsFor(ofFlight)[m] == Refund(bookings[i].paymentTransactionId, bookings[i].finalPrice);
    } else {
      EveryBookingRefunded(ids[..last], bookings, j, i);
    }
  }

  /** Every refund is of a stored booking of a cancelled flight. */
  lemma {:induction false} RefundsAreOfCancelledBookings(ids: seq<string>, bookings: seq<Booking>, k: int)
    requires 0 <= k < |Refunds(ids, bookings)|
    ensures exists j, i :: 0 <= j < |ids| && 0 <= i < |bookings| && bookings[i].flightId == ids[j]
                           && Refunds(ids, bookings)[k] == Refund(bookings[i].paymentTransactionId, bookings[i].finalPrice)
  {
    var last := |ids| - 1;
    var front := Refunds(ids[..last], bookings);
    var ofFlight := OfFlight(bookings, ids[last]);
    assert Refunds(ids, bookings) == front + RefundsFor(ofFlight);
    if k < |front| {
      RefundsAreOfCancelledBookings(ids[..last], bookings, k);
      var j, i :| 0 <= j < last && 0 <= i < |bookings| && bookings[i].flightId == ids[..last][j]
                  && front[k] == Refund(bookings[i].paymentTransactionId, bookings[i].finalPrice);
      assert ids[..last][j] == ids[j];
    } else {
      var m := k - |front|;
      var i :| 0 <= i < |bookings| && bookings[i] == ofFlight[m];
      assert Refunds(ids, bookings)[k] == RefundsFor(ofFlight)[m];
    }
  }

  lemma NoticesAppend(ids: seq<string>, id: string, bookings: seq<Booking>)
    ensures Notices(ids + [id], bookings) == Notices(ids, bookings) + [CancellationNotice(id, OfFlight(bookings, id))]
  {
    var r := Notices(ids + [id], bookings);
    var expected := Notices(ids, bookings) + [CancellationNotice(id, OfFlight(bookings, id))];
    assert |r| == |expected|;
    forall m | 0 <= m < |r|
      ensures r[m] == expected[m]
    {
      if m < |ids| {
        assert (ids + [id])[m] == ids[m];
      }
    }
  }

  lemma RefundsAppend(ids: seq<string>, id: string, bookings: seq<Booking>)
    ensures Refunds(ids + [id], bookings) == Refunds(ids, bookings) + RefundsFor(OfFlight(bookings, id))
  {
    assert (ids + [id])[..|ids|] == ids;
  }

  /** One more cancelled flight extends both logs by its refunds and its notice. */
  lemma LogsStep(refundsStart: seq<PaymentCall>, noticesStart: seq<Notice>, ids: seq<string>, id: string,
                 bookings: seq<Booking>, refunds: seq<PaymentCall>, notices: seq<Notice>)
    requires refunds == refundsStart + Refunds(ids, bookings)
    requires notices == noticesStart + Notices(ids, bookings)
    ensures refunds + RefundsFor(OfFlight(bookings, id)) == refundsStart + Refunds(ids + [id], bookings)
    ensures notices + [CancellationNotice(id, OfFlight(bookings, id))] == noticesStart + Notices(ids + [id], bookings)
  {
    RefundsAppend(ids, id, bookings);
    NoticesAppend(ids, id, bookings);
    ConcatAssociative(refundsStart, Refunds(ids, bookings), RefundsFor(OfFlight(bookings, id)));
    ConcatAssociative(noticesStart, Notices(ids, bookings), [CancellationNotice(id, OfFlight(bookings, id))]);
  }

  /** One more refund extends the log by the next booking's refund. */
  lemma RefundsForStep(log0: seq<PaymentCall>, log: seq<PaymentCall>, bookings: seq<Booking>, j: int)
    requires 0 <= j < |bookings| && log == log0 + RefundsFor(bookings[..j])
    ensures log + [Refund(bookings[j].paymentTransactionId, bookings[j].finalPrice)] == log0 + RefundsFor(bookings[..j + 1])
  {
    assert bookings[..j + 1] == bookings[..j] + [bookings[j]];
    RefundsForConcat(bookings[..j], [bookings[j]]);
    ConcatAssociative(log0, RefundsFor(bookings[..j]), [Refund(bookings[j].paymentTransactionId, bookings[j].finalPrice)]);
  }

  /** The refund loop: one refund per booking, in list order. */
  method RefundEach(paymentGateway: PaymentGateway, bookings: seq<Booking>)
    modifies paymentGateway`log
    ensures paymentGateway.log == old(paymentGateway.log) + RefundsFor(bookings)
  {
    var j := 0;
    while j < |bookings|
      invariant 0 <= j <= |bookings|
      invariant paymentGateway.log == old(paymentGateway.log) + RefundsFor(bookings[..j])
    {
      RefundsForStep(old(paymentGateway.log), paymentGateway.log, bookings, j);
      paymentGateway.ProcessRefund(bookings[j].paymentTransactionId, bookings[j].finalPrice);
      j := j + 1;
    }
    assert bookings[..j] == bookings;
  }

  /** What follows a cancellation: the refund loop over the flight's bookings,
      then one cancellation notice with the same list. */
  method RefundAndNotify(paymentGateway: PaymentGateway, notificationService: NotificationService,
                         flightId: string, bookings: seq<Booking>)
    modifies paymentGateway`log, notificationService`log
    ensures paymentGateway.log == old(paymentGateway.log) + RefundsFor(bookings)
    ensures notificationService.log == old(notificationService.log) + [CancellationNotice(flightId, bookings)]
  {
    RefundEach(paymentGateway, bookings);
    notificationService.NotifyCancellation(flightId, bookings);
  }
}
