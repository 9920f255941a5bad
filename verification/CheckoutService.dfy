/**
  * CheckoutService's webhook side, as the methods that change the tables in place.
  * Every method is tied to the function that says what one undisturbed call does;
  * what those functions promise together is proved in CheckoutOrder, and what is
  * kept when calls overlap in CheckoutRuns.
  */
module CheckoutService {
  import opened Options
  import opened CheckoutDb

  class Service {
    var events: map<EventId, EventRow>
    var checkouts: map<SessionId, CheckoutRow>
    var payments: seq<PaymentRow>
    var refunds: seq<RefundRow>

    constructor (checkouts: map<SessionId, CheckoutRow>)
      ensures Tables() == Db(map[], checkouts, [], [])
    {
      this.events, this.checkouts, this.payments, this.refunds := map[], checkouts, [], [];
    }

    function Tables(): Db
      reads this
    {
      Db(events, checkouts, payments, refunds)
    }

    method Remember(meta: Meta, outcome: Outcome) returns (o: Outcome)
      modifies this
      ensures (Tables(), o) == TxRemember(old(Tables()), meta, outcome)
    {
      if meta.id in events {
        return Duplicate;
      }
      events := events[meta.id := EventRow(outcome, meta.intent)];
      return outcome;
    }

    method MaybeRemember(meta: Option<Meta>, outcome: Outcome) returns (o: Outcome)
      modifies this
      ensures (Tables(), o) == TxMaybeRemember(old(Tables()), meta, outcome)
    {
      o := outcome;
      if meta.Some? {
        o := Remember(meta.value, outcome);
      }
    }

    /** One event, whatever it is about. */
    method HandleEvent(stripe: Stripe, e: Event) returns (o: Outcome)
      modifies this
      ensures (Tables(), o) == CheckoutDb.HandleEvent(old(Tables()), stripe, e)
    {
      if e.id in events {
        return Duplicate;
      }
      var meta := MetaOf(e);
      match e {
        case SessionSettled(_, s) =>
          if s.paid {
            o := Confirm(stripe, s, Some(meta));
          } else {
            o := Remember(meta, AwaitingPayment);
          }
        case SessionFailed(_, s) => o := MarkCheckout(meta, s, AsyncFailed, CheckoutHasFailed);
        case SessionExpired(_, s) => o := MarkCheckout(meta, s, Expired, CheckoutWasExpired);
        case IntentSucceeded(_, _, _) => o := IntentSucceeded(stripe, e);
        case IntentFailed(_, _, _) => o := IntentFailed(stripe, e);
        case RefundChanged(_, _) => o := RefundEvent(e);
        case ChargeRefunded(_, _) => o := ChargeRefunded(stripe, e);
        case OtherEvent(_) => o := Remember(meta, Ignored);
      }
    }

    method MarkCheckout(meta: Meta, s: SessionId, status: CheckoutStatus, outcome: Outcome) returns (o: Outcome)
      modifies this
      ensures (Tables(), o) == TxRemember(TxMark(old(Tables()), s, status), meta, outcome)
    {
      if s in checkouts && checkouts[s].status == Open {
        checkouts := checkouts[s := checkouts[s].(status := status)];
      }
      o := Remember(meta, outcome);
    }

    method IntentSucceeded(stripe: Stripe, e: Event) returns (o: Outcome)
      requires e.IntentSucceeded?
      modifies this
      ensures (Tables(), o) == OnIntentSucceeded(old(Tables()), stripe, e)
    {
      if !e.ours || !stripe.available {
        o := Remember(MetaOf(e), Ignored);
        return;
      }
      if !stripe.reachable {
        return Thrown;
      }
      var s := stripe.SessionOfIntent(e.pi);
      if s.None? {
        o := Remember(MetaOf(e), UnknownSession);
      } else if !s.value.paid {
        o := Remember(MetaOf(e), AwaitingPayment);
      } else {
        o := Confirm(stripe, s.value, Some(MetaOf(e)));
      }
    }

    /** A declined card is counted in the event's own transaction. */
    method IntentFailed(stripe: Stripe, e: Event) returns (o: Outcome)
      requires e.IntentFailed?
      modifies this
      ensures (Tables(), o) == OnIntentFailed(old(Tables()), stripe, e)
    {
      if !e.ours || !stripe.available {
        o := Remember(MetaOf(e), Ignored);
        return;
      }
      if !stripe.reachable {
        return Thrown;
      }
      var s := stripe.SessionOfIntent(e.pi);
      if s.None? || s.value.id !in checkouts {
        o := Remember(MetaOf(e), UnknownSession);
        return;
      }
      var inserted := Remember(MetaOf(e), PaymentFailed);
      if inserted == Duplicate {
        return Duplicate;
      }
      var c := checkouts[s.value.id];
      checkouts := checkouts[s.value.id := c.(failureCount := c.failureCount + 1, intent := Some(e.pi))];
      return PaymentFailed;
    }

    method RefundEvent(e: Event) returns (o: Outcome)
      requires e.RefundChanged?
      modifies this
      ensures (Tables(), o) == OnRefund(old(Tables()), e)
    {
      var i := e.refund.intent;
      var p := if i.Some? then PaymentOfIntent(payments, i.value) else None;
      if p.None? {
        o := Remember(MetaOf(e), RefundDeferred);
      } else {
        o := RecordRefund(Some(MetaOf(e)), p.value, e.refund);
      }
    }

    method ChargeRefunded(stripe: Stripe, e: Event) returns (o: Outcome)
      requires e.ChargeRefunded?
      modifies this
      ensures (Tables(), o) == OnCharge(old(Tables()), stripe, e)
    {
      if e.charged.None? {
        o := Remember(MetaOf(e), Ignored);
        return;
      }
      var p := PaymentOfIntent(payments, e.charged.value);
      if p.None? || !stripe.available {
        o := Remember(MetaOf(e), RefundDeferred);
        return;
      }
      if !stripe.reachable {
        return Thrown;
      }
      var n := SyncRefunds(stripe, p.value);
      o := Remember(MetaOf(e), if n > 0 then RefundRecorded else AlreadyRecorded);
    }

    /** Every refund Stripe holds for the payment that the tables lack, oldest first. */
    method SyncRefunds(stripe: Stripe, payment: nat) returns (recorded: nat)
      requires payment < |payments|
      modifies this
      ensures (Tables(), recorded) == CheckoutDb.SyncRefunds(old(Tables()), stripe, payment)
    {
      recorded := 0;
      var i := payments[payment].intent;
      if i.None? || !stripe.available {
        return;
      }
      var list := stripe.RefundsOf(i.value);
      var k := |list|;
      assert list[..k] == list;
      while k > 0
        invariant 0 <= k <= |list|
        invariant payments == old(payments)
        invariant var (db, n) := SyncEach(Tables(), payment, list[..k]);
                  SyncEach(old(Tables()), payment, list) == (db, n + recorded)
      {
        k := k - 1;
        var r := list[k];
        assert list[..k + 1][..k] == list[..k] && list[..k + 1][k] == r;
        if (r.intent.Some? && r.intent != i) || HasRefund(refunds, r.id) {
          continue;
        }
        var o := RecordRefund(None, payment, r);
        if o == RefundRecorded {
          recorded := recorded + 1;
        }
      }
    }

    method SyncDeferredRefunds(stripe: Stripe, payment: nat)
      requires payment < |payments|
      modifies this
      ensures Tables() == SyncDeferred(old(Tables()), stripe, payment)
    {
      var i := payments[payment].intent;
      if i.None? {
        return;
      }
      var waiting := exists id :: id in events && events[id] == EventRow(RefundDeferred, Some(i.value));
      if waiting && stripe.reachable {
        var _ := SyncRefunds(stripe, payment);
      }
    }

    /** A session Stripe says is paid; `meta` None when no event told of it. */
    method Confirm(stripe: Stripe, session: Session, meta: Option<Meta>) returns (o: Outcome)
      modifies this
      ensures (Tables(), o) == CheckoutDb.Confirm(old(Tables()), stripe, session, meta)
    {
      if session.id !in checkouts {
        o := MaybeRemember(meta, UnknownSession);
        return;
      }
      var m := WithIntent(meta, session);
      var checkout := checkouts[session.id];
      if PaymentOfSession(payments, session.id).Some? {
        checkouts := checkouts[session.id := checkout.(status := Complete)];
        o := MaybeRemember(m, AlreadyRecorded);
        return;
      }
      if !Matches(session, checkout) {
        if m.Some? && m.value.id in events {
          return Thrown;
        }
        o := MaybeRemember(m, Mismatch);
        return;
      }
      if m.Some? && m.value.id in events {
        return Duplicate;
      }
      if session.intent.Some? && PaymentOfIntent(payments, session.intent.value).Some? {
        return AlreadyRecorded;
      }
      var _ := MaybeRemember(m, Recorded);
      payments := payments + [PaymentRow(session.id, session.intent, checkout.request, checkout.amount, checkout.currency)];
      checkouts := checkouts[session.id := checkout.(status := Complete, intent := session.intent)];
      SyncDeferredRefunds(stripe, |payments| - 1);
      return Recorded;
    }

    /** Once per Stripe refund id; a failed or cancelled refund is not money given back. */
    method RecordRefund(meta: Option<Meta>, payment: nat, refund: RefundFacts) returns (o: Outcome)
      modifies this
      ensures (Tables(), o) == CheckoutDb.RecordRefund(old(Tables()), meta, payment, refund)
      ensures payments == old(payments)
    {
      if !refund.status.Succeeded? && !refund.status.Pending? {
        if meta.None? {
          return RefundNotFinal;
        }
        if (refund.status.Failed? || refund.status.Canceled?) && HasRefund(refunds, refund.id) {
          o := Remember(meta.value, RefundFailedAfterRecord);
        } else {
          o := Remember(meta.value, RefundNotFinal);
        }
        return;
      }
      if meta.Some? && meta.value.id in events {
        return Duplicate;
      }
      var _ := MaybeRemember(meta, RefundRecorded);
      if !HasRefund(refunds, refund.id) {
        refunds := refunds + [RefundRow(refund.id, payment, refund.amount)];
      }
      return RefundRecorded;
    }
  }
}
