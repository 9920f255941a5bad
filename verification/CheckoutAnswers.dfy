/**
  * What one undisturbed delivery is answered, and what it writes: said of the tables'
  * own rows and of what Stripe says, event by event.
  */
module CheckoutAnswers {
  import opened Options
  import opened CheckoutDb
  import CheckoutOpen

  ghost predicate IsPaidFor(db: Db, s: SessionId) {
    exists k :: 0 <= k < |db.payments| && db.payments[k].session == s
  }

  ghost predicate IntentIsPaid(db: Db, i: Option<IntentId>) {
    i.Some? && exists k :: 0 <= k < |db.payments| && db.payments[k].intent == i
  }

  /** Stripe's session is for the amount and the currency asked, and names no other request. */
  predicate IsAsAsked(s: Session, c: CheckoutRow) {
    s.amount == c.amount && s.currency == c.currency && (s.requestTag == None || s.requestTag == Some(c.request))
  }

  /** One event row more, of this answer; nothing else. */
  ghost predicate OnlyNotes(db: Db, db1: Db, id: EventId, outcome: Outcome, intent: Option<IntentId>) {
    id !in db.events && db1 == db.(events := db.events[id := EventRow(outcome, intent)])
  }

  // ---------------------------------------------------------------- a session found paid

  /** Confirming: unknown, recorded before, not what was asked, or recorded now; a payment of the same intent only hides it. */
  lemma ConfirmAnswers(db: Db, stripe: Stripe, s: Session, m: Meta)
    requires m.id !in db.events
    ensures var (db1, o) := Confirm(db, stripe, s, Some(m));
            var intent := if m.intent == None then s.intent else m.intent;
            && (o == UnknownSession <==> s.id !in db.checkouts)
            && (o == AlreadyRecorded
                <==> s.id in db.checkouts && (IsPaidFor(db, s.id) || (IsAsAsked(s, db.checkouts[s.id]) && IntentIsPaid(db, s.intent))))
            && (o == Mismatch <==> s.id in db.checkouts && !IsPaidFor(db, s.id) && !IsAsAsked(s, db.checkouts[s.id]))
            && (o == Recorded <==> s.id in db.checkouts && !IsPaidFor(db, s.id) && IsAsAsked(s, db.checkouts[s.id]) && !IntentIsPaid(db, s.intent))
            && (o == UnknownSession ==> OnlyNotes(db, db1, m.id, o, m.intent))
            && (o == Mismatch ==> OnlyNotes(db, db1, m.id, o, intent))
            && (o == AlreadyRecorded && !IsPaidFor(db, s.id) ==> db1 == db)
            && (o == AlreadyRecorded && IsPaidFor(db, s.id) ==>
                  OnlyNotes(db, db1.(checkouts := db.checkouts), m.id, o, intent)
                  && db1.checkouts == db.checkouts[s.id := db.checkouts[s.id].(status := Complete)])
            && (o == Recorded ==>
                  var c := db.checkouts[s.id];
                  && db1.events == db.events[m.id := EventRow(Recorded, intent)]
                  && db1.payments == db.payments + [PaymentRow(s.id, s.intent, c.request, c.amount, c.currency)]
                  && db1.checkouts == db.checkouts[s.id := c.(status := Complete, intent := s.intent)])
  {
    if s.id in db.checkouts {
      var (db0, o) := TxConfirm(db, WithIntent(Some(m), s), s, db.checkouts[s.id]);
      if o == Recorded {
        CheckoutOpen.SyncKeepsRows(db0, stripe, |db.payments|);
        SyncNotesNone(db0, stripe, |db.payments|);
      }
    }
  }

  lemma SyncNotesNone(db: Db, stripe: Stripe, p: nat)
    requires p < |db.payments|
    ensures SyncDeferred(db, stripe, p).events == db.events
  {
    if db.payments[p].intent.Some? {
      ListNotesNone(db, p, stripe.RefundsOf(db.payments[p].intent.value));
    }
  }

  lemma {:induction false} ListNotesNone(db: Db, p: nat, list: seq<RefundFacts>)
    requires p < |db.payments|
    ensures SyncEach(db, p, list).0.events == db.events
    decreases |list|
  {
    if list != [] {
      var r, rest := list[|list| - 1], list[..|list| - 1];
      ListNotesNone(db, p, rest);
      ListNotesNone(RecordRefund(db, None, p, r).0, p, rest);
    }
  }

  /** The sync after a recorded payment runs only where a deferred event of its intent waits, and only where Stripe answers. */
  lemma WaitingIsSynced(db: Db, stripe: Stripe, p: nat)
    requires p < |db.payments|
    ensures var i := db.payments[p].intent;
            var waits := exists id :: id in db.events && db.events[id].outcome == RefundDeferred && i.Some? && db.events[id].intent == i;
            SyncDeferred(db, stripe, p)
            == if waits && stripe.available && stripe.reachable then SyncEach(db, p, stripe.RefundsOf(i.value)).0 else db
  {
    var i := db.payments[p].intent;
    if i.Some? && Waiting(db.events, i.value) {
      var id :| id in db.events && db.events[id] == EventRow(RefundDeferred, i);
    }
    if id :| id in db.events && db.events[id].outcome == RefundDeferred && i.Some? && db.events[id].intent == i {
      assert db.events[id] == EventRow(RefundDeferred, Some(i.value));
    }
  }

  // ---------------------------------------------------------------- the events

  /** An event seen before changes nothing. */
  lemma SeenIsDuplicate(db: Db, stripe: Stripe, e: Event)
    requires e.id in db.events
    ensures HandleEvent(db, stripe, e) == (db, Duplicate)
  {
  }

  lemma SettledAnswers(db: Db, stripe: Stripe, e: Event)
    requires e.id !in db.events && e.SessionSettled?
    ensures var (db1, o) := HandleEvent(db, stripe, e);
            && (!e.session.paid ==> o == AwaitingPayment && OnlyNotes(db, db1, e.id, o, e.session.intent))
            && (e.session.paid ==> (db1, o) == Confirm(db, stripe, e.session, Some(Meta(e.id, e.session.intent))))
  {
  }

  /** An intent's success: looked up at Stripe, and its session confirmed if it is paid. */
  lemma SucceededAnswers(db: Db, stripe: Stripe, e: Event)
    requires e.id !in db.events && e.IntentSucceeded?
    ensures var (db1, o) := HandleEvent(db, stripe, e); var s := stripe.SessionOfIntent(e.pi);
            && (!e.ours || !stripe.available ==> o == Ignored && OnlyNotes(db, db1, e.id, o, Some(e.pi)))
            && (e.ours && stripe.available && !stripe.reachable ==> o == Thrown && db1 == db)
            && (e.ours && stripe.available && stripe.reachable && s == None ==> o == UnknownSession && OnlyNotes(db, db1, e.id, o, Some(e.pi)))
            && (e.ours && stripe.available && stripe.reachable && s.Some? && !s.value.paid ==>
                  o == AwaitingPayment && OnlyNotes(db, db1, e.id, o, Some(e.pi)))
            && (e.ours && stripe.available && stripe.reachable && s.Some? && s.value.paid ==>
                  (db1, o) == Confirm(db, stripe, s.value, Some(Meta(e.id, Some(e.pi)))))
  {
  }

  /** A declined attempt: one more failure on its checkout, which remembers the intent. */
  lemma FailedAnswers(db: Db, stripe: Stripe, e: Event)
    requires e.id !in db.events && e.IntentFailed?
    ensures var (db1, o) := HandleEvent(db, stripe, e); var s := stripe.SessionOfIntent(e.pi);
            && (!e.ours || !stripe.available ==> o == Ignored && OnlyNotes(db, db1, e.id, o, Some(e.pi)))
            && (e.ours && stripe.available && !stripe.reachable ==> o == Thrown && db1 == db)
            && (e.ours && stripe.available && stripe.reachable && (s == None || s.value.id !in db.checkouts) ==>
                  o == UnknownSession && OnlyNotes(db, db1, e.id, o, Some(e.pi)))
            && (e.ours && stripe.available && stripe.reachable && s.Some? && s.value.id in db.checkouts ==>
                  var c := db.checkouts[s.value.id];
                  o == PaymentFailed && OnlyNotes(db, db1.(checkouts := db.checkouts), e.id, o, Some(e.pi))
                  && db1.checkouts == db.checkouts[s.value.id := c.(failureCount := c.failureCount + 1, intent := Some(e.pi))])
  {
  }

  /** A session that failed or expired: its checkout, if it is still open, and the event. */
  lemma EndedAnswers(db: Db, stripe: Stripe, e: Event)
    requires e.id !in db.events && (e.SessionFailed? || e.SessionExpired?)
    ensures var (db1, o) := HandleEvent(db, stripe, e); var s := e.sessionId;
            && o == (if e.SessionExpired? then CheckoutWasExpired else CheckoutHasFailed)
            && OnlyNotes(db, db1.(checkouts := db.checkouts), e.id, o, None)
            && db1.checkouts
               == if s in db.checkouts && db.checkouts[s].status == Open
                  then db.checkouts[s := db.checkouts[s].(status := if e.SessionExpired? then Expired else AsyncFailed)] else db.checkouts
  {
  }

  /** The rows a refund adds: one, if it is on its way and has none. */
  ghost predicate AddsRefund(db: Db, db1: Db, p: nat, r: RefundFacts) {
    db1.refunds == if exists k :: 0 <= k < |db.refunds| && db.refunds[k].refund == r.id then db.refunds
                   else db.refunds + [RefundRow(r.id, p, r.amount)]
  }

  /** A refund's own event, by the refund's status. */
  lemma RefundAnswers(db: Db, stripe: Stripe, e: Event)
    requires e.id !in db.events && e.RefundChanged?
    ensures var (db1, o) := HandleEvent(db, stripe, e); var r := e.refund;
            var had := exists k :: 0 <= k < |db.refunds| && db.refunds[k].refund == r.id;
            && OnlyNotes(db, db1.(refunds := db.refunds), e.id, o, r.intent)
            && (!IntentIsPaid(db, r.intent) ==> o == RefundDeferred && db1.refunds == db.refunds)
            && (IntentIsPaid(db, r.intent) && (r.status == Succeeded || r.status == Pending) ==>
                  o == RefundRecorded && exists p: nat :: p < |db.payments| && db.payments[p].intent == r.intent && AddsRefund(db, db1, p, r))
            && (IntentIsPaid(db, r.intent) && r.status == RequiresAction ==> o == RefundNotFinal && db1.refunds == db.refunds)
            && (IntentIsPaid(db, r.intent) && (r.status == Failed || r.status == Canceled) ==>
                  o == (if had then RefundFailedAfterRecord else RefundNotFinal) && db1.refunds == db.refunds)
  {
    if r :| r == e.refund && r.intent.Some? {
      var p := PaymentOfIntent(db.payments, r.intent.value);
      if p.Some? {
        assert p.value < |db.payments| && db.payments[p.value].intent == r.intent;
      }
    }
  }

  /** A refunded charge: synced where its payment is recorded, and kept waiting where it is not or Stripe is not to be asked. */
  lemma ChargeAnswers(db: Db, stripe: Stripe, e: Event)
    requires e.id !in db.events && e.ChargeRefunded?
    ensures var (db1, o) := HandleEvent(db, stripe, e);
            && (e.charged == None ==> o == Ignored && OnlyNotes(db, db1, e.id, o, None))
            && (e.charged.Some? && (!IntentIsPaid(db, e.charged) || !stripe.available) ==>
                  o == RefundDeferred && OnlyNotes(db, db1, e.id, o, e.charged))
            && (IntentIsPaid(db, e.charged) && stripe.available && !stripe.reachable ==> o == Thrown && db1 == db)
            && (IntentIsPaid(db, e.charged) && stripe.available && stripe.reachable ==>
                  && db1.events == db.events[e.id := EventRow(o, e.charged)] && db1.payments == db.payments && db1.checkouts == db.checkouts
                  && db.refunds <= db1.refunds
                  && o == (if |db1.refunds| > |db.refunds| then RefundRecorded else AlreadyRecorded))
  {
    if e.charged.Some? && PaymentOfIntent(db.payments, e.charged.value).Some? {
      var p := PaymentOfIntent(db.payments, e.charged.value).value;
      assert db.payments[p].intent == e.charged;
      CheckoutOpen.SyncEachKeepsRows(db, p, stripe.RefundsOf(e.charged.value));
      ListNotesNone(db, p, stripe.RefundsOf(e.charged.value));
      SyncCounts(db, p, stripe.RefundsOf(e.charged.value));
    }
  }

  /** A sync counts the rows it adds. */
  lemma {:induction false} SyncCounts(db: Db, p: nat, list: seq<RefundFacts>)
    requires p < |db.payments|
    ensures var (db1, n) := SyncEach(db, p, list); db.refunds <= db1.refunds && |db1.refunds| == |db.refunds| + n
    decreases |list|
  {
    if list != [] {
      var r, rest := list[|list| - 1], list[..|list| - 1];
      SyncCounts(db, p, rest);
      SyncCounts(RecordRefund(db, None, p, r).0, p, rest);
    }
  }

  lemma OtherAnswers(db: Db, stripe: Stripe, e: Event)
    requires e.id !in db.events && e.OtherEvent?
    ensures var (db1, o) := HandleEvent(db, stripe, e); o == Ignored && OnlyNotes(db, db1, e.id, o, None)
  {
  }

  // ---------------------------------------------------------------- an event that came meanwhile

  /** Whichever transaction comes second with an event writes nothing: it is a duplicate, or, found not to match, delivered again. */
  lemma SecondWritesNothing(db: Db, m: Meta, o: Outcome, s: Session, c: CheckoutRow, p: nat, r: RefundFacts, i: IntentId)
    requires m.id in db.events
    ensures TxRemember(db, m, o) == (db, Duplicate)
    ensures TxMismatch(db, Some(m)) == (db, Thrown)
    ensures s.id in db.checkouts ==> TxConfirm(db, Some(m), s, c) == (db, Duplicate)
    ensures s.id in db.checkouts ==> TxDecline(db, m, s.id, i) == (db, Duplicate)
    ensures RecordRefund(db, Some(m), p, r) == (db, Duplicate)
  {
  }

  /** Without an event of its own a payment or a refund found is recorded all the same, and nothing is noted. */
  lemma FoundIsNotNoted(db: Db, stripe: Stripe, s: Session, p: nat, r: RefundFacts)
    ensures Confirm(db, stripe, s, None).0.events == db.events
    ensures RecordRefund(db, None, p, r).0.events == db.events
    ensures RecordRefund(db, None, p, r).1 == if r.status == Succeeded || r.status == Pending then RefundRecorded else RefundNotFinal
    ensures AddsRefund(db, RecordRefund(db, None, p, r.(status := Succeeded)).0, p, r)
    ensures s.id !in db.checkouts ==> Confirm(db, stripe, s, None) == (db, UnknownSession)
    ensures s.id in db.checkouts && IsPaidFor(db, s.id) ==> Confirm(db, stripe, s, None).1 == AlreadyRecorded
    ensures s.id in db.checkouts && !IsPaidFor(db, s.id) && !IsAsAsked(s, db.checkouts[s.id]) ==> Confirm(db, stripe, s, None) == (db, Mismatch)
  {
    if s.id in db.checkouts {
      var (db0, o) := TxConfirm(db, None, s, db.checkouts[s.id]);
      if o == Recorded {
        SyncNotesNone(db0, stripe, |db.payments|);
      }
    }
  }
}
