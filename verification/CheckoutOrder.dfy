/**
  * Webhooks arrive in any order and more than once. For deliveries that do not
  * overlap and a Stripe that answers, this module says what one set of events ends
  * as, and exactly which sets end the same in every order.
  */
module CheckoutOrder {
  import opened Options
  import opened CheckoutDb
  import opened CheckoutSafety

  function Fresh(checkouts: map<SessionId, CheckoutRow>): Db {
    Db(map[], checkouts, [], [])
  }

  ghost function Events(es: seq<Event>): set<Event> {
    set e | e in es
  }

  // ---------------------------------------------------------------- what is assumed of Stripe

  ghost predicate OnItsWay(s: RefundStatus) {
    s.Succeeded? || s.Pending?
  }

  /** Lookups answer, every paid session has its intent, and no refund fails or is cancelled. */
  ghost predicate Settled(stripe: Stripe, checkouts: map<SessionId, CheckoutRow>, events: set<Event>) {
    && stripe.available && stripe.reachable && Coherent(stripe)
    && (forall s :: s in stripe.sessions && stripe.sessions[s].paid ==> stripe.sessions[s].intent.Some?)
    && (forall i: IntentId, k :: 0 <= k < |stripe.RefundsOf(i)| ==>
          OnItsWay(stripe.RefundsOf(i)[k].status) && stripe.RefundsOf(i)[k].intent == Some(i))
    && (forall s :: s in checkouts ==> checkouts[s].failureCount == 0)
    && (forall e, f :: e in events && f in events && e.id == f.id ==> e == f)
    && (forall e :: e in events ==> Honest(stripe, e))
  }

  ghost predicate Honest(stripe: Stripe, e: Event) {
    match e
    case SessionSettled(_, s) => s.paid ==> IsPaidAt(stripe, s)
    case RefundChanged(_, r) => r.intent.Some? && OnItsWay(r.status) && Made(stripe, r.intent.value, r.id, r.amount)
    case ChargeRefunded(_, i) => i.Some?
    case _ => true
  }

  // ---------------------------------------------------------------- what a set of events says

  /** The paid session an event points at. */
  ghost function Points(stripe: Stripe, e: Event): Option<Session> {
    match e
    case SessionSettled(_, s) => if s.paid then Some(s) else None
    case IntentSucceeded(_, i, ours) =>
      if ours && stripe.SessionOfIntent(i).Some? && stripe.SessionOfIntent(i).value.paid then stripe.SessionOfIntent(i) else None
    case _ => None
  }

  ghost predicate Confirms(stripe: Stripe, checkouts: map<SessionId, CheckoutRow>, e: Event, s: SessionId) {
    Points(stripe, e).Some? && Points(stripe, e).value.id == s && s in checkouts && Matches(Points(stripe, e).value, checkouts[s])
  }

  ghost predicate IsConfirmed(stripe: Stripe, checkouts: map<SessionId, CheckoutRow>, events: set<Event>, s: SessionId) {
    exists e :: e in events && Confirms(stripe, checkouts, e, s)
  }

  ghost predicate Charged(events: set<Event>, i: IntentId) {
    exists e :: e in events && e.ChargeRefunded? && e.charged == Some(i)
  }

  ghost predicate Tells(events: set<Event>, i: IntentId, r: RefundId) {
    exists e :: e in events && e.RefundChanged? && e.refund.intent == Some(i) && e.refund.id == r
  }

  ghost predicate Mentions(events: set<Event>, i: IntentId) {
    exists e :: e in events && ((e.ChargeRefunded? && e.charged == Some(i)) || (e.RefundChanged? && e.refund.intent == Some(i)))
  }

  /** Every refund of a confirmed payment is told of, by its own event or by its charge's, or none is. */
  ghost predicate Covers(stripe: Stripe, checkouts: map<SessionId, CheckoutRow>, events: set<Event>) {
    forall s | s in checkouts && s in stripe.sessions && stripe.sessions[s].intent.Some? && IsConfirmed(stripe, checkouts, events, s) ::
      ToldInFull(stripe, events, stripe.sessions[s].intent.value)
  }

  ghost predicate ToldInFull(stripe: Stripe, events: set<Event>, i: IntentId) {
    Mentions(events, i) && !Charged(events, i) ==>
      forall k :: 0 <= k < |stripe.RefundsOf(i)| ==> Tells(events, i, stripe.RefundsOf(i)[k].id)
  }

  ghost function Declined(stripe: Stripe, events: set<Event>, s: SessionId): set<Event> {
    set e | e in events && e.IntentFailed? && e.ours
            && stripe.SessionOfIntent(e.pi).Some? && stripe.SessionOfIntent(e.pi).value.id == s
  }

  // ---------------------------------------------------------------- what is compared

  datatype RefundSeen = RefundSeen(refund: RefundId, amount: nat, intent: Option<IntentId>)

  datatype Seen = Seen(payments: set<PaymentRow>, refunds: set<RefundSeen>, declines: map<SessionId, nat>)

  ghost function RefundView(db: Db, r: RefundRow): RefundSeen {
    RefundSeen(r.refund, r.amount, if r.payment < |db.payments| then db.payments[r.payment].intent else None)
  }

  /** Payments, refunds by Stripe id and amount, and the declined attempts. No row is there twice (NothingTwice). */
  ghost function SeenIn(db: Db): Seen {
    Seen(set k | 0 <= k < |db.payments| :: db.payments[k],
         set k | 0 <= k < |db.refunds| :: RefundView(db, db.refunds[k]),
         map s | s in db.checkouts :: db.checkouts[s].failureCount)
  }

  ghost predicate NothingTwice(db: Db) {
    && (forall j, k :: 0 <= j < k < |db.payments| ==> db.payments[j].session != db.payments[k].session)
    && OneRowEach(db.refunds)
  }

  // ---------------------------------------------------------------- what a set of processed events leaves

  ghost predicate IsPaid(rows: seq<PaymentRow>, i: IntentId) {
    exists k :: 0 <= k < |rows| && rows[k].intent == Some(i)
  }

  ghost function RowOf(stripe: Stripe, checkouts: map<SessionId, CheckoutRow>, s: SessionId): PaymentRow
    requires s in stripe.sessions && s in checkouts
  {
    PaymentRow(s, stripe.sessions[s].intent, checkouts[s].request, checkouts[s].amount, checkouts[s].currency)
  }

  ghost predicate PaymentsFit(stripe: Stripe, c0: map<SessionId, CheckoutRow>, p: set<Event>, db: Db) {
    && (forall k :: 0 <= k < |db.payments| ==>
          var s := db.payments[k].session;
          s in stripe.sessions && s in c0 && stripe.sessions[s].paid && IsConfirmed(stripe, c0, p, s) && db.payments[k] == RowOf(stripe, c0, s))
    && (forall s :: s in c0 && IsConfirmed(stripe, c0, p, s) ==> PaymentOfSession(db.payments, s).Some?)
    && (forall j, k :: 0 <= j < k < |db.payments| ==> db.payments[j].session != db.payments[k].session)
  }

  ghost predicate AllListed(stripe: Stripe, rows: seq<RefundRow>, i: IntentId) {
    forall k :: 0 <= k < |stripe.RefundsOf(i)| ==> HasRefund(rows, stripe.RefundsOf(i)[k].id)
  }

  ghost predicate RowsFit(stripe: Stripe, p: set<Event>, db: Db) {
    forall k :: 0 <= k < |db.refunds| ==> RowFits(stripe, p, db, db.refunds[k])
  }

  ghost predicate RowFits(stripe: Stripe, p: set<Event>, db: Db, r: RefundRow) {
    RefundIsRight(stripe, db, r) && Mentions(p, db.payments[r.payment].intent.value)
  }

  ghost predicate OneRowEach(rows: seq<RefundRow>) {
    forall j, k :: 0 <= j < k < |rows| ==> rows[j].refund != rows[k].refund
  }

  /** Every refund told of, and every one of a refunded charge, is on its recorded payment. */
  ghost predicate PaidFits(stripe: Stripe, p: set<Event>, rows: seq<RefundRow>, i: IntentId) {
    (forall r :: Tells(p, i, r) ==> HasRefund(rows, r)) && (Charged(p, i) ==> AllListed(stripe, rows, i))
  }

  ghost predicate SettledFits(stripe: Stripe, p: set<Event>, db: Db) {
    forall i :: IsPaid(db.payments, i) ==> PaidFits(stripe, p, db.refunds, i)
  }

  /** Every refund told of before its payment is waiting, and nothing else is. */
  ghost predicate WaitingFits(p: set<Event>, db: Db) {
    && (forall i :: !IsPaid(db.payments, i) && Mentions(p, i) ==> Waiting(db.events, i))
    && (forall i :: Waiting(db.events, i) ==> Mentions(p, i))
  }

  ghost predicate RefundsFit(stripe: Stripe, p: set<Event>, db: Db) {
    RowsFit(stripe, p, db) && OneRowEach(db.refunds) && SettledFits(stripe, p, db) && WaitingFits(p, db)
  }

  ghost predicate CheckoutsFit(stripe: Stripe, c0: map<SessionId, CheckoutRow>, p: set<Event>, db: Db) {
    && db.checkouts.Keys == c0.Keys
    && (forall s :: s in c0 ==> SameAsked(c0[s], db.checkouts[s]) && db.checkouts[s].failureCount == |Declined(stripe, p, s)|)
  }

  ghost predicate EventsFit(p: set<Event>, db: Db) {
    && (forall e :: e in p ==> e.id in db.events)
    && (forall id :: id in db.events ==> exists e :: e in p && e.id == id)
  }

  ghost predicate Fits(stripe: Stripe, c0: map<SessionId, CheckoutRow>, p: set<Event>, db: Db) {
    && EventsFit(p, db) && CheckoutsFit(stripe, c0, p, db) && PaymentsFit(stripe, c0, p, db) && RefundsFit(stripe, p, db)
  }

  /** A new event's row beside the old ones. */
  ghost predicate Notes(db: Db, e: Event, db1: Db) {
    && e.id !in db.events && e.id in db1.events && db1.events.Keys == db.events.Keys + {e.id}
    && (forall id :: id in db.events ==> db1.events[id] == db.events[id])
  }

  lemma WaitingAfter(db: Db, e: Event, db1: Db)
    requires Notes(db, e, db1)
    ensures forall i :: Waiting(db.events, i) ==> Waiting(db1.events, i)
    ensures forall i :: Waiting(db1.events, i) && db1.events[e.id] != EventRow(RefundDeferred, Some(i)) ==> Waiting(db.events, i)
  {
    forall i | Waiting(db.events, i) ensures Waiting(db1.events, i) {
      var id :| id in db.events && db.events[id] == EventRow(RefundDeferred, Some(i));
      assert id in db1.events && db1.events[id] == EventRow(RefundDeferred, Some(i));
    }
  }

  lemma MentionsAfter(p: set<Event>, e: Event)
    ensures forall i :: Mentions(p + {e}, i) <==> Mentions(p, i) || Mentions({e}, i)
    ensures forall i :: Charged(p + {e}, i) <==> Charged(p, i) || Charged({e}, i)
    ensures forall i, r :: Tells(p + {e}, i, r) <==> Tells(p, i, r) || Tells({e}, i, r)
  {
    forall i: IntentId ensures Mentions(p + {e}, i) <==> Mentions(p, i) || Mentions({e}, i) {
      if Mentions(p, i) {
        var f :| f in p && ((f.ChargeRefunded? && f.charged == Some(i)) || (f.RefundChanged? && f.refund.intent == Some(i)));
        assert f in p + {e};
      }
      if Mentions({e}, i) { assert e in p + {e}; }
    }
    forall i: IntentId ensures Charged(p + {e}, i) <==> Charged(p, i) || Charged({e}, i) {
      if Charged(p, i) {
        var f :| f in p && f.ChargeRefunded? && f.charged == Some(i);
        assert f in p + {e};
      }
      if Charged({e}, i) { assert e in p + {e}; }
    }
    forall i: IntentId, r: RefundId ensures Tells(p + {e}, i, r) <==> Tells(p, i, r) || Tells({e}, i, r) {
      if Tells(p, i, r) {
        var f :| f in p && f.RefundChanged? && f.refund.intent == Some(i) && f.refund.id == r;
        assert f in p + {e};
      }
      if Tells({e}, i, r) { assert e in p + {e}; }
    }
  }

  lemma ConfirmedAfter(stripe: Stripe, c0: map<SessionId, CheckoutRow>, p: set<Event>, e: Event, s: SessionId)
    ensures IsConfirmed(stripe, c0, p + {e}, s) <==> IsConfirmed(stripe, c0, p, s) || Confirms(stripe, c0, e, s)
  {
    if IsConfirmed(stripe, c0, p, s) {
      var f :| f in p && Confirms(stripe, c0, f, s);
      assert f in p + {e};
    }
    if Confirms(stripe, c0, e, s) { assert e in p + {e}; }
  }

  // ---------------------------------------------------------------- syncing a list

  lemma {:induction false} SyncRecordsAll(db: Db, p: nat, list: seq<RefundFacts>)
    requires p < |db.payments| && db.payments[p].intent.Some?
    requires forall k :: 0 <= k < |list| ==> OnItsWay(list[k].status) && list[k].intent == db.payments[p].intent
    requires OneRowEach(db.refunds)
    ensures var db1 := SyncEach(db, p, list).0;
            && db1.events == db.events && db1.checkouts == db.checkouts && db1.payments == db.payments
            && db.refunds <= db1.refunds
            && (forall k :: 0 <= k < |list| ==> HasRefund(db1.refunds, list[k].id))
            && OneRowEach(db1.refunds)
            && (forall j :: |db.refunds| <= j < |db1.refunds| ==> IsOneOf(list, p, db1.refunds[j]))
    decreases |list|
  {
    if list != [] {
      var r, rest := list[|list| - 1], list[..|list| - 1];
      var db0 := CheckoutDb.RecordRefund(db, None, p, r).0;
      if HasRefund(db.refunds, r.id) {
        SyncRecordsAll(db, p, rest);
        HadStillHas(db.refunds, SyncEach(db, p, rest).0.refunds, r.id);
      } else {
        assert db0 == db.(refunds := db.refunds + [RefundRow(r.id, p, r.amount)]);
        assert db0.refunds[|db.refunds|].refund == r.id;
        SyncRecordsAll(db0, p, rest);
        HadStillHas(db0.refunds, SyncEach(db0, p, rest).0.refunds, r.id);
        var db1 := SyncEach(db0, p, rest).0;
        forall j | |db.refunds| <= j < |db1.refunds| ensures IsOneOf(list, p, db1.refunds[j]) {
          if j == |db.refunds| {
            assert db1.refunds[j] == db0.refunds[j];
          } else {
            assert IsOneOf(rest, p, db1.refunds[j]);
          }
        }
      }
    }
  }

  ghost predicate IsOneOf(list: seq<RefundFacts>, p: nat, row: RefundRow) {
    exists k :: 0 <= k < |list| && row == RefundRow(list[k].id, p, list[k].amount)
  }

  lemma HadStillHas(was: seq<RefundRow>, now: seq<RefundRow>, r: RefundId)
    requires HasRefund(was, r) && was <= now
    ensures HasRefund(now, r)
  {
    var k :| 0 <= k < |was| && was[k].refund == r;
    assert now[k] == was[k];
  }

  // ---------------------------------------------------------------- one event

  /** Nothing new is confirmed: the payments stand as they were. */
  lemma PaymentsStand(stripe: Stripe, c0: map<SessionId, CheckoutRow>, p: set<Event>, e: Event, db: Db, db1: Db)
    requires PaymentsFit(stripe, c0, p, db) && db1.payments == db.payments
    requires forall s :: s in c0 && Confirms(stripe, c0, e, s) ==> PaymentOfSession(db.payments, s).Some?
    ensures PaymentsFit(stripe, c0, p + {e}, db1)
  {
    forall s ensures IsConfirmed(stripe, c0, p + {e}, s) <==> IsConfirmed(stripe, c0, p, s) || Confirms(stripe, c0, e, s) {
      ConfirmedAfter(stripe, c0, p, e, s);
    }
  }

  lemma CheckoutsStand(stripe: Stripe, c0: map<SessionId, CheckoutRow>, p: set<Event>, e: Event, db: Db, db1: Db)
    requires CheckoutsFit(stripe, c0, p, db) && e !in p
    requires db1.checkouts.Keys == db.checkouts.Keys
    requires forall s | s in c0 :: SameAsked(db.checkouts[s], db1.checkouts[s])
    requires forall s | s in c0 :: db1.checkouts[s].failureCount == db.checkouts[s].failureCount + |Declined(stripe, {e}, s)|
    ensures CheckoutsFit(stripe, c0, p + {e}, db1)
  {
    forall s | s in c0 ensures db1.checkouts[s].failureCount == |Declined(stripe, p + {e}, s)| {
      assert Declined(stripe, p + {e}, s) == Declined(stripe, p, s) + Declined(stripe, {e}, s);
      assert Declined(stripe, p, s) !! Declined(stripe, {e}, s);
    }
  }

  /** An event that moves no money is noted; one that mentions a refund of an unpaid intent is kept waiting. */
  lemma NotedFits(stripe: Stripe, c0: map<SessionId, CheckoutRow>, p: set<Event>, e: Event, db: Db, db1: Db)
    requires Fits(stripe, c0, p, db) && Notes(db, e, db1) && e !in p
    requires db1.payments == db.payments && db1.refunds == db.refunds && CheckoutsFit(stripe, c0, p + {e}, db1)
    requires forall s :: s in c0 && Confirms(stripe, c0, e, s) ==> PaymentOfSession(db.payments, s).Some?
    requires forall i :: Mentions({e}, i) ==> !IsPaid(db.payments, i)
    requires forall i :: db1.events[e.id] == EventRow(RefundDeferred, Some(i)) <==> Mentions({e}, i)
    ensures Fits(stripe, c0, p + {e}, db1)
  {
    PaymentsStand(stripe, c0, p, e, db, db1);
    RowsStand(stripe, p, e, db, db1);
    SettledStands(stripe, p, e, db, db1);
    WaitingStands(p, e, db, db1);
    EventsNoted(p, e, db, db1);
  }

  lemma RowsStand(stripe: Stripe, p: set<Event>, e: Event, db: Db, db1: Db)
    requires RowsFit(stripe, p, db) && db1.refunds == db.refunds && db.payments <= db1.payments
    ensures RowsFit(stripe, p + {e}, db1)
  {
    MentionsAfter(p, e);
    forall k | 0 <= k < |db1.refunds| ensures RowFits(stripe, p + {e}, db1, db1.refunds[k]) {
      assert RowFits(stripe, p, db, db.refunds[k]);
    }
  }

  lemma SettledStands(stripe: Stripe, p: set<Event>, e: Event, db: Db, db1: Db)
    requires SettledFits(stripe, p, db) && db1.payments == db.payments && db1.refunds == db.refunds
    requires forall i :: Mentions({e}, i) ==> !IsPaid(db.payments, i)
    ensures SettledFits(stripe, p + {e}, db1)
  {
    MentionsAfter(p, e);
    ChargesAreMentioned({e});
    forall i | IsPaid(db1.payments, i) ensures PaidFits(stripe, p + {e}, db1.refunds, i) {
      assert PaidFits(stripe, p, db.refunds, i);
    }
  }

  lemma PaidStays(was: seq<PaymentRow>, now: seq<PaymentRow>)
    requires was <= now
    ensures forall i :: IsPaid(was, i) ==> IsPaid(now, i)
  {
    forall i: IntentId | IsPaid(was, i) ensures IsPaid(now, i) {
      var k :| 0 <= k < |was| && was[k].intent == Some(i);
      assert now[k] == was[k];
    }
  }

  lemma WaitingStands(p: set<Event>, e: Event, db: Db, db1: Db)
    requires WaitingFits(p, db) && Notes(db, e, db1) && db.payments <= db1.payments
    requires forall i :: Mentions({e}, i) ==> IsPaid(db1.payments, i) || db1.events[e.id] == EventRow(RefundDeferred, Some(i))
    requires forall i :: db1.events[e.id] == EventRow(RefundDeferred, Some(i)) ==> Mentions({e}, i)
    ensures WaitingFits(p + {e}, db1)
  {
    MentionsAfter(p, e);
    WaitingAfter(db, e, db1);
    forall i: IntentId | !IsPaid(db1.payments, i) && Mentions(p + {e}, i) ensures Waiting(db1.events, i) {
      PaidStays(db.payments, db1.payments);
    }
  }

  lemma ChargesAreMentioned(p: set<Event>)
    ensures forall i :: Charged(p, i) ==> Mentions(p, i)
    ensures forall i, r :: Tells(p, i, r) ==> Mentions(p, i)
  {
  }

  lemma EventsNoted(p: set<Event>, e: Event, db: Db, db1: Db)
    requires EventsFit(p, db) && Notes(db, e, db1)
    ensures EventsFit(p + {e}, db1)
  {
    forall id | id in db1.events ensures exists f :: f in p + {e} && f.id == id {
      if id == e.id {
        assert e in p + {e};
      } else {
        var f :| f in p && f.id == id;
        assert f in p + {e};
      }
    }
  }

  ghost predicate Remembers(db: Db, e: Event, db1: Db) {
    && e.id !in db.events && db1.payments == db.payments && db1.refunds == db.refunds
    && db1.checkouts.Keys == db.checkouts.Keys
    && (forall s :: s in db.checkouts ==>
          SameAsked(db.checkouts[s], db1.checkouts[s]) && db1.checkouts[s].failureCount == db.checkouts[s].failureCount)
    && exists o: Outcome, i: Option<IntentId> :: o != RefundDeferred && db1.events == db.events[e.id := EventRow(o, i)]
  }

  /** An event about no refund, no decline and no new payment. */
  lemma RememberedFits(stripe: Stripe, c0: map<SessionId, CheckoutRow>, p: set<Event>, e: Event, db: Db, db1: Db)
    requires Fits(stripe, c0, p, db) && Remembers(db, e, db1) && e !in p
    requires !e.RefundChanged? && !e.ChargeRefunded?
    requires forall s :: s in c0 ==> Declined(stripe, {e}, s) == {}
    requires forall s :: s in c0 && Confirms(stripe, c0, e, s) ==> PaymentOfSession(db.payments, s).Some?
    ensures Fits(stripe, c0, p + {e}, db1)
  {
    CheckoutsStand(stripe, c0, p, e, db, db1);
    NotedFits(stripe, c0, p, e, db, db1);
  }

  lemma DeclineIsNoted(stripe: Stripe, c0: map<SessionId, CheckoutRow>, p: set<Event>, e: Event, db: Db)
    requires stripe.available && stripe.reachable && Coherent(stripe) && CheckoutsFit(stripe, c0, p, db)
    requires e !in p && e.id !in db.events && e.IntentFailed?
    ensures var db1 := OnIntentFailed(db, stripe, e).0;
            && Notes(db, e, db1) && db1.payments == db.payments && db1.refunds == db.refunds
            && db1.events[e.id].outcome != RefundDeferred && CheckoutsFit(stripe, c0, p + {e}, db1)
  {
    var db1 := OnIntentFailed(db, stripe, e).0;
    var s := stripe.SessionOfIntent(e.pi);
    if e.ours && s.Some? && s.value.id in db.checkouts {
      assert Declined(stripe, {e}, s.value.id) == {e};
      forall x | x in c0 && x != s.value.id ensures Declined(stripe, {e}, x) == {} {}
    } else {
      forall x | x in c0 ensures Declined(stripe, {e}, x) == {} {}
    }
    CheckoutsStand(stripe, c0, p, e, db, db1);
  }

  lemma DeclinedFits(stripe: Stripe, c0: map<SessionId, CheckoutRow>, p: set<Event>, e: Event, db: Db)
    requires stripe.available && stripe.reachable && Coherent(stripe)
    requires Fits(stripe, c0, p, db) && e !in p && e.id !in db.events && e.IntentFailed?
    ensures Fits(stripe, c0, p + {e}, OnIntentFailed(db, stripe, e).0)
  {
    DeclineIsNoted(stripe, c0, p, e, db);
    NotedFits(stripe, c0, p, e, db, OnIntentFailed(db, stripe, e).0);
  }

  /** The checkouts do not hear of an event about a refund. */
  lemma RefundsTouchNoCheckout(stripe: Stripe, c0: map<SessionId, CheckoutRow>, p: set<Event>, e: Event, db: Db, db1: Db)
    requires CheckoutsFit(stripe, c0, p, db) && e !in p && db1.checkouts == db.checkouts
    requires e.RefundChanged? || e.ChargeRefunded?
    ensures CheckoutsFit(stripe, c0, p + {e}, db1)
  {
    forall x | x in c0 ensures Declined(stripe, {e}, x) == {} {}
    CheckoutsStand(stripe, c0, p, e, db, db1);
  }

  lemma PaidIntentHasRow(rows: seq<PaymentRow>, i: IntentId)
    ensures PaymentOfIntent(rows, i).Some? <==> IsPaid(rows, i)
  {
  }

  lemma RefundEventIsNoted(db: Db, e: Event)
    requires e.id !in db.events && e.RefundChanged? && e.refund.intent.Some? && OnItsWay(e.refund.status)
    ensures var db1 := OnRefund(db, e).0;
            var i := e.refund.intent.value;
            && Notes(db, e, db1) && db1.payments == db.payments && db1.checkouts == db.checkouts
            && db1.events[e.id] == EventRow(if IsPaid(db.payments, i) then RefundRecorded else RefundDeferred, Some(i))
            && (!IsPaid(db.payments, i) || HasRefund(db.refunds, e.refund.id) ==> db1.refunds == db.refunds)
            && (IsPaid(db.payments, i) && !HasRefund(db.refunds, e.refund.id) ==>
                  db1.refunds == db.refunds + [RefundRow(e.refund.id, PaymentOfIntent(db.payments, i).value, e.refund.amount)])
  {
    PaidIntentHasRow(db.payments, e.refund.intent.value);
  }

  lemma OnlyMentions(e: Event, i: IntentId)
    requires (e.RefundChanged? && e.refund.intent == Some(i)) || (e.ChargeRefunded? && e.charged == Some(i))
    ensures forall j :: Mentions({e}, j) <==> j == i
  {
    assert e in {e};
  }

  lemma RefundEventFits(stripe: Stripe, c0: map<SessionId, CheckoutRow>, p: set<Event>, e: Event, db: Db)
    requires Fits(stripe, c0, p, db) && e !in p && e.id !in db.events && e.RefundChanged? && Honest(stripe, e)
    ensures Fits(stripe, c0, p + {e}, OnRefund(db, e).0)
  {
    var db1 := OnRefund(db, e).0;
    var i := e.refund.intent.value;
    RefundEventIsNoted(db, e);
    RefundsTouchNoCheckout(stripe, c0, p, e, db, db1);
    OnlyMentions(e, i);
    if !IsPaid(db.payments, i) {
      NotedFits(stripe, c0, p, e, db, db1);
    } else {
      PaidIntentHasRow(db.payments, i);
      PaymentsStand(stripe, c0, p, e, db, db1);
      WaitingStands(p, e, db, db1);
      EventsNoted(p, e, db, db1);
      RefundAdded(stripe, p, e, db, db1, PaymentOfIntent(db.payments, i).value);
    }
  }

  /** A refund's own event adds its one row. */
  lemma RefundAdded(stripe: Stripe, p: set<Event>, e: Event, db: Db, db1: Db, k: nat)
    requires e.RefundChanged? && Honest(stripe, e) && k < |db.payments| && db.payments[k].intent == e.refund.intent
    requires RowsFit(stripe, p, db) && OneRowEach(db.refunds) && SettledFits(stripe, p, db)
    requires db1.payments == db.payments
    requires db1.refunds == (if HasRefund(db.refunds, e.refund.id) then db.refunds
                             else db.refunds + [RefundRow(e.refund.id, k, e.refund.amount)])
    ensures RowsFit(stripe, p + {e}, db1) && OneRowEach(db1.refunds) && SettledFits(stripe, p + {e}, db1)
  {
    var i := e.refund.intent.value;
    MentionsAfter(p, e);
    assert Mentions({e}, i) by { assert e in {e}; }
    forall n | 0 <= n < |db1.refunds| ensures RowFits(stripe, p + {e}, db1, db1.refunds[n]) {
      if n < |db.refunds| {
        assert RowFits(stripe, p, db, db.refunds[n]);
      }
    }
    assert HasRefund(db1.refunds, e.refund.id) by {
      if !HasRefund(db.refunds, e.refund.id) {
        assert db1.refunds[|db.refunds|].refund == e.refund.id;
      }
    }
    forall j | IsPaid(db1.payments, j) ensures PaidFits(stripe, p + {e}, db1.refunds, j) {
      assert PaidFits(stripe, p, db.refunds, j);
      HadAllStillHas(stripe, db.refunds, db1.refunds);
    }
  }

  lemma HadAllStillHas(stripe: Stripe, was: seq<RefundRow>, now: seq<RefundRow>)
    requires was <= now
    ensures forall r :: HasRefund(was, r) ==> HasRefund(now, r)
    ensures forall i :: AllListed(stripe, was, i) ==> AllListed(stripe, now, i)
  {
    forall r | HasRefund(was, r) ensures HasRefund(now, r) {
      HadStillHas(was, now, r);
    }
  }

  /** A sync of one payment adds true rows of its intent, and afterwards has every one of the list. */
  lemma SyncedFits(stripe: Stripe, p: set<Event>, e: Event, db: Db, k: nat)
    requires k < |db.payments| && db.payments[k].intent.Some? && stripe.available
    requires forall i: IntentId, n :: 0 <= n < |stripe.RefundsOf(i)| ==>
               OnItsWay(stripe.RefundsOf(i)[n].status) && stripe.RefundsOf(i)[n].intent == Some(i)
    requires RowsFit(stripe, p, db) && OneRowEach(db.refunds)
    requires Mentions(p + {e}, db.payments[k].intent.value)
    ensures var db1 := SyncRefunds(db, stripe, k).0;
            && db1.events == db.events && db1.checkouts == db.checkouts && db1.payments == db.payments
            && db.refunds <= db1.refunds
            && RowsFit(stripe, p + {e}, db1) && OneRowEach(db1.refunds)
            && AllListed(stripe, db1.refunds, db.payments[k].intent.value)
  {
    var i := db.payments[k].intent.value;
    var list := stripe.RefundsOf(i);
    SyncRecordsAll(db, k, list);
    var db1 := SyncRefunds(db, stripe, k).0;
    MentionsAfter(p, e);
    forall n | 0 <= n < |db1.refunds| ensures RowFits(stripe, p + {e}, db1, db1.refunds[n]) {
      if n < |db.refunds| {
        assert db1.refunds[n] == db.refunds[n];
        assert RowFits(stripe, p, db, db.refunds[n]);
      } else {
        assert IsOneOf(list, k, db1.refunds[n]);
        assert Made(stripe, i, db1.refunds[n].refund, db1.refunds[n].amount);
      }
    }
  }

  /** Everything told of an intent is in its list, so having the list is having what was told. */
  lemma ListedIsTold(stripe: Stripe, p: set<Event>, rows: seq<RefundRow>, i: IntentId)
    requires AllListed(stripe, rows, i)
    requires forall e :: e in p ==> Honest(stripe, e)
    ensures PaidFits(stripe, p, rows, i)
  {
    forall r | Tells(p, i, r) ensures HasRefund(rows, r) {
      var e :| e in p && e.RefundChanged? && e.refund.intent == Some(i) && e.refund.id == r;
      assert Made(stripe, i, r, e.refund.amount);
    }
  }

  lemma ChargeIsNoted(stripe: Stripe, p: set<Event>, e: Event, db: Db)
    requires stripe.available && stripe.reachable && e.id !in db.events && e.ChargeRefunded? && e.charged.Some?
    requires forall i: IntentId, n :: 0 <= n < |stripe.RefundsOf(i)| ==>
               OnItsWay(stripe.RefundsOf(i)[n].status) && stripe.RefundsOf(i)[n].intent == Some(i)
    requires RowsFit(stripe, p, db) && OneRowEach(db.refunds)
    ensures var db1 := OnCharge(db, stripe, e).0;
            var i := e.charged.value;
            && Notes(db, e, db1) && db1.payments == db.payments && db1.checkouts == db.checkouts
            && (db1.events[e.id] == EventRow(RefundDeferred, Some(i)) <==> !IsPaid(db.payments, i))
            && (db1.events[e.id].outcome == RefundDeferred ==> db1.events[e.id].intent == Some(i))
            && (!IsPaid(db.payments, i) ==> db1.refunds == db.refunds)
            && (IsPaid(db.payments, i) ==>
                  db.refunds <= db1.refunds && RowsFit(stripe, p + {e}, db1) && OneRowEach(db1.refunds) && AllListed(stripe, db1.refunds, i))
  {
    var i := e.charged.value;
    PaidIntentHasRow(db.payments, i);
    if IsPaid(db.payments, i) {
      var k := PaymentOfIntent(db.payments, i).value;
      OnlyMentions(e, i);
      MentionsAfter(p, e);
      SyncedFits(stripe, p, e, db, k);
      var db0 := SyncRefunds(db, stripe, k).0;
      var db1 := OnCharge(db, stripe, e).0;
      assert db1.refunds == db0.refunds && db1.payments == db0.payments;
      forall n | 0 <= n < |db1.refunds| ensures RowFits(stripe, p + {e}, db1, db1.refunds[n]) {
        assert RowFits(stripe, p + {e}, db0, db0.refunds[n]);
      }
    }
  }

  lemma ChargeFits(stripe: Stripe, c0: map<SessionId, CheckoutRow>, events: set<Event>, p: set<Event>, e: Event, db: Db)
    requires Settled(stripe, c0, events) && p <= events && e in events
    requires Fits(stripe, c0, p, db) && e !in p && e.id !in db.events && e.ChargeRefunded?
    ensures Fits(stripe, c0, p + {e}, OnCharge(db, stripe, e).0)
  {
    assert Honest(stripe, e);
    var db1 := OnCharge(db, stripe, e).0;
    ChargeIsNoted(stripe, p, e, db);
    RefundsTouchNoCheckout(stripe, c0, p, e, db, db1);
    OnlyMentions(e, e.charged.value);
    if !IsPaid(db.payments, e.charged.value) {
      NotedFits(stripe, c0, p, e, db, db1);
    } else {
      PaymentsStand(stripe, c0, p, e, db, db1);
      EventsNoted(p, e, db, db1);
      PaidChargeFits(stripe, c0, events, p, e, db, db1);
    }
  }

  lemma PaidChargeFits(stripe: Stripe, c0: map<SessionId, CheckoutRow>, events: set<Event>, p: set<Event>, e: Event, db: Db, db1: Db)
    requires Settled(stripe, c0, events) && p <= events && e in events
    requires Fits(stripe, c0, p, db) && e !in p && e.ChargeRefunded? && e.charged.Some?
    requires Notes(db, e, db1) && db1.payments == db.payments && db1.checkouts == db.checkouts && IsPaid(db.payments, e.charged.value)
    requires db1.events[e.id].outcome != RefundDeferred
    requires db.refunds <= db1.refunds && RowsFit(stripe, p + {e}, db1) && OneRowEach(db1.refunds) && AllListed(stripe, db1.refunds, e.charged.value)
    ensures RefundsFit(stripe, p + {e}, db1)
  {
    OnlyMentions(e, e.charged.value);
    WaitingStands(p, e, db, db1);
    SyncedSettles(stripe, p, e, db, db1, e.charged.value);
  }

  lemma SyncedSettles(stripe: Stripe, p: set<Event>, e: Event, db: Db, db1: Db, i: IntentId)
    requires SettledFits(stripe, p, db) && db.refunds <= db1.refunds && AllListed(stripe, db1.refunds, i)
    requires forall f :: f in p + {e} ==> Honest(stripe, f)
    requires forall j :: Mentions({e}, j) ==> j == i
    requires forall j :: IsPaid(db1.payments, j) && j != i ==> IsPaid(db.payments, j)
    ensures SettledFits(stripe, p + {e}, db1)
  {
    MentionsAfter(p, e);
    ChargesAreMentioned({e});
    HadAllStillHas(stripe, db.refunds, db1.refunds);
    forall j | IsPaid(db1.payments, j) ensures PaidFits(stripe, p + {e}, db1.refunds, j) {
      if j == i {
        ListedIsTold(stripe, p + {e}, db1.refunds, i);
      } else {
        assert PaidFits(stripe, p, db.refunds, j);
      }
    }
  }

  // ---------------------------------------------------------------- a confirmation

  /** An intent is one session's, so a session without a payment has an intent without one. */
  lemma NewSessionNewIntent(stripe: Stripe, c0: map<SessionId, CheckoutRow>, p: set<Event>, db: Db, s: Session)
    requires Coherent(stripe) && IsPaidAt(stripe, s) && s.intent.Some?
    requires PaymentsFit(stripe, c0, p, db) && PaymentOfSession(db.payments, s.id).None?
    ensures !IsPaid(db.payments, s.intent.value)
  {
    forall k | 0 <= k < |db.payments| ensures db.payments[k].intent != s.intent {
      var t := db.payments[k].session;
      assert stripe.sessions[t].paid && db.payments[k] == RowOf(stripe, c0, t);
    }
  }

  /** The row, before any refund that waited for it is synced. */
  ghost function Committed(db: Db, s: Session, e: Event): Db
    requires s.id in db.checkouts
  {
    TxConfirm(db, WithIntent(Some(MetaOf(e)), s), s, db.checkouts[s.id]).0
  }

  lemma CommittedShape(stripe: Stripe, db: Db, s: Session, e: Event)
    requires s.intent.Some? && !IsPaid(db.payments, s.intent.value) && e.id !in db.events
    requires s.id in db.checkouts && PaymentOfSession(db.payments, s.id).None? && Matches(s, db.checkouts[s.id])
    ensures var db1 := Committed(db, s, e);
            var c := db.checkouts[s.id];
            && Notes(db, e, db1) && db1.events[e.id].outcome == Recorded && db1.refunds == db.refunds
            && db1.payments == db.payments + [PaymentRow(s.id, s.intent, c.request, c.amount, c.currency)]
            && db1.checkouts == db.checkouts[s.id := c.(status := Complete, intent := s.intent)]
            && CheckoutDb.Confirm(db, stripe, s, Some(MetaOf(e))).0 == SyncDeferred(db1, stripe, |db.payments|)
  {
    PaidIntentHasRow(db.payments, s.intent.value);
  }

  lemma CommittedPays(stripe: Stripe, c0: map<SessionId, CheckoutRow>, p: set<Event>, e: Event, db: Db, db1: Db, s: SessionId)
    requires PaymentsFit(stripe, c0, p, db) && PaymentOfSession(db.payments, s).None?
    requires s in stripe.sessions && stripe.sessions[s].paid && s in c0 && Confirms(stripe, c0, e, s)
    requires db1.payments == db.payments + [RowOf(stripe, c0, s)]
    ensures PaymentsFit(stripe, c0, p + {e}, db1)
  {
    forall x ensures IsConfirmed(stripe, c0, p + {e}, x) <==> IsConfirmed(stripe, c0, p, x) || Confirms(stripe, c0, e, x) {
      ConfirmedAfter(stripe, c0, p, e, x);
    }
    forall x | x in c0 && IsConfirmed(stripe, c0, p + {e}, x) ensures PaymentOfSession(db1.payments, x).Some? {
      if x == s {
        assert db1.payments[|db.payments|].session == x;
      } else {
        var k := PaymentOfSession(db.payments, x).value;
        assert db1.payments[k].session == x;
      }
    }
  }

  lemma CommittedRefunds(stripe: Stripe, p: set<Event>, e: Event, db: Db, dbm: Db, i: IntentId)
    requires stripe.available && stripe.reachable
    requires forall j: IntentId, n :: 0 <= n < |stripe.RefundsOf(j)| ==>
               OnItsWay(stripe.RefundsOf(j)[n].status) && stripe.RefundsOf(j)[n].intent == Some(j)
    requires RefundsFit(stripe, p, db) && !IsPaid(db.payments, i)
    requires Notes(db, e, dbm) && dbm.events[e.id].outcome == Recorded && dbm.refunds == db.refunds
    requires |dbm.payments| == |db.payments| + 1 && db.payments <= dbm.payments && dbm.payments[|db.payments|].intent == Some(i)
    requires e.SessionSettled? || e.IntentSucceeded?
    requires forall f :: f in p + {e} ==> Honest(stripe, f)
    ensures var db1 := SyncDeferred(dbm, stripe, |db.payments|);
            && db1.events == dbm.events && db1.checkouts == dbm.checkouts && db1.payments == dbm.payments
            && RefundsFit(stripe, p + {e}, db1)
  {
    var k := |db.payments|;
    var db1 := SyncDeferred(dbm, stripe, k);
    RowsStand(stripe, p, e, db, dbm);
    WaitingAfter(db, e, dbm);
    CommittedSync(stripe, p, e, dbm, k);
    WaitingStands(p, e, db, db1);
    OthersWerePaid(db.payments, db1.payments, i);
    if Waiting(dbm.events, i) {
      SyncedSettles(stripe, p, e, db, db1, i);
    } else {
      UnmentionedSettles(stripe, p, e, db, db1, i);
    }
  }

  lemma OthersWerePaid(was: seq<PaymentRow>, now: seq<PaymentRow>, i: IntentId)
    requires |now| == |was| + 1 && was <= now && now[|was|].intent == Some(i)
    ensures forall j :: IsPaid(now, j) && j != i ==> IsPaid(was, j)
  {
    forall j: IntentId | IsPaid(now, j) && j != i ensures IsPaid(was, j) {
      var n :| 0 <= n < |now| && now[n].intent == Some(j);
      assert was[n].intent == Some(j);
    }
  }

  lemma CommittedFits(stripe: Stripe, c0: map<SessionId, CheckoutRow>, events: set<Event>, p: set<Event>, e: Event, db: Db, s: Session)
    requires Settled(stripe, c0, events) && p <= events && e in events && IsPaidAt(stripe, s)
    requires Fits(stripe, c0, p, db) && e !in p && e.id !in db.events && (e.SessionSettled? || e.IntentSucceeded?)
    requires s.id in db.checkouts && PaymentOfSession(db.payments, s.id).None? && Matches(s, db.checkouts[s.id])
    requires Confirms(stripe, c0, e, s.id)
    ensures Fits(stripe, c0, p + {e}, CheckoutDb.Confirm(db, stripe, s, Some(MetaOf(e))).0)
  {
    var dbm := Committed(db, s, e);
    NewSessionNewIntent(stripe, c0, p, db, s);
    CommittedShape(stripe, db, s, e);
    CommittedRefunds(stripe, p, e, db, dbm, s.intent.value);
    var db1 := SyncDeferred(dbm, stripe, |db.payments|);
    CommittedPays(stripe, c0, p, e, db, db1, s.id);
    forall x | x in c0 ensures Declined(stripe, {e}, x) == {} {}
    CheckoutsStand(stripe, c0, p, e, db, db1);
    EventsNoted(p, e, db, db1);
  }

  /** The sync after a confirmation: nothing, or the whole list of the new payment's intent. */
  lemma CommittedSync(stripe: Stripe, p: set<Event>, e: Event, dbm: Db, k: nat)
    requires k < |dbm.payments| && dbm.payments[k].intent.Some? && stripe.available && stripe.reachable
    requires forall i: IntentId, n :: 0 <= n < |stripe.RefundsOf(i)| ==>
               OnItsWay(stripe.RefundsOf(i)[n].status) && stripe.RefundsOf(i)[n].intent == Some(i)
    requires RowsFit(stripe, p + {e}, dbm) && OneRowEach(dbm.refunds)
    requires Waiting(dbm.events, dbm.payments[k].intent.value) ==> Mentions(p, dbm.payments[k].intent.value)
    ensures var db1 := SyncDeferred(dbm, stripe, k);
            && db1.events == dbm.events && db1.checkouts == dbm.checkouts && db1.payments == dbm.payments
            && dbm.refunds <= db1.refunds && RowsFit(stripe, p + {e}, db1) && OneRowEach(db1.refunds)
            && (if Waiting(dbm.events, dbm.payments[k].intent.value) then AllListed(stripe, db1.refunds, dbm.payments[k].intent.value)
                else db1 == dbm)
  {
    if Waiting(dbm.events, dbm.payments[k].intent.value) {
      MentionsAfter(p, e);
      assert p + {e} + {e} == p + {e};
      SyncedFits(stripe, p + {e}, e, dbm, k);
    }
  }

  lemma UnmentionedSettles(stripe: Stripe, p: set<Event>, e: Event, db: Db, db1: Db, i: IntentId)
    requires SettledFits(stripe, p, db) && db.refunds == db1.refunds && !Mentions(p, i)
    requires !e.RefundChanged? && !e.ChargeRefunded?
    requires forall j :: IsPaid(db1.payments, j) && j != i ==> IsPaid(db.payments, j)
    ensures SettledFits(stripe, p + {e}, db1)
  {
    MentionsAfter(p, e);
    ChargesAreMentioned(p + {e});
    ChargesAreMentioned({e});
    forall j | IsPaid(db1.payments, j) ensures PaidFits(stripe, p + {e}, db1.refunds, j) {
      if j != i {
        assert PaidFits(stripe, p, db.refunds, j);
      }
    }
  }

  lemma ConfirmFits(stripe: Stripe, c0: map<SessionId, CheckoutRow>, events: set<Event>, p: set<Event>, e: Event, db: Db, s: Session)
    requires Settled(stripe, c0, events) && p <= events && e in events && Points(stripe, e) == Some(s)
    requires Fits(stripe, c0, p, db) && e !in p && e.id !in db.events
    ensures Fits(stripe, c0, p + {e}, CheckoutDb.Confirm(db, stripe, s, Some(MetaOf(e))).0)
  {
    assert Honest(stripe, e);
    assert IsPaidAt(stripe, s);
    if s.id in db.checkouts && PaymentOfSession(db.payments, s.id).None? && Matches(s, db.checkouts[s.id]) {
      CommittedFits(stripe, c0, events, p, e, db, s);
    } else {
      NotCommitted(stripe, e, db, s);
      RememberedFits(stripe, c0, p, e, db, CheckoutDb.Confirm(db, stripe, s, Some(MetaOf(e))).0);
    }
  }

  lemma NotCommitted(stripe: Stripe, e: Event, db: Db, s: Session)
    requires e.id !in db.events
    requires !(s.id in db.checkouts && PaymentOfSession(db.payments, s.id).None? && Matches(s, db.checkouts[s.id]))
    ensures Remembers(db, e, CheckoutDb.Confirm(db, stripe, s, Some(MetaOf(e))).0)
  {
    var db1 := CheckoutDb.Confirm(db, stripe, s, Some(MetaOf(e))).0;
    assert db1.events == db.events[e.id := db1.events[e.id]];
    assert db1.events[e.id] == EventRow(db1.events[e.id].outcome, db1.events[e.id].intent);
  }

  // ---------------------------------------------------------------- any event, any sequence

  lemma StepFits(stripe: Stripe, c0: map<SessionId, CheckoutRow>, events: set<Event>, p: set<Event>, e: Event, db: Db)
    requires Settled(stripe, c0, events) && p <= events && e in events && Fits(stripe, c0, p, db)
    ensures Fits(stripe, c0, p + {e}, CheckoutDb.HandleEvent(db, stripe, e).0)
  {
    if e.id in db.events {
      assert p + {e} == p;
    } else {
      if e.RefundChanged? {
        RefundEventFits(stripe, c0, p, e, db);
      } else if e.ChargeRefunded? {
        ChargeFits(stripe, c0, events, p, e, db);
      } else if e.IntentFailed? {
        DeclinedFits(stripe, c0, p, e, db);
      } else if Points(stripe, e).Some? {
        ConfirmFits(stripe, c0, events, p, e, db, Points(stripe, e).value);
      } else {
        JustRemembers(stripe, e, db);
        RememberedFits(stripe, c0, p, e, db, CheckoutDb.HandleEvent(db, stripe, e).0);
      }
    }
  }

  lemma JustRemembers(stripe: Stripe, e: Event, db: Db)
    requires e.id !in db.events && Points(stripe, e).None? && stripe.reachable && stripe.available
    requires !e.RefundChanged? && !e.ChargeRefunded? && !e.IntentFailed?
    ensures Remembers(db, e, CheckoutDb.HandleEvent(db, stripe, e).0)
  {
    var db1 := CheckoutDb.HandleEvent(db, stripe, e).0;
    assert db1.events == db.events[e.id := db1.events[e.id]];
    assert db1.events[e.id] == EventRow(db1.events[e.id].outcome, db1.events[e.id].intent);
  }

  /**
    * However the events came: exactly the confirmed sessions are paid, each once;
    * every refund told of, before or after its payment, is on it; every decline is
    * counted once; and a refund still without a payment is kept waiting.
    */
  lemma {:induction false} NothingIsLost(stripe: Stripe, c0: map<SessionId, CheckoutRow>, events: set<Event>, es: seq<Event>)
    requires Settled(stripe, c0, events) && Events(es) <= events
    ensures Fits(stripe, c0, Events(es), Deliver(Fresh(c0), stripe, es))
  {
    if es == [] {
      forall s | s in c0 ensures Declined(stripe, Events(es), s) == {} {}
    } else {
      var last := |es| - 1;
      var before := es[..last];
      assert Events(es) == Events(before) + {es[last]};
      assert Events(before) <= events;
      NothingIsLost(stripe, c0, events, before);
      StepFits(stripe, c0, events, Events(before), es[last], Deliver(Fresh(c0), stripe, before));
    }
  }
}
