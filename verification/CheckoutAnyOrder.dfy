/**
  * Which sets of events end the same in every order, however often each is repeated:
  * exactly those that tell of every refund of a confirmed payment, or of none.
  */
module CheckoutAnyOrder {
  import opened Options
  import opened CheckoutDb
  import opened CheckoutSafety
  import opened CheckoutOrder

  type Rows = map<SessionId, CheckoutRow>

  ghost function End(stripe: Stripe, c0: Rows, es: seq<Event>): Db {
    Deliver(Fresh(c0), stripe, es)
  }

  // ---------------------------------------------------------------- a covering set ends one way

  /** The payments are the confirmed sessions', whatever the order. */
  lemma PaymentsAreTheConfirmed(stripe: Stripe, c0: Rows, p: set<Event>, db: Db, row: PaymentRow)
    requires Coherent(stripe) && PaymentsFit(stripe, c0, p, db)
    requires forall e :: e in p ==> Honest(stripe, e)
    ensures row in SeenIn(db).payments <==>
            row.session in stripe.sessions && row.session in c0 && IsConfirmed(stripe, c0, p, row.session) && row == RowOf(stripe, c0, row.session)
  {
    if row.session in stripe.sessions && row.session in c0 && IsConfirmed(stripe, c0, p, row.session) && row == RowOf(stripe, c0, row.session) {
      var k := PaymentOfSession(db.payments, row.session).value;
      assert db.payments[k] == RowOf(stripe, c0, row.session);
    }
  }

  /** A refund that belongs at the end: of a confirmed payment that some event mentions a refund of. */
  ghost predicate Belongs(stripe: Stripe, c0: Rows, p: set<Event>, x: RefundSeen) {
    && x.intent.Some? && Made(stripe, x.intent.value, x.refund, x.amount) && Mentions(p, x.intent.value)
    && exists s :: s in c0 && s in stripe.sessions && IsConfirmed(stripe, c0, p, s) && stripe.sessions[s].intent == x.intent
  }

  lemma ARowBelongs(stripe: Stripe, c0: Rows, p: set<Event>, db: Db, r: RefundRow)
    requires PaymentsFit(stripe, c0, p, db) && RowFits(stripe, p, db, r)
    ensures Belongs(stripe, c0, p, RefundView(db, r))
  {
    var row := db.payments[r.payment];
    assert row.session in c0 && row.session in stripe.sessions && IsConfirmed(stripe, c0, p, row.session);
  }

  lemma WhatBelongsIsThere(stripe: Stripe, c0: Rows, p: set<Event>, db: Db, x: RefundSeen)
    requires Coherent(stripe) && Covers(stripe, c0, p) && PaymentsFit(stripe, c0, p, db)
    requires RowsFit(stripe, p, db) && SettledFits(stripe, p, db)
    requires Belongs(stripe, c0, p, x)
    ensures x in SeenIn(db).refunds
  {
    var i := x.intent.value;
    var s :| s in c0 && s in stripe.sessions && IsConfirmed(stripe, c0, p, s) && stripe.sessions[s].intent == x.intent;
    var k := PaymentOfSession(db.payments, s).value;
    assert db.payments[k].intent == Some(i);
    assert IsPaid(db.payments, i);
    assert PaidFits(stripe, p, db.refunds, i);
    assert ToldInFull(stripe, p, i);
    var n :| 0 <= n < |stripe.RefundsOf(i)| && stripe.RefundsOf(i)[n].id == x.refund && stripe.RefundsOf(i)[n].amount == x.amount;
    assert HasRefund(db.refunds, stripe.RefundsOf(i)[n].id);
    var m :| 0 <= m < |db.refunds| && db.refunds[m].refund == x.refund;
    assert RowFits(stripe, p, db, db.refunds[m]);
    assert RefundView(db, db.refunds[m]) == x;
  }

  lemma CoveringSetEndsOneWay(stripe: Stripe, c0: Rows, es: seq<Event>, fs: seq<Event>)
    requires Settled(stripe, c0, Events(es)) && Events(fs) == Events(es) && Covers(stripe, c0, Events(es))
    ensures SeenIn(End(stripe, c0, es)) == SeenIn(End(stripe, c0, fs))
  {
    var p, a, b := Events(es), End(stripe, c0, es), End(stripe, c0, fs);
    NothingIsLost(stripe, c0, p, es);
    NothingIsLost(stripe, c0, p, fs);
    forall row ensures row in SeenIn(a).payments <==> row in SeenIn(b).payments {
      PaymentsAreTheConfirmed(stripe, c0, p, a, row);
      PaymentsAreTheConfirmed(stripe, c0, p, b, row);
    }
    SameRefunds(stripe, c0, p, a, b);
    SameRefunds(stripe, c0, p, b, a);
    assert SeenIn(a).payments == SeenIn(b).payments;
    assert SeenIn(a).refunds == SeenIn(b).refunds;
    assert SeenIn(a).declines == SeenIn(b).declines;
  }

  lemma SameRefunds(stripe: Stripe, c0: Rows, p: set<Event>, a: Db, b: Db)
    requires Coherent(stripe) && Covers(stripe, c0, p) && Fits(stripe, c0, p, a) && Fits(stripe, c0, p, b)
    ensures SeenIn(a).refunds <= SeenIn(b).refunds
  {
    forall x | x in SeenIn(a).refunds ensures x in SeenIn(b).refunds {
      var k :| 0 <= k < |a.refunds| && x == RefundView(a, a.refunds[k]);
      assert RowFits(stripe, p, a, a.refunds[k]);
      ARowBelongs(stripe, c0, p, a, a.refunds[k]);
      WhatBelongsIsThere(stripe, c0, p, b, x);
    }
  }

  // ---------------------------------------------------------------- any other set ends in two ways

  /** Where a new refund row can come from. */
  ghost predicate ComesFrom(db: Db, e: Event, db1: Db, r: RefundRow) {
    && r.payment < |db1.payments|
    && var j := db1.payments[r.payment].intent;
       || (e.RefundChanged? && e.refund.intent == j && e.refund.id == r.refund)
       || (e.ChargeRefunded? && e.charged == j)
       || (j.Some? && !IsPaid(db.payments, j.value))
  }

  lemma NewRows(stripe: Stripe, c0: Rows, events: set<Event>, p: set<Event>, e: Event, db: Db)
    requires Settled(stripe, c0, events) && p <= events && e in events && Fits(stripe, c0, p, db)
    ensures var db1 := CheckoutDb.HandleEvent(db, stripe, e).0;
            && db.payments <= db1.payments && db.refunds <= db1.refunds
            && forall n :: |db.refunds| <= n < |db1.refunds| ==> ComesFrom(db, e, db1, db1.refunds[n])
  {
    var db1 := CheckoutDb.HandleEvent(db, stripe, e).0;
    assert Honest(stripe, e);
    if e.id !in db.events {
      if e.RefundChanged? {
        RefundEventIsNoted(db, e);
      } else if e.ChargeRefunded? {
        NewRowsOfACharge(stripe, e, db);
      } else if Points(stripe, e).Some? {
        NewRowsOfAConfirmation(stripe, c0, p, e, db, Points(stripe, e).value);
      }
    }
  }

  lemma NewRowsOfACharge(stripe: Stripe, e: Event, db: Db)
    requires Honest(stripe, e) && stripe.available && stripe.reachable && e.ChargeRefunded? && e.charged.Some? && e.id !in db.events
    requires OneRowEach(db.refunds)
    requires forall i: IntentId, n :: 0 <= n < |stripe.RefundsOf(i)| ==>
               OnItsWay(stripe.RefundsOf(i)[n].status) && stripe.RefundsOf(i)[n].intent == Some(i)
    ensures var db1 := CheckoutDb.HandleEvent(db, stripe, e).0;
            && db.payments <= db1.payments && db.refunds <= db1.refunds
            && forall n :: |db.refunds| <= n < |db1.refunds| ==> ComesFrom(db, e, db1, db1.refunds[n])
  {
    PaidIntentHasRow(db.payments, e.charged.value);
    if IsPaid(db.payments, e.charged.value) {
      var k := PaymentOfIntent(db.payments, e.charged.value).value;
      SyncRecordsAll(db, k, stripe.RefundsOf(e.charged.value));
    }
  }

  lemma NewRowsOfAConfirmation(stripe: Stripe, c0: Rows, p: set<Event>, e: Event, db: Db, s: Session)
    requires Coherent(stripe) && stripe.available && IsPaidAt(stripe, s) && s.intent.Some? && e.id !in db.events
    requires forall i: IntentId, n :: 0 <= n < |stripe.RefundsOf(i)| ==>
               OnItsWay(stripe.RefundsOf(i)[n].status) && stripe.RefundsOf(i)[n].intent == Some(i)
    requires PaymentsFit(stripe, c0, p, db) && OneRowEach(db.refunds)
    ensures var db1 := CheckoutDb.Confirm(db, stripe, s, Some(MetaOf(e))).0;
            && db.payments <= db1.payments && db.refunds <= db1.refunds
            && forall n :: |db.refunds| <= n < |db1.refunds| ==> ComesFrom(db, e, db1, db1.refunds[n])
  {
    if s.id in db.checkouts && PaymentOfSession(db.payments, s.id).None? && Matches(s, db.checkouts[s.id]) {
      NewSessionNewIntent(stripe, c0, p, db, s);
      CommittedShape(stripe, db, s, e);
      var dbm := Committed(db, s, e);
      SyncRecordsAll(dbm, |db.payments|, stripe.RefundsOf(s.intent.value));
    } else {
      NotCommitted(stripe, e, db, s);
    }
  }

  lemma {:induction false} RefundsOnlyGrow(stripe: Stripe, c0: Rows, events: set<Event>, es: seq<Event>, n: nat)
    requires Settled(stripe, c0, events) && Events(es) <= events && n <= |es|
    ensures End(stripe, c0, es[..n]).refunds <= End(stripe, c0, es).refunds
  {
    if n == |es| {
      assert es[..n] == es;
    } else {
      var before := es[..|es| - 1];
      assert Events(before) <= Events(es);
      assert before[..n] == es[..n];
      RefundsOnlyGrow(stripe, c0, events, before, n);
      NothingIsLost(stripe, c0, events, before);
      assert es[|es| - 1] in Events(es);
      NewRows(stripe, c0, events, Events(before), es[|es| - 1], End(stripe, c0, before));
    }
  }

  ghost predicate OnlyTold(p: set<Event>, db: Db, i: IntentId) {
    forall k :: 0 <= k < |db.refunds| && db.refunds[k].payment < |db.payments| && db.payments[db.refunds[k].payment].intent == Some(i) ==>
      Tells(p, i, db.refunds[k].refund)
  }

  /** With its payment first and no charge event, an intent gets only the refunds it is told of. */
  lemma {:induction false} PaymentFirst(stripe: Stripe, c0: Rows, events: set<Event>, c: Event, s: SessionId, es: seq<Event>)
    requires Settled(stripe, c0, events) && c in events && Events(es) <= events && Confirms(stripe, c0, c, s)
    requires s in stripe.sessions && stripe.sessions[s].intent.Some? && !Charged(events, stripe.sessions[s].intent.value)
    ensures OnlyTold(Events([c] + es), End(stripe, c0, [c] + es), stripe.sessions[s].intent.value)
  {
    var i := stripe.sessions[s].intent.value;
    var all := [c] + es;
    assert Events(all) <= events;
    if es == [] {
      assert all == [c] && Events(all) == {c};
      NothingIsLost(stripe, c0, events, all);
      NoMentionNoRow(stripe, {c}, End(stripe, c0, all));
    } else {
      var e, fs := es[|es| - 1], es[..|es| - 1];
      var before := [c] + fs;
      assert es == fs + [e];
      assert all == before + [e] && Events(all) == Events(before) + {e};
      assert Events(fs) <= Events(es) && e in Events(es);
      PaymentFirst(stripe, c0, events, c, s, fs);
      NothingIsLost(stripe, c0, events, before);
      assert c in Events(before);
      ToldStep(stripe, c0, events, Events(before), e, End(stripe, c0, before), s, i);
      OneMore(stripe, c0, before, e);
    }
  }

  lemma OneMore(stripe: Stripe, c0: Rows, es: seq<Event>, e: Event)
    ensures End(stripe, c0, es + [e]) == CheckoutDb.HandleEvent(End(stripe, c0, es), stripe, e).0
  {
    assert (es + [e])[..|es|] == es;
  }

  lemma NoMentionNoRow(stripe: Stripe, p: set<Event>, db: Db)
    requires RowsFit(stripe, p, db) && forall i :: !Mentions(p, i)
    ensures db.refunds == []
  {
    assert db.refunds == [] || RowFits(stripe, p, db, db.refunds[0]);
  }

  lemma ToldStep(stripe: Stripe, c0: Rows, events: set<Event>, p: set<Event>, e: Event, db: Db, s: SessionId, i: IntentId)
    requires Settled(stripe, c0, events) && p <= events && e in events && Fits(stripe, c0, p, db)
    requires IsConfirmed(stripe, c0, p, s) && s in stripe.sessions && s in c0 && stripe.sessions[s].intent == Some(i)
    requires OnlyTold(p, db, i) && !Charged(events, i)
    ensures OnlyTold(p + {e}, CheckoutDb.HandleEvent(db, stripe, e).0, i)
  {
    var db1 := CheckoutDb.HandleEvent(db, stripe, e).0;
    NewRows(stripe, c0, events, p, e, db);
    MentionsAfter(p, e);
    assert IsPaid(db.payments, i) by {
      var k := PaymentOfSession(db.payments, s).value;
      assert db.payments[k].intent == Some(i);
    }
    forall k | 0 <= k < |db1.refunds| && db1.refunds[k].payment < |db1.payments| && db1.payments[db1.refunds[k].payment].intent == Some(i)
      ensures Tells(p + {e}, i, db1.refunds[k].refund)
    {
      if k < |db.refunds| {
        assert db1.refunds[k] == db.refunds[k];
        assert RowFits(stripe, p, db, db.refunds[k]);
      } else {
        assert ComesFrom(db, e, db1, db1.refunds[k]);
        assert e.RefundChanged?;
        assert Tells({e}, i, db1.refunds[k].refund) by { assert e in {e}; }
      }
    }
  }

  /** With a refund told of first, the payment brings every refund of its intent. */
  lemma RefundFirst(stripe: Stripe, c0: Rows, events: set<Event>, r: Event, c: Event, s: SessionId)
    requires Settled(stripe, c0, events) && r in events && c in events && Confirms(stripe, c0, c, s)
    requires s in stripe.sessions && stripe.sessions[s].intent.Some?
    requires r.RefundChanged? && r.refund.intent == stripe.sessions[s].intent
    ensures AllListed(stripe, End(stripe, c0, [r, c]).refunds, stripe.sessions[s].intent.value)
  {
    var i := stripe.sessions[s].intent.value;
    assert Honest(stripe, c) && Honest(stripe, r);
    var db := End(stripe, c0, [r]);
    OneMore(stripe, c0, [], r);
    OneMore(stripe, c0, [r], c);
    assert [] + [r] == [r] && [r] + [c] == [r, c];
    assert db == Fresh(c0).(events := map[r.id := EventRow(RefundDeferred, Some(i))]);
    assert Waiting(db.events, i) by { assert db.events[r.id] == EventRow(RefundDeferred, Some(i)); }
    var session := Points(stripe, c).value;
    CommittedShape(stripe, db, session, c);
    var dbm := Committed(db, session, c);
    WaitingAfter(db, c, dbm);
    SyncRecordsAll(dbm, 0, stripe.RefundsOf(i));
    assert End(stripe, c0, [r, c]) == SyncDeferred(dbm, stripe, 0);
  }

  lemma UncoveredSetEndsTwoWays(stripe: Stripe, c0: Rows, es: seq<Event>) returns (a: seq<Event>, b: seq<Event>)
    requires Settled(stripe, c0, Events(es)) && !Covers(stripe, c0, Events(es))
    ensures Events(a) == Events(es) && Events(b) == Events(es)
    ensures SeenIn(End(stripe, c0, a)) != SeenIn(End(stripe, c0, b))
  {
    var p := Events(es);
    var s :| s in c0 && s in stripe.sessions && stripe.sessions[s].intent.Some? && IsConfirmed(stripe, c0, p, s)
             && !ToldInFull(stripe, p, stripe.sessions[s].intent.value);
    var i := stripe.sessions[s].intent.value;
    var k :| 0 <= k < |stripe.RefundsOf(i)| && !Tells(p, i, stripe.RefundsOf(i)[k].id);
    var r0 := stripe.RefundsOf(i)[k];
    var c :| c in p && Confirms(stripe, c0, c, s);
    var r :| r in p && ((r.ChargeRefunded? && r.charged == Some(i)) || (r.RefundChanged? && r.refund.intent == Some(i)));
    assert r.RefundChanged?;
    a, b := [c] + es, [r, c] + es;
    assert Events(a) == p && Events(b) == p;
    PaymentFirst(stripe, c0, p, c, s, es);
    RefundFirst(stripe, c0, p, r, c, s);
    assert b[..2] == [r, c];
    RefundsOnlyGrow(stripe, c0, p, b, 2);
    NothingIsLost(stripe, c0, p, a);
    OnlyOneHasIt(stripe, p, End(stripe, c0, a), End(stripe, c0, [r, c]).refunds, End(stripe, c0, b), i, k);
  }

  lemma OnlyOneHasIt(stripe: Stripe, p: set<Event>, a: Db, rows: seq<RefundRow>, b: Db, i: IntentId, k: nat)
    requires Coherent(stripe) && k < |stripe.RefundsOf(i)| && !Tells(p, i, stripe.RefundsOf(i)[k].id)
    requires RowsFit(stripe, p, a) && OnlyTold(p, a, i)
    requires AllListed(stripe, rows, i) && rows <= b.refunds
    ensures SeenIn(a).refunds != SeenIn(b).refunds
  {
    var r0 := stripe.RefundsOf(i)[k];
    assert HasRefund(rows, r0.id);
    HadStillHas(rows, b.refunds, r0.id);
    var m :| 0 <= m < |b.refunds| && b.refunds[m].refund == r0.id;
    var x := RefundView(b, b.refunds[m]);
    assert x in SeenIn(b).refunds;
    if x in SeenIn(a).refunds {
      var n :| 0 <= n < |a.refunds| && x == RefundView(a, a.refunds[n]);
      assert RowFits(stripe, p, a, a.refunds[n]);
      assert Made(stripe, i, r0.id, r0.amount);
    }
  }

  /**
    * One set of events, in any order and with any repetition, ends with the same
    * payments, refunds and declined counts if and only if it covers its refunds.
    */
  lemma OrderDoesNotMatterIffCovered(stripe: Stripe, c0: Rows, es: seq<Event>)
    requires Settled(stripe, c0, Events(es))
    ensures (forall fs :: Events(fs) == Events(es) ==> SeenIn(End(stripe, c0, fs)) == SeenIn(End(stripe, c0, es)))
            <==> Covers(stripe, c0, Events(es))
    ensures forall fs :: Events(fs) == Events(es) ==> NothingTwice(End(stripe, c0, fs))
  {
    if Covers(stripe, c0, Events(es)) {
      forall fs | Events(fs) == Events(es) ensures SeenIn(End(stripe, c0, fs)) == SeenIn(End(stripe, c0, es)) {
        CoveringSetEndsOneWay(stripe, c0, es, fs);
      }
    } else {
      var a, b := UncoveredSetEndsTwoWays(stripe, c0, es);
      assert Events(a) == Events(es) && Events(b) == Events(es);
    }
    forall fs | Events(fs) == Events(es) ensures NothingTwice(End(stripe, c0, fs)) {
      NothingIsLost(stripe, c0, Events(es), fs);
    }
  }
}
