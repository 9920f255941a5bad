/**
  * What opening a checkout promises a request: one payable Stripe page at a time,
  * no second charge for a session that was paid, and a page again after a crash. Each
  * is stated with the exact answers of Stripe it needs.
  */
module CheckoutOnePage {
  import opened Options
  import opened CheckoutDb
  import opened CheckoutOpen

  ghost predicate IsOpenFor(desk: Desk, r: RequestId, s: SessionId) {
    s in desk.sessions && desk.sessions[s].status.StripeOpen? && desk.sessions[s].requestTag == Some(r)
  }

  ghost predicate AtMostOnePage(desk: Desk, r: RequestId) {
    forall s, t :: IsOpenFor(desk, r, s) && IsOpenFor(desk, r, t) ==> s == t
  }

  ghost predicate HasOpenRow(desk: Desk, r: RequestId, s: SessionId) {
    s in desk.db.checkouts && desk.db.checkouts[s].request == r && desk.db.checkouts[s].status == Open
  }

  /** The session a crash left without its row: the one the next attempt's key will be answered with. */
  ghost predicate IsPending(desk: Desk, r: RequestId, s: SessionId) {
    var key := (r, Attempts(desk.db, r));
    key in desk.keys && desk.keys[key].session == s
  }

  /** The next `open` will find every page a parent can still pay. */
  ghost predicate Tracked(desk: Desk, r: RequestId) {
    forall s :: IsOpenFor(desk, r, s) ==> HasOpenRow(desk, r, s) || IsPending(desk, r, s)
  }

  /** A key's session is its request's, for what was asked, and has no row while the key is the next attempt's. */
  ghost predicate KeyIsKept(desk: Desk, key: (RequestId, nat))
    requires key in desk.keys
  {
    var use := desk.keys[key];
    && use.session in desk.sessions && desk.sessions[use.session].requestTag == Some(key.0)
    && desk.sessions[use.session].amount == use.amount && desk.sessions[use.session].currency == use.currency
    && key.1 <= Attempts(desk.db, key.0) && (use.session in desk.db.checkouts ==> key.1 < Attempts(desk.db, key.0))
  }

  ghost predicate WellKept(desk: Desk) {
    && (forall s :: s in desk.sessions ==> desk.sessions[s].id == s)
    && (forall s :: s in desk.db.checkouts ==> s in desk.sessions && desk.sessions[s].requestTag == Some(desk.db.checkouts[s].request))
    && (forall key :: key in desk.keys ==> KeyIsKept(desk, key))
  }

  /** Retrieve did not answer, or expire failed on a session that was not completed. */
  predicate LeavesOpen(w: Weather) {
    !w.answers || (w.paidMeanwhile.None? && !w.expireAnswers)
  }

  // ---------------------------------------------------------------- what the loop leaves

  ghost predicate SessionsLeft(desk: Desk, list: seq<SessionId>, weather: SessionId -> Weather, d: Desk) {
    && d.keys == desk.keys && d.sessions.Keys == desk.sessions.Keys
    && forall s :: s in desk.sessions ==>
         && d.sessions[s].id == desk.sessions[s].id && d.sessions[s].requestTag == desk.sessions[s].requestTag
         && d.sessions[s].amount == desk.sessions[s].amount && d.sessions[s].currency == desk.sessions[s].currency
         && (d.sessions[s].status.StripeOpen? <==> desk.sessions[s].status.StripeOpen? && (s !in list || LeavesOpen(weather(s))))
  }

  ghost predicate RowsLeft(desk: Desk, list: seq<SessionId>, weather: SessionId -> Weather, d: Desk) {
    && d.db.checkouts.Keys == desk.db.checkouts.Keys
    && (forall s :: s in desk.db.checkouts ==> d.db.checkouts[s].request == desk.db.checkouts[s].request)
    && (forall s :: s in desk.db.checkouts && (s !in list || !weather(s).answers) ==> d.db.checkouts[s] == desk.db.checkouts[s])
    && (forall s | s in list && s in desk.db.checkouts && s in desk.sessions ::
          weather(s).answers && desk.sessions[s].status.StripeOpen? ==> d.db.checkouts[s].status == Expired)
  }

  lemma CloseOneLeaves(desk: Desk, stripe: Stripe, s: SessionId, weather: SessionId -> Weather)
    requires s in desk.sessions && s in desk.db.checkouts && desk.sessions[s].id == s
    ensures var d := CloseOne(desk, stripe, s, weather(s)); SessionsLeft(desk, [s], weather, d) && RowsLeft(desk, [s], weather, d)
  {
    ConfirmKeepsRows(desk.db, stripe, desk.sessions[s], None);
  }

  lemma {:induction false} LoopLeaves(desk: Desk, stripe: Stripe, list: seq<SessionId>, weather: SessionId -> Weather)
    requires Known(desk, list) && (forall s :: s in desk.sessions ==> desk.sessions[s].id == s)
    requires forall j, k :: 0 <= j < k < |list| ==> list[j] != list[k]
    ensures var d := CloseAll(desk, stripe, list, weather); SessionsLeft(desk, list, weather, d) && RowsLeft(desk, list, weather, d)
    decreases |list|
  {
    if list != [] {
      var rest, s := list[..|list| - 1], list[|list| - 1];
      LoopLeaves(desk, stripe, rest, weather);
      var before := CloseAll(desk, stripe, rest, weather);
      assert s !in rest && list == rest + [s];
      CloseOneLeaves(before, stripe, s, weather);
      SessionsCompose(desk, before, CloseOne(before, stripe, s, weather(s)), rest, s, weather);
      RowsCompose(desk, before, CloseOne(before, stripe, s, weather(s)), rest, s, weather);
    }
  }

  lemma SessionsCompose(a: Desk, b: Desk, c: Desk, rest: seq<SessionId>, s: SessionId, weather: SessionId -> Weather)
    requires SessionsLeft(a, rest, weather, b) && SessionsLeft(b, [s], weather, c)
    ensures SessionsLeft(a, rest + [s], weather, c)
  {
  }

  lemma RowsCompose(a: Desk, b: Desk, c: Desk, rest: seq<SessionId>, s: SessionId, weather: SessionId -> Weather)
    requires RowsLeft(a, rest, weather, b) && RowsLeft(b, [s], weather, c) && SessionsLeft(a, rest, weather, b) && s !in rest
    ensures RowsLeft(a, rest + [s], weather, c)
  {
  }

  lemma LoopCountsTheSame(desk: Desk, list: seq<SessionId>, weather: SessionId -> Weather, d: Desk)
    requires RowsLeft(desk, list, weather, d)
    ensures forall r :: Attempts(d.db, r) == Attempts(desk.db, r)
  {
    forall r ensures Attempts(d.db, r) == Attempts(desk.db, r) {
      assert RowsOf(d.db, r) == RowsOf(desk.db, r);
    }
  }

  // ---------------------------------------------------------------- one call

  ghost predicate Callable(desk: Desk, req: Request, list: seq<SessionId>, c: Creation) {
    && WellKept(desk) && Known(desk, list) && ListsOpenRows(list, desk.db, req.id) && c.made !in desk.sessions
  }

  ghost function AfterOpen(desk: Desk, stripe: Stripe, req: Request, list: seq<SessionId>, weather: SessionId -> Weather, c: Creation): (Desk, Answer)
    requires Known(desk, list)
  {
    Finish(CloseAll(desk, stripe, list, weather), req, c)
  }

  /** The answer's own part: the page's session and row, and nothing else. */
  lemma FinishShape(closed: Desk, req: Request, c: Creation, s: SessionId)
    requires c.made !in closed.sessions
    requires Finish(closed, req, c).1 == Page(s)
    ensures var d := Finish(closed, req, c).0;
            && s !in closed.db.checkouts && d.db.checkouts.Keys == closed.db.checkouts.Keys + {s} && d.db.payments == closed.db.payments
            && d.db.checkouts[s] == CheckoutRow(req.id, Remaining(closed.db, req), req.currency, Open, 0, None)
            && (forall t :: t in closed.db.checkouts ==> d.db.checkouts[t] == closed.db.checkouts[t])
            && (forall t :: t != s && t in d.sessions ==> t in closed.sessions && d.sessions[t] == closed.sessions[t])
            && (forall t :: t in closed.sessions ==> t in d.sessions && d.sessions[t] == closed.sessions[t])
            && (IsPending(closed, req.id, s) || s == c.made) && (forall t :: IsPending(closed, req.id, t) ==> t == s)
            && ((req.id, Attempts(closed.db, req.id)) !in closed.keys ==> s == c.made)
            && (forall key :: key in d.keys ==> key in closed.keys || key == (req.id, Attempts(closed.db, req.id)))
  {
  }

  lemma PendingStays(desk: Desk, closed: Desk, r: RequestId)
    requires closed.keys == desk.keys && Attempts(closed.db, r) == Attempts(desk.db, r)
    ensures forall t :: IsPending(closed, r, t) <==> IsPending(desk, r, t)
  {
  }

  lemma LoopWellKept(desk: Desk, list: seq<SessionId>, weather: SessionId -> Weather, d: Desk)
    requires WellKept(desk) && SessionsLeft(desk, list, weather, d) && RowsLeft(desk, list, weather, d)
    ensures WellKept(d)
  {
    LoopCountsTheSame(desk, list, weather, d);
    forall key | key in d.keys ensures KeyIsKept(d, key) {
      assert KeyIsKept(desk, key);
    }
  }

  /** What is open for the request once a page was answered: that page, and what the weather left. */
  lemma WhatIsOpen(desk: Desk, stripe: Stripe, req: Request, list: seq<SessionId>, weather: SessionId -> Weather, c: Creation, s: SessionId)
    requires Callable(desk, req, list, c) && Tracked(desk, req.id)
    requires AfterOpen(desk, stripe, req, list, weather, c).1 == Page(s)
    ensures var d := AfterOpen(desk, stripe, req, list, weather, c).0;
            forall t :: t != s ==> (IsOpenFor(d, req.id, t) <==> IsOpenFor(desk, req.id, t) && t in list && LeavesOpen(weather(t)))
  {
    var closed := CloseAll(desk, stripe, list, weather);
    LoopLeaves(desk, stripe, list, weather);
    LoopCountsTheSame(desk, list, weather, closed);
    FinishShape(closed, req, c, s);
    var d := AfterOpen(desk, stripe, req, list, weather, c).0;
    PendingStays(desk, closed, req.id);
    forall t | t != s ensures IsOpenFor(d, req.id, t) <==> IsOpenFor(desk, req.id, t) && t in list && LeavesOpen(weather(t)) {
      assert IsOpenFor(desk, req.id, t) ==> HasOpenRow(desk, req.id, t);
    }
  }

  /**
    * The page answered is the only one its parent can still pay if and only if every
    * earlier open session answered and was expired, or was completed meanwhile.
    */
  lemma OnePageIff(desk: Desk, stripe: Stripe, req: Request, list: seq<SessionId>, weather: SessionId -> Weather, c: Creation, s: SessionId)
    requires Callable(desk, req, list, c) && Tracked(desk, req.id)
    requires AfterOpen(desk, stripe, req, list, weather, c).1 == Page(s)
    ensures (forall t :: IsOpenFor(AfterOpen(desk, stripe, req, list, weather, c).0, req.id, t) ==> t == s)
            <==> (forall t :: t in list && desk.sessions[t].status.StripeOpen? ==> !LeavesOpen(weather(t)))
  {
    var d := AfterOpen(desk, stripe, req, list, weather, c).0;
    WhatIsOpen(desk, stripe, req, list, weather, c, s);
    FinishShape(CloseAll(desk, stripe, list, weather), req, c, s);
    forall t | t in list && desk.sessions[t].status.StripeOpen? && LeavesOpen(weather(t)) ensures t != s && IsOpenFor(d, req.id, t) {
      assert IsOpenFor(desk, req.id, t);
      assert t in desk.db.checkouts;
    }
    forall t | IsOpenFor(desk, req.id, t) && t in list ensures desk.sessions[t].status.StripeOpen? {}
  }

  /**
    * A session whose retrieve did not answer is found again by the next call; one
    * whose expire failed uncompleted is not. The request stays tracked if and only
    * if there is none of the second kind.
    */
  lemma TrackedIff(desk: Desk, stripe: Stripe, req: Request, list: seq<SessionId>, weather: SessionId -> Weather, c: Creation, s: SessionId)
    requires Callable(desk, req, list, c) && Tracked(desk, req.id)
    requires AfterOpen(desk, stripe, req, list, weather, c).1 == Page(s)
    ensures Tracked(AfterOpen(desk, stripe, req, list, weather, c).0, req.id)
            <==> (forall t :: t in list && desk.sessions[t].status.StripeOpen? && weather(t).answers ==> !LeavesOpen(weather(t)))
  {
    var closed := CloseAll(desk, stripe, list, weather);
    var d := AfterOpen(desk, stripe, req, list, weather, c).0;
    WhatIsOpen(desk, stripe, req, list, weather, c, s);
    LoopLeaves(desk, stripe, list, weather);
    LoopCountsTheSame(desk, list, weather, closed);
    FinishShape(closed, req, c, s);
    NothingPending(desk, closed, d, req, c, s);
    forall t | t in list && desk.sessions[t].status.StripeOpen? && weather(t).answers && LeavesOpen(weather(t))
      ensures !Tracked(d, req.id)
    {
      assert IsOpenFor(desk, req.id, t);
      assert IsOpenFor(d, req.id, t);
      assert !HasOpenRow(d, req.id, t);
    }
    if forall t :: t in list && desk.sessions[t].status.StripeOpen? && weather(t).answers ==> !LeavesOpen(weather(t)) {
      forall t | IsOpenFor(d, req.id, t) ensures HasOpenRow(d, req.id, t) {
        if t != s {
          assert IsOpenFor(desk, req.id, t) && t in list && !weather(t).answers;
        }
      }
    }
  }

  lemma OneMoreAttempt(db: Db, d: Db, r: RequestId, s: SessionId)
    requires s !in db.checkouts && d.checkouts.Keys == db.checkouts.Keys + {s} && d.checkouts[s].request == r
    requires forall t :: t in db.checkouts ==> d.checkouts[t] == db.checkouts[t]
    ensures Attempts(d, r) == Attempts(db, r) + 1
    ensures forall q :: q != r ==> Attempts(d, q) == Attempts(db, q)
  {
    assert RowsOf(d, r) == RowsOf(db, r) + {s};
    forall q | q != r ensures Attempts(d, q) == Attempts(db, q) {
      assert RowsOf(d, q) == RowsOf(db, q);
    }
  }

  /** Once a page is answered, the next attempt's key has made no session. */
  lemma NothingPending(desk: Desk, closed: Desk, d: Desk, req: Request, c: Creation, s: SessionId)
    requires WellKept(desk) && closed.keys == desk.keys && c.made !in closed.sessions
    requires forall r :: Attempts(closed.db, r) == Attempts(desk.db, r)
    requires Finish(closed, req, c) == (d, Page(s))
    ensures forall t :: !IsPending(d, req.id, t)
  {
    FinishShape(closed, req, c, s);
    OneMoreAttempt(closed.db, d.db, req.id, s);
  }

  // ---------------------------------------------------------------- paid already is not charged again

  function RowFor(session: Session, c: CheckoutRow): PaymentRow {
    PaymentRow(session.id, session.intent, c.request, c.amount, c.currency)
  }

  lemma ConfirmAdds(db: Db, stripe: Stripe, session: Session)
    requires session.id in db.checkouts
    ensures var now := Confirm(db, stripe, session, None).0.payments;
            now == if PaymentOfSession(db.payments, session.id).None? && Matches(session, db.checkouts[session.id])
                      && (session.intent.Some? ==> PaymentOfIntent(db.payments, session.intent.value).None?)
                   then db.payments + [RowFor(session, db.checkouts[session.id])] else db.payments
  {
    var (db0, o) := TxConfirm(db, None, session, db.checkouts[session.id]);
    if o == Recorded {
      SyncKeepsRows(db0, stripe, |db.payments|);
    }
  }

  /** Its retrieve answers, with a session Stripe already completed and was paid for. */
  ghost predicate PaidAtItsRead(desk: Desk, weather: SessionId -> Weather, s: SessionId)
    requires s in desk.sessions
  {
    weather(s).answers && desk.sessions[s].status.StripeComplete? && desk.sessions[s].paid
  }

  /** A payment the loop records is a listed session's that was paid at its read. */
  ghost predicate FromList(desk: Desk, list: seq<SessionId>, weather: SessionId -> Weather, row: PaymentRow) {
    && row.session in list && row.session in desk.sessions && row.session in desk.db.checkouts
    && PaidAtItsRead(desk, weather, row.session) && desk.sessions[row.session].id == row.session && row.intent == desk.sessions[row.session].intent
    && row.amount == desk.db.checkouts[row.session].amount && row.request == desk.db.checkouts[row.session].request
  }

  ghost predicate AddsFromList(desk: Desk, list: seq<SessionId>, weather: SessionId -> Weather, d: Desk) {
    forall k :: |desk.db.payments| <= k < |d.db.payments| ==> FromList(desk, list, weather, d.db.payments[k])
  }

  /** Stripe's intents are one session's each, recorded or not. */
  ghost predicate OwnIntent(desk: Desk, s: SessionId)
    requires s in desk.sessions
  {
    var i := desk.sessions[s].intent;
    i.Some? ==>
      && (forall k :: 0 <= k < |desk.db.payments| ==> desk.db.payments[k].intent != i)
      && (forall t :: t in desk.sessions && t != s && desk.sessions[t].status.StripeComplete? && desk.sessions[t].paid ==>
            desk.sessions[t].intent != i)
  }

  ghost predicate IsPaidAndUnrecorded(desk: Desk, s: SessionId) {
    && s in desk.sessions && s in desk.db.checkouts
    && desk.sessions[s].status.StripeComplete? && desk.sessions[s].paid && Matches(desk.sessions[s], desk.db.checkouts[s])
    && PaymentOfSession(desk.db.payments, s).None? && OwnIntent(desk, s)
  }

  lemma {:induction false} LoopAdds(desk: Desk, stripe: Stripe, list: seq<SessionId>, weather: SessionId -> Weather)
    requires Known(desk, list) && (forall s :: s in desk.sessions ==> desk.sessions[s].id == s)
    requires forall j, k :: 0 <= j < k < |list| ==> list[j] != list[k]
    ensures AddsFromList(desk, list, weather, CloseAll(desk, stripe, list, weather))
    decreases |list|
  {
    if list != [] {
      var rest, s := list[..|list| - 1], list[|list| - 1];
      LoopAdds(desk, stripe, rest, weather);
      var before := CloseAll(desk, stripe, rest, weather);
      assert s !in rest && list == rest + [s];
      assert before.sessions[s] == desk.sessions[s];
      ConfirmAdds(before.db, stripe, before.sessions[s]);
      TurnAdds(desk, rest, before, stripe, s, weather);
    }
  }

  lemma TurnAdds(desk: Desk, rest: seq<SessionId>, before: Desk, stripe: Stripe, s: SessionId, weather: SessionId -> Weather)
    requires s in desk.sessions && s in desk.db.checkouts && desk.sessions[s].id == s
    requires s in before.sessions && before.sessions[s] == desk.sessions[s] && s in before.db.checkouts
    requires before.db.checkouts[s].amount == desk.db.checkouts[s].amount && before.db.checkouts[s].request == desk.db.checkouts[s].request
    requires AddsFromList(desk, rest, weather, before)
    ensures AddsFromList(desk, rest + [s], weather, CloseOne(before, stripe, s, weather(s)))
  {
    var d := CloseOne(before, stripe, s, weather(s));
    ConfirmAdds(before.db, stripe, before.sessions[s]);
    forall k | |desk.db.payments| <= k < |d.db.payments| ensures FromList(desk, rest + [s], weather, d.db.payments[k]) {
      if k < |before.db.payments| {
        assert d.db.payments[k] == before.db.payments[k];
        assert FromList(desk, rest, weather, before.db.payments[k]);
      } else {
        assert d.db.payments[k] == RowFor(desk.sessions[s], before.db.checkouts[s]);
      }
    }
  }

  lemma {:induction false} LoopRecords(desk: Desk, stripe: Stripe, list: seq<SessionId>, weather: SessionId -> Weather, s: SessionId)
    requires Known(desk, list) && (forall s :: s in desk.sessions ==> desk.sessions[s].id == s)
    requires forall j, k :: 0 <= j < k < |list| ==> list[j] != list[k]
    requires s in list && weather(s).answers && IsPaidAndUnrecorded(desk, s)
    ensures Records(desk, CloseAll(desk, stripe, list, weather), s)
    decreases |list|
  {
    var rest, last := list[..|list| - 1], list[|list| - 1];
    var before := CloseAll(desk, stripe, rest, weather);
    assert list == rest + [last];
    if s != last {
      LoopRecords(desk, stripe, rest, weather, s);
      TurnStillRecords(desk, before, stripe, last, weather(last), s);
    } else {
      LoopRecordsLast(desk, stripe, rest, weather, s);
    }
  }

  lemma TurnStillRecords(desk: Desk, before: Desk, stripe: Stripe, t: SessionId, w: Weather, s: SessionId)
    requires Records(desk, before, s) && t in before.sessions && t in before.db.checkouts
    ensures Records(desk, CloseOne(before, stripe, t, w), s)
  {
    CloseOneKeeps(before, stripe, t, w);
    StillRecords(desk, before, CloseOne(before, stripe, t, w), s);
  }

  lemma LoopRecordsLast(desk: Desk, stripe: Stripe, rest: seq<SessionId>, weather: SessionId -> Weather, s: SessionId)
    requires Known(desk, rest) && (forall t :: t in desk.sessions ==> desk.sessions[t].id == t)
    requires forall j, k :: 0 <= j < k < |rest| ==> rest[j] != rest[k]
    requires s !in rest && weather(s).answers && IsPaidAndUnrecorded(desk, s)
    ensures Records(desk, CloseOne(CloseAll(desk, stripe, rest, weather), stripe, s, weather(s)), s)
  {
    var before := CloseAll(desk, stripe, rest, weather);
    LoopAdds(desk, stripe, rest, weather);
    LoopLeaves(desk, stripe, rest, weather);
    assert before.db.checkouts[s] == desk.db.checkouts[s];
    LastIsRecorded(desk, rest, before, CloseOne(before, stripe, s, weather(s)), stripe, s, weather);
  }

  ghost predicate Records(desk: Desk, d: Desk, s: SessionId) {
    exists k :: |desk.db.payments| <= k < |d.db.payments| && d.db.payments[k].session == s
  }

  lemma StillRecords(desk: Desk, before: Desk, d: Desk, t: SessionId)
    requires Records(desk, before, t) && before.db.payments <= d.db.payments
    ensures Records(desk, d, t)
  {
    var k :| |desk.db.payments| <= k < |before.db.payments| && before.db.payments[k].session == t;
    assert d.db.payments[k] == before.db.payments[k];
  }

  /** Nothing the loop recorded so far is of this session, or of its intent. */
  lemma NotYetRecorded(desk: Desk, rest: seq<SessionId>, before: Desk, s: SessionId, weather: SessionId -> Weather)
    requires s in desk.sessions && s !in rest && PaymentOfSession(desk.db.payments, s).None? && OwnIntent(desk, s)
    requires desk.db.payments <= before.db.payments && AddsFromList(desk, rest, weather, before)
    ensures PaymentOfSession(before.db.payments, s).None?
    ensures desk.sessions[s].intent.Some? ==> PaymentOfIntent(before.db.payments, desk.sessions[s].intent.value).None?
  {
    forall k | 0 <= k < |before.db.payments|
      ensures before.db.payments[k].session != s
      ensures desk.sessions[s].intent.Some? ==> before.db.payments[k].intent != desk.sessions[s].intent
    {
      if k < |desk.db.payments| {
        assert before.db.payments[k] == desk.db.payments[k];
      } else {
        assert FromList(desk, rest, weather, before.db.payments[k]);
      }
    }
  }

  lemma LastIsRecorded(desk: Desk, rest: seq<SessionId>, before: Desk, d: Desk, stripe: Stripe, s: SessionId, weather: SessionId -> Weather)
    requires IsPaidAndUnrecorded(desk, s) && weather(s).answers && s !in rest && desk.sessions[s].id == s
    requires desk.db.payments <= before.db.payments && s in before.db.checkouts
    requires AddsFromList(desk, rest, weather, before)
    requires s in before.sessions && before.sessions[s] == desk.sessions[s]
    requires Matches(desk.sessions[s], before.db.checkouts[s])
    requires d == CloseOne(before, stripe, s, weather(s))
    ensures Records(desk, d, s)
  {
    NotYetRecorded(desk, rest, before, s, weather);
    ConfirmAdds(before.db, stripe, before.sessions[s]);
    assert d.db.payments[|before.db.payments|].session == s;
  }

  lemma {:induction false} SumCounts(rows: seq<PaymentRow>, more: seq<PaymentRow>, r: RequestId, k: nat)
    requires rows <= more && |rows| <= k < |more| && more[k].request == r
    requires forall j :: |rows| <= j < |more| ==> more[j].amount >= 0
    ensures StandingSum(more, r) >= StandingSum(rows, r) + more[k].amount
    decreases |more|
  {
    var last := |more| - 1;
    if k == last {
      SumGrows(rows, more[..last], r);
    } else {
      SumCounts(rows, more[..last], r, k);
    }
  }

  lemma {:induction false} SumGrows(rows: seq<PaymentRow>, more: seq<PaymentRow>, r: RequestId)
    requires rows <= more && forall j :: |rows| <= j < |more| ==> more[j].amount >= 0
    ensures StandingSum(more, r) >= StandingSum(rows, r)
    decreases |more|
  {
    if |more| > |rows| {
      SumGrows(rows, more[..|more| - 1], r);
    } else {
      assert more == rows;
    }
  }

  /**
    * An earlier session Stripe completed and was paid for, whose webhook is late: it
    * is recorded by the call itself, and what it covers is not asked for again.
    */
  lemma CoveredIsNotChargedAgain(desk: Desk, stripe: Stripe, req: Request, list: seq<SessionId>, weather: SessionId -> Weather, c: Creation, s: SessionId)
    requires Callable(desk, req, list, c) && s in list && weather(s).answers && IsPaidAndUnrecorded(desk, s)
    requires forall t :: t in desk.db.checkouts ==> desk.db.checkouts[t].amount > 0
    ensures var (d, a) := AfterOpen(desk, stripe, req, list, weather, c);
            && Records(desk, d, s)
            && (desk.db.checkouts[s].amount + req.others + StandingSum(desk.db.payments, req.id) >= req.amount ==>
                  (a == AlreadyPaid || a == NotPayable) && d.sessions.Keys == desk.sessions.Keys)
            && (forall n :: a == Page(n) ==>
                  d.db.checkouts[n].amount > 0
                  && d.db.checkouts[n].amount + desk.db.checkouts[s].amount + req.others + StandingSum(desk.db.payments, req.id) <= req.amount)
  {
    var closed := CloseAll(desk, stripe, list, weather);
    LoopRecords(desk, stripe, list, weather, s);
    LessIsOwed(desk, stripe, req, list, weather, s);
    FinishAsksTheRest(closed, req, c);
    var d := AfterOpen(desk, stripe, req, list, weather, c).0;
    StillRecords(desk, closed, d, s);
  }

  lemma LessIsOwed(desk: Desk, stripe: Stripe, req: Request, list: seq<SessionId>, weather: SessionId -> Weather, s: SessionId)
    requires Known(desk, list) && (forall t :: t in desk.sessions ==> desk.sessions[t].id == t)
    requires ListsOpenRows(list, desk.db, req.id)
    requires s in list && weather(s).answers && IsPaidAndUnrecorded(desk, s)
    requires forall t :: t in desk.db.checkouts ==> desk.db.checkouts[t].amount > 0
    ensures Remaining(CloseAll(desk, stripe, list, weather).db, req) <= Remaining(desk.db, req) - desk.db.checkouts[s].amount
  {
    LoopRecords(desk, stripe, list, weather, s);
    LoopAdds(desk, stripe, list, weather);
    var closed := CloseAll(desk, stripe, list, weather);
    var k :| |desk.db.payments| <= k < |closed.db.payments| && closed.db.payments[k].session == s;
    assert FromList(desk, list, weather, closed.db.payments[k]);
    forall j | |desk.db.payments| <= j < |closed.db.payments| ensures closed.db.payments[j].amount >= 0 {
      assert FromList(desk, list, weather, closed.db.payments[j]);
    }
    SumCounts(desk.db.payments, closed.db.payments, req.id, k);
  }

  lemma FinishAsksTheRest(closed: Desk, req: Request, c: Creation)
    ensures var (d, a) := Finish(closed, req, c);
            && d.db.payments == closed.db.payments
            && (Remaining(closed.db, req) <= 0 ==> (a == AlreadyPaid || a == NotPayable) && d == closed)
            && (forall n :: a == Page(n) ==> n in d.db.checkouts && d.db.checkouts[n].amount == Remaining(closed.db, req) > 0)
  {
  }

  /** Already paid is answered exactly where the other payments and the standing card payments reach the amount. */
  lemma AlreadyPaidIff(closed: Desk, req: Request, c: Creation)
    ensures Finish(closed, req, c).1 == AlreadyPaid <==> req.payable && req.others + StandingSum(closed.db.payments, req.id) >= req.amount
  {
  }

  /**
    * The page's row asks for the positive remainder of the request, and Stripe was
    * asked for the same, a page an earlier crash left included.
    */
  lemma PageAsksTheRemainder(closed: Desk, req: Request, c: Creation, s: SessionId)
    requires WellKept(closed) && c.made !in closed.sessions && Finish(closed, req, c).1 == Page(s)
    ensures var d := Finish(closed, req, c).0;
            && s in d.sessions && s in d.db.checkouts && d.db.payments == closed.db.payments
            && d.db.checkouts[s].amount > 0 && d.db.checkouts[s].amount + req.others + StandingSum(d.db.payments, req.id) == req.amount
            && d.db.checkouts[s].currency == req.currency
            && d.sessions[s].amount == d.db.checkouts[s].amount && d.sessions[s].currency == req.currency && Matches(d.sessions[s], d.db.checkouts[s])
  {
    var key := (req.id, Attempts(closed.db, req.id));
    assert key in closed.keys ==> KeyIsKept(closed, key);
  }

  // ---------------------------------------------------------------- paid while the call looked

  function AfterTurn(session: Session, w: Weather): Session {
    if !w.answers || !session.status.StripeOpen? then session
    else if w.paidMeanwhile.Some? then session.(status := StripeComplete, paid := true, intent := w.paidMeanwhile)
    else if w.expireAnswers then session.(status := StripeExpired)
    else session
  }

  lemma {:induction false} SessionAfter(desk: Desk, stripe: Stripe, list: seq<SessionId>, weather: SessionId -> Weather, s: SessionId)
    requires Known(desk, list) && s in desk.sessions
    requires forall j, k :: 0 <= j < k < |list| ==> list[j] != list[k]
    ensures CloseAll(desk, stripe, list, weather).sessions[s] == if s in list then AfterTurn(desk.sessions[s], weather(s)) else desk.sessions[s]
    decreases |list|
  {
    if list != [] {
      var rest, last := list[..|list| - 1], list[|list| - 1];
      assert list == rest + [last];
      SessionAfter(desk, stripe, rest, weather, s);
      CloseOneKeeps(CloseAll(desk, stripe, rest, weather), stripe, last, weather(last));
    }
  }

  /** The sessions as the call left them, beside the tables it found. */
  function Held(desk: Desk, closed: Desk): Desk {
    closed.(db := desk.db)
  }

  /** What was completed before its turn is as it was. */
  lemma CompletedIsAsItWas(desk: Desk, stripe: Stripe, list: seq<SessionId>, weather: SessionId -> Weather, s: SessionId)
    requires Known(desk, list) && s in desk.sessions && s in desk.db.checkouts
    requires forall j, k :: 0 <= j < k < |list| ==> list[j] != list[k]
    requires desk.sessions[s].status.StripeComplete? && desk.sessions[s].paid
    ensures CloseAll(desk, stripe, list, weather).sessions[s] == desk.sessions[s]
    ensures IsPaidAndUnrecorded(Held(desk, CloseAll(desk, stripe, list, weather)), s) ==> IsPaidAndUnrecorded(desk, s)
  {
    var closed := CloseAll(desk, stripe, list, weather);
    SessionAfter(desk, stripe, list, weather, s);
    if IsPaidAndUnrecorded(Held(desk, closed), s) {
      forall t | t in desk.sessions && t != s && desk.sessions[t].status.StripeComplete? && desk.sessions[t].paid
        ensures desk.sessions[s].intent.Some? ==> desk.sessions[t].intent != desk.sessions[s].intent
      {
        SessionAfter(desk, stripe, list, weather, t);
        assert closed.sessions[t] == desk.sessions[t];
      }
    }
  }

  /**
    * An earlier session that Stripe holds as paid when the loop ends, and that had no
    * payment when the call began, was recorded by the call if and only if its retrieve
    * answered and already found it paid.
    */
  lemma RecordedIffPaidAtItsRead(desk: Desk, stripe: Stripe, list: seq<SessionId>, weather: SessionId -> Weather, s: SessionId)
    requires Known(desk, list) && (forall t :: t in desk.sessions ==> desk.sessions[t].id == t)
    requires forall j, k :: 0 <= j < k < |list| ==> list[j] != list[k]
    requires s in list && IsPaidAndUnrecorded(Held(desk, CloseAll(desk, stripe, list, weather)), s)
    ensures Records(desk, CloseAll(desk, stripe, list, weather), s) <==> PaidAtItsRead(desk, weather, s)
    ensures PaidAtItsRead(desk, weather, s) <==> weather(s).answers && !(desk.sessions[s].status.StripeOpen? && weather(s).paidMeanwhile.Some?)
  {
    var closed := CloseAll(desk, stripe, list, weather);
    SessionAfter(desk, stripe, list, weather, s);
    LoopAdds(desk, stripe, list, weather);
    if Records(desk, closed, s) {
      var k :| |desk.db.payments| <= k < |closed.db.payments| && closed.db.payments[k].session == s;
      assert FromList(desk, list, weather, closed.db.payments[k]);
    }
    if PaidAtItsRead(desk, weather, s) {
      CompletedIsAsItWas(desk, stripe, list, weather, s);
      LoopRecords(desk, stripe, list, weather, s);
    }
  }

  /** What the listed sessions ask that Stripe holds as paid at the loop's end, without a payment at the call's start. */
  ghost function HeldSum(held: Desk, list: seq<SessionId>): int
    requires Known(held, list)
  {
    if list == [] then 0
    else
      var s := list[|list| - 1];
      HeldSum(held, list[..|list| - 1]) + if IsPaidAndUnrecorded(held, s) then held.db.checkouts[s].amount else 0
  }

  /** The part of it that the loop records. */
  ghost function TakenSum(held: Desk, desk: Desk, list: seq<SessionId>, weather: SessionId -> Weather): int
    requires Known(held, list) && Known(desk, list)
  {
    if list == [] then 0
    else
      var s := list[|list| - 1];
      TakenSum(held, desk, list[..|list| - 1], weather)
      + if IsPaidAndUnrecorded(held, s) && PaidAtItsRead(desk, weather, s) then held.db.checkouts[s].amount else 0
  }

  /** Some listed session is paid at the loop's end that the call did not see paid. */
  ghost predicate Unseen(held: Desk, desk: Desk, list: seq<SessionId>, weather: SessionId -> Weather) {
    exists s :: s in list && s in desk.sessions && IsPaidAndUnrecorded(held, s) && !PaidAtItsRead(desk, weather, s)
  }

  lemma {:induction false} TakenIsHeldIff(held: Desk, desk: Desk, list: seq<SessionId>, weather: SessionId -> Weather)
    requires Known(held, list) && Known(desk, list)
    requires forall t :: t in held.db.checkouts ==> held.db.checkouts[t].amount > 0
    ensures TakenSum(held, desk, list, weather) <= HeldSum(held, list)
    ensures TakenSum(held, desk, list, weather) == HeldSum(held, list) <==> !Unseen(held, desk, list, weather)
    decreases |list|
  {
    if list != [] {
      var rest, s := list[..|list| - 1], list[|list| - 1];
      TakenIsHeldIff(held, desk, rest, weather);
      assert list == rest + [s];
      if Unseen(held, desk, rest, weather) {
        var t :| t in rest && t in desk.sessions && IsPaidAndUnrecorded(held, t) && !PaidAtItsRead(desk, weather, t);
        assert t in list;
      }
    }
  }

  /** Stripe's intents are one session's each: so for every listed session that it holds as paid and has no payment yet. */
  ghost predicate IntentsAreOwn(held: Desk, list: seq<SessionId>) {
    forall s | s in list && s in held.sessions && held.sessions[s].status.StripeComplete? && held.sessions[s].paid ::
      PaymentOfSession(held.db.payments, s).None? ==> OwnIntent(held, s)
  }

  lemma SumOfOneMore(rows: seq<PaymentRow>, row: PaymentRow, r: RequestId)
    ensures StandingSum(rows + [row], r) == StandingSum(rows, r) + if row.request == r then row.amount else 0
  {
    assert (rows + [row])[..|rows|] == rows;
  }

  /** What the loop adds to the request's payments. */
  lemma {:induction false} LoopSum(desk: Desk, stripe: Stripe, list: seq<SessionId>, weather: SessionId -> Weather, held: Desk, r: RequestId)
    requires Known(desk, list) && Known(held, list) && (forall t :: t in desk.sessions ==> desk.sessions[t].id == t)
    requires forall j, k :: 0 <= j < k < |list| ==> list[j] != list[k]
    requires forall s :: s in list ==> desk.db.checkouts[s].request == r && TakenRight(held, desk, weather, s)
    ensures StandingSum(CloseAll(desk, stripe, list, weather).db.payments, r)
         == StandingSum(desk.db.payments, r) + TakenSum(held, desk, list, weather)
    decreases |list|
  {
    if list != [] {
      var rest, s := list[..|list| - 1], list[|list| - 1];
      assert list == rest + [s];
      LoopSum(desk, stripe, rest, weather, held, r);
      LoopAdds(desk, stripe, rest, weather);
      LoopLeaves(desk, stripe, rest, weather);
      TurnSum(desk, rest, CloseAll(desk, stripe, rest, weather), stripe, s, weather, held, r);
    }
  }

  /** A session paid at its read is recorded exactly if it counts as held, and then its intent is its own. */
  ghost predicate TakenRight(held: Desk, desk: Desk, weather: SessionId -> Weather, s: SessionId) {
    && s in desk.sessions && s in desk.db.checkouts && s in held.db.checkouts && held.db.checkouts[s] == desk.db.checkouts[s]
    && (PaidAtItsRead(desk, weather, s) ==>
          (IsPaidAndUnrecorded(held, s) <==> IsPaidAndUnrecorded(desk, s))
          && (PaymentOfSession(desk.db.payments, s).None? ==> OwnIntent(desk, s)))
  }

  lemma TurnSum(desk: Desk, rest: seq<SessionId>, before: Desk, stripe: Stripe, s: SessionId, weather: SessionId -> Weather, held: Desk, r: RequestId)
    requires TakenRight(held, desk, weather, s) && s !in rest && desk.sessions[s].id == s && desk.db.checkouts[s].request == r
    requires desk.db.payments <= before.db.payments && AddsFromList(desk, rest, weather, before)
    requires s in before.db.checkouts && before.db.checkouts[s] == desk.db.checkouts[s]
    requires s in before.sessions && before.sessions[s] == desk.sessions[s]
    ensures StandingSum(CloseOne(before, stripe, s, weather(s)).db.payments, r)
         == StandingSum(before.db.payments, r)
            + if IsPaidAndUnrecorded(held, s) && PaidAtItsRead(desk, weather, s) then held.db.checkouts[s].amount else 0
  {
    if PaidAtItsRead(desk, weather, s) {
      ConfirmAdds(before.db, stripe, before.sessions[s]);
      SumOfOneMore(before.db.payments, RowFor(desk.sessions[s], desk.db.checkouts[s]), r);
      if PaymentOfSession(desk.db.payments, s).None? {
        NotYetRecorded(desk, rest, before, s, weather);
      } else {
        var k := PaymentOfSession(desk.db.payments, s).value;
        assert before.db.payments[k] == desk.db.payments[k];
      }
    }
  }

  /**
    * The page asks for what the request still owed, less what the loop recorded. With
    * what Stripe holds beside it as paid, it stays within what was owed if and only if
    * no listed session was paid without the call seeing it.
    */
  lemma PageStaysWithinIff(desk: Desk, stripe: Stripe, req: Request, list: seq<SessionId>, weather: SessionId -> Weather, c: Creation, n: SessionId)
    requires Callable(desk, req, list, c) && AfterOpen(desk, stripe, req, list, weather, c).1 == Page(n)
    requires forall t :: t in desk.db.checkouts ==> desk.db.checkouts[t].amount > 0
    requires IntentsAreOwn(Held(desk, CloseAll(desk, stripe, list, weather)), list)
    ensures var d := AfterOpen(desk, stripe, req, list, weather, c).0;
            var held := Held(desk, CloseAll(desk, stripe, list, weather));
            && n in d.db.checkouts
            && d.db.checkouts[n].amount + req.others + StandingSum(desk.db.payments, req.id) + TakenSum(held, desk, list, weather) == req.amount
            && (d.db.checkouts[n].amount + HeldSum(held, list) + req.others + StandingSum(desk.db.payments, req.id) <= req.amount
                <==> !Unseen(held, desk, list, weather))
  {
    var closed := CloseAll(desk, stripe, list, weather);
    var held := Held(desk, closed);
    forall s | s in list ensures TakenRight(held, desk, weather, s) {
      ListedIsRight(desk, stripe, list, weather, s);
    }
    LoopSum(desk, stripe, list, weather, held, req.id);
    TakenIsHeldIff(held, desk, list, weather);
    FinishAsksTheRest(closed, req, c);
  }

  lemma ListedIsRight(desk: Desk, stripe: Stripe, list: seq<SessionId>, weather: SessionId -> Weather, s: SessionId)
    requires Known(desk, list) && (forall t :: t in desk.sessions ==> desk.sessions[t].id == t)
    requires forall j, k :: 0 <= j < k < |list| ==> list[j] != list[k]
    requires s in list && IntentsAreOwn(Held(desk, CloseAll(desk, stripe, list, weather)), list)
    ensures TakenRight(Held(desk, CloseAll(desk, stripe, list, weather)), desk, weather, s)
  {
    if PaidAtItsRead(desk, weather, s) {
      CompletedIsAsItWas(desk, stripe, list, weather, s);
      OwnIntentBefore(desk, stripe, list, weather, s);
    }
  }

  lemma OwnIntentBefore(desk: Desk, stripe: Stripe, list: seq<SessionId>, weather: SessionId -> Weather, s: SessionId)
    requires Known(desk, list) && s in list
    requires forall j, k :: 0 <= j < k < |list| ==> list[j] != list[k]
    requires desk.sessions[s].status.StripeComplete? && desk.sessions[s].paid
    requires IntentsAreOwn(Held(desk, CloseAll(desk, stripe, list, weather)), list)
    ensures PaymentOfSession(desk.db.payments, s).None? ==> OwnIntent(desk, s)
  {
    var closed := CloseAll(desk, stripe, list, weather);
    SessionAfter(desk, stripe, list, weather, s);
    forall t | t in desk.sessions && desk.sessions[t].status.StripeComplete? ensures closed.sessions[t] == desk.sessions[t] {
      SessionAfter(desk, stripe, list, weather, t);
    }
    if PaymentOfSession(desk.db.payments, s).None? {
      assert OwnIntent(Held(desk, closed), s);
    }
  }

  /** A page of 500 for request 2, still open. */
  function OnePageOut(): Desk {
    Desk(map[1 := Session(1, StripeOpen, false, 500, 3, None, Some(2))], map[(2, 0) := KeyUse(1, 500, 3, 60)],
         Db(map[], map[1 := CheckoutRow(2, 500, 3, Open, 0, None)], [], []))
  }

  function PaidBetween(s: SessionId): Weather {
    Weather(true, Some(7), false)
  }

  lemma OneRowOut(r: RequestId)
    ensures Attempts(OnePageOut().db, r) == if r == 2 then 1 else 0
  {
    assert RowsOf(OnePageOut().db, r) == if r == 2 then {1} else {};
  }

  /** The same once the loop is over: paid, its row expired, nothing recorded. */
  function PaidOut(): Desk {
    OnePageOut().(
      sessions := map[1 := Session(1, StripeComplete, true, 500, 3, Some(7), Some(2))],
      db := Db(map[], map[1 := CheckoutRow(2, 500, 3, Expired, 0, None)], [], []))
  }

  lemma PaidOutIsLeft(stripe: Stripe)
    ensures Known(OnePageOut(), [1]) && CloseAll(OnePageOut(), stripe, [1], PaidBetween) == PaidOut()
  {
    var closed := OneClosed(OnePageOut(), stripe, 1, PaidBetween);
  }

  lemma OnePageOutIsCallable(req: Request, c: Creation)
    requires req.id == 2 && c.made == 5
    ensures Callable(OnePageOut(), req, [1], c)
  {
    OneRowOut(2);
    assert KeyIsKept(OnePageOut(), (2, 0));
  }

  lemma PaidOutIsUnseen()
    ensures IntentsAreOwn(Held(OnePageOut(), PaidOut()), [1]) && Unseen(Held(OnePageOut(), PaidOut()), OnePageOut(), [1], PaidBetween)
  {
    assert IsPaidAndUnrecorded(Held(OnePageOut(), PaidOut()), 1);
  }

  lemma AskedInFullAgain(req: Request, c: Creation)
    requires req == Request(2, 500, 3, 0, true) && c == Creation(5, 120, false, false)
    ensures var (d, a) := Finish(PaidOut(), req, c);
            && a == Page(5) && d.sessions[5].amount == 500 && d.db.payments == []
            && IsPaidAndUnrecorded(d, 1) && d.db.checkouts[1].status == Expired
  {
    OneRowOut(2);
    assert RowsOf(PaidOut().db, 2) == RowsOf(OnePageOut().db, 2);
  }

  /**
    * Paid between retrieve and expire: nothing is recorded, the row is marked expired so
    * that no later call looks at the session again, and the whole amount is asked for twice.
    */
  lemma PaidBetweenIsChargedAgain(stripe: Stripe) returns (desk: Desk, req: Request, c: Creation)
    ensures Callable(desk, req, [1], c) && desk.sessions[1].amount == Remaining(desk.db, req) == 500
    ensures var (d, a) := AfterOpen(desk, stripe, req, [1], PaidBetween, c);
            && a == Page(5) && d.sessions[5].amount == 500 && d.db.payments == []
            && IsPaidAndUnrecorded(d, 1) && d.db.checkouts[1].status == Expired
    ensures var held := Held(desk, CloseAll(desk, stripe, [1], PaidBetween)); IntentsAreOwn(held, [1]) && Unseen(held, desk, [1], PaidBetween)
  {
    desk, req, c := OnePageOut(), Request(2, 500, 3, 0, true), Creation(5, 120, false, false);
    OnePageOutIsCallable(req, c);
    PaidOutIsLeft(stripe);
    PaidOutIsUnseen();
    AskedInFullAgain(req, c);
  }

  lemma OneClosed(desk: Desk, stripe: Stripe, s: SessionId, weather: SessionId -> Weather) returns (closed: Desk)
    requires s in desk.sessions && s in desk.db.checkouts
    ensures Known(desk, [s]) && closed == CloseAll(desk, stripe, [s], weather) == CloseOne(desk, stripe, s, weather(s))
  {
    assert [s][..0] == [];
    closed := CloseAll(desk, stripe, [s], weather);
  }

  // ---------------------------------------------------------------- what each row reads after the loop

  /** As Stripe answered: complete of a complete session, once paid only with its payment; expired of any other. */
  ghost predicate RowReads(desk: Desk, closed: Desk, s: SessionId, w: Weather)
    requires s in desk.sessions && s in desk.db.checkouts && s in closed.db.checkouts
  {
    var was, now, found := desk.db.checkouts[s].status, closed.db.checkouts[s].status, desk.sessions[s];
    && (!w.answers ==> now == was)
    && (w.answers && !found.status.StripeComplete? ==> now == Expired)
    && (w.answers && found.status.StripeComplete? && !found.paid ==> now == Complete)
    && (w.answers && found.status.StripeComplete? && found.paid ==>
          now == if PaymentOfSession(closed.db.payments, s).Some? then Complete else was)
  }

  lemma TurnReads(before: Desk, stripe: Stripe, s: SessionId, w: Weather)
    requires s in before.sessions && s in before.db.checkouts && before.sessions[s].id == s
    ensures s in CloseOne(before, stripe, s, w).db.checkouts && RowReads(before, CloseOne(before, stripe, s, w), s, w)
  {
    ConfirmReads(before.db, stripe, before.sessions[s]);
  }

  lemma ConfirmReads(db: Db, stripe: Stripe, session: Session)
    requires session.id in db.checkouts
    ensures var d := Confirm(db, stripe, session, None).0;
            && session.id in d.checkouts
            && d.checkouts[session.id].status == if PaymentOfSession(d.payments, session.id).Some? then Complete else db.checkouts[session.id].status
  {
    var (db0, o) := TxConfirm(db, None, session, db.checkouts[session.id]);
    if o == Recorded {
      SyncKeepsRows(db0, stripe, |db.payments|);
      assert db0.payments[|db.payments|].session == session.id;
    }
  }

  lemma OtherTurnLeaves(before: Desk, stripe: Stripe, t: SessionId, w: Weather, s: SessionId)
    requires t in before.sessions && t in before.db.checkouts && before.sessions[t].id == t && s != t && s in before.db.checkouts
    ensures var d := CloseOne(before, stripe, t, w);
            && s in d.db.checkouts && d.db.checkouts[s] == before.db.checkouts[s]
            && (PaymentOfSession(d.db.payments, s).Some? <==> PaymentOfSession(before.db.payments, s).Some?)
  {
    var d := CloseOne(before, stripe, t, w);
    ConfirmKeepsRows(before.db, stripe, before.sessions[t], None);
    ConfirmAdds(before.db, stripe, before.sessions[t]);
    if PaymentOfSession(before.db.payments, s).Some? {
      var k := PaymentOfSession(before.db.payments, s).value;
      assert d.db.payments[k] == before.db.payments[k];
    }
    if PaymentOfSession(d.db.payments, s).Some? {
      var k := PaymentOfSession(d.db.payments, s).value;
      assert k < |before.db.payments| && d.db.payments[k] == before.db.payments[k];
    }
  }

  /** After the loop every earlier session's row reads what Stripe answered of it. */
  lemma {:induction false} LoopReads(desk: Desk, stripe: Stripe, list: seq<SessionId>, weather: SessionId -> Weather, s: SessionId)
    requires Known(desk, list) && (forall t :: t in desk.sessions ==> desk.sessions[t].id == t)
    requires forall j, k :: 0 <= j < k < |list| ==> list[j] != list[k]
    requires s in list
    ensures s in CloseAll(desk, stripe, list, weather).db.checkouts && RowReads(desk, CloseAll(desk, stripe, list, weather), s, weather(s))
    decreases |list|
  {
    var rest, last := list[..|list| - 1], list[|list| - 1];
    var before := CloseAll(desk, stripe, rest, weather);
    assert list == rest + [last];
    LoopLeaves(desk, stripe, rest, weather);
    if s == last {
      assert s !in rest;
      TurnReads(before, stripe, s, weather(s));
    } else {
      LoopReads(desk, stripe, rest, weather, s);
      OtherTurnLeaves(before, stripe, last, weather(last), s);
    }
  }

  // ---------------------------------------------------------------- the idempotency key

  /**
    * A page whose call crashed before its row is answered to a later call exactly if that
    * asks for the same, down to the second the page is to expire; else Stripe refuses.
    */
  lemma PendingPageIff(closed: Desk, req: Request, c: Creation, s: SessionId)
    requires WellKept(closed) && IsPending(closed, req.id, s)
    requires req.payable && Remaining(closed.db, req) > 0 && !c.refuses && !c.thenCrashes
    ensures var use := closed.keys[(req.id, Attempts(closed.db, req.id))];
            var same := use.amount == Remaining(closed.db, req) && use.currency == req.currency && use.expiresAt == c.expiresAt;
            && (Finish(closed, req, c).1 == Page(s) <==> same)
            && (Finish(closed, req, c) == (closed, Unavailable) <==> !same)
  {
    assert KeyIsKept(closed, (req.id, Attempts(closed.db, req.id)));
  }

  /** And until then the request has no new page: no call answers one, and the key stays the next attempt's. */
  lemma NoPageWhilePending(desk: Desk, stripe: Stripe, req: Request, list: seq<SessionId>, weather: SessionId -> Weather, c: Creation, s: SessionId)
    requires Callable(desk, req, list, c) && IsPending(desk, req.id, s)
    requires desk.keys[(req.id, Attempts(desk.db, req.id))].expiresAt != c.expiresAt
    ensures var (d, a) := AfterOpen(desk, stripe, req, list, weather, c);
            !a.Page? && IsPending(d, req.id, s) && d.keys == desk.keys && Attempts(d.db, req.id) == Attempts(desk.db, req.id)
  {
    var closed := CloseAll(desk, stripe, list, weather);
    LoopLeaves(desk, stripe, list, weather);
    LoopCountsTheSame(desk, list, weather, closed);
    RefusedWhilePending(closed, req, c);
  }

  lemma RefusedWhilePending(closed: Desk, req: Request, c: Creation)
    requires (req.id, Attempts(closed.db, req.id)) in closed.keys
    requires closed.keys[(req.id, Attempts(closed.db, req.id))].expiresAt != c.expiresAt
    ensures var (d, a) := Finish(closed, req, c); d == closed && !a.Page?
  {
  }

  /** Two calls of one request, each past its loop and its reads: both ask Stripe, then both write their rows. */
  ghost function Overlapped(desk: Desk, a: Asking, b: Asking, c: Creation, e: Creation): (Desk, Answer, Answer) {
    var (d1, s) := Created(desk, a, c);
    var (d2, t) := Created(d1, b, e);
    var (d3, x) := WithRow(d2, a, s);
    var (d4, y) := WithRow(d3, b, t);
    (d4, x, y)
  }

  /** They leave two pages payable if and only if they counted different numbers of attempts. */
  lemma OverlapIff(desk: Desk, a: Asking, b: Asking, c: Creation, e: Creation)
    requires WellKept(desk) && a.request == b.request && !c.refuses && !e.refuses
    requires c.made != e.made && c.made !in desk.sessions && e.made !in desk.sessions
    requires (a.request, a.count) !in desk.keys && (b.request, b.count) !in desk.keys
    ensures var (d, x, y) := Overlapped(desk, a, b, c, e);
            && x == Page(c.made) && IsOpenFor(d, a.request, c.made)
            && (y == Page(e.made) && IsOpenFor(d, a.request, e.made) <==> a.count != b.count)
            && (a.count == b.count ==> !y.Page? && forall s :: IsOpenFor(d, a.request, s) ==> s == c.made || IsOpenFor(desk, a.request, s))
  {
  }

  // ---------------------------------------------------------------- every run of calls that do not overlap

  ghost predicate Kept(desk: Desk) {
    WellKept(desk) && forall r :: Tracked(desk, r) && AtMostOnePage(desk, r)
  }

  /** Every earlier session answers, and is expired or was completed meanwhile. */
  ghost predicate Fair(list: seq<SessionId>, weather: SessionId -> Weather) {
    forall s :: s in list ==> !LeavesOpen(weather(s))
  }

  ghost predicate OpensFairly(desk: Desk, d: Desk, stripe: Stripe, req: Request, list: seq<SessionId>, weather: SessionId -> Weather, c: Creation) {
    Callable(desk, req, list, c) && Fair(list, weather) && d == AfterOpen(desk, stripe, req, list, weather, c).0
  }

  /** Stripe's page of a session ends: it is paid, or its time is over. */
  ghost predicate PageEnds(desk: Desk, d: Desk, s: SessionId) {
    && s in desk.sessions && d.keys == desk.keys && d.db == desk.db
    && d.sessions.Keys == desk.sessions.Keys
    && (forall t :: t in desk.sessions && t != s ==> d.sessions[t] == desk.sessions[t])
    && d.sessions[s].id == s && d.sessions[s].requestTag == desk.sessions[s].requestTag && !d.sessions[s].status.StripeOpen?
    && d.sessions[s].amount == desk.sessions[s].amount && d.sessions[s].currency == desk.sessions[s].currency
  }

  /** The webhooks and sweeps: a row leaves `open` only once its page has ended. */
  ghost predicate Elsewhere(desk: Desk, d: Desk) {
    && d.sessions == desk.sessions && d.keys == desk.keys && d.db.checkouts.Keys == desk.db.checkouts.Keys
    && (forall s :: s in desk.db.checkouts ==> d.db.checkouts[s].request == desk.db.checkouts[s].request)
    && (forall s | s in desk.db.checkouts && desk.db.checkouts[s].status == Open && d.db.checkouts[s].status != Open ::
          s in desk.sessions ==> !desk.sessions[s].status.StripeOpen?)
  }

  lemma ConfirmIsElsewhere(desk: Desk, stripe: Stripe, s: Session, meta: Option<Meta>)
    requires WellKept(desk) && s.id in desk.sessions && desk.sessions[s.id] == s && !s.status.StripeOpen?
    ensures Elsewhere(desk, desk.(db := Confirm(desk.db, stripe, s, meta).0))
  {
    ConfirmKeepsRows(desk.db, stripe, s, meta);
  }

  lemma ChargeIsElsewhere(desk: Desk, stripe: Stripe, e: Event)
    requires e.ChargeRefunded?
    ensures Elsewhere(desk, desk.(db := HandleEvent(desk.db, stripe, e).0))
  {
    if e.charged.Some? && PaymentOfIntent(desk.db.payments, e.charged.value).Some? {
      SyncEachKeepsRows(desk.db, PaymentOfIntent(desk.db.payments, e.charged.value).value, stripe.RefundsOf(e.charged.value));
    }
  }

  /** A verified event about a session says what is so at Stripe. */
  ghost predicate SaysWhatIsSo(desk: Desk, e: Event) {
    && (e.SessionSettled? && e.session.paid ==> e.session.id in desk.sessions && desk.sessions[e.session.id] == e.session)
    && ((e.SessionFailed? || e.SessionExpired?) && e.sessionId in desk.sessions ==> !desk.sessions[e.sessionId].status.StripeOpen?)
  }

  lemma WebhookIsElsewhere(desk: Desk, stripe: Stripe, e: Event)
    requires WellKept(desk) && stripe.sessions == desk.sessions
    requires forall s :: s in desk.sessions && desk.sessions[s].paid ==> !desk.sessions[s].status.StripeOpen?
    requires SaysWhatIsSo(desk, e)
    ensures Elsewhere(desk, desk.(db := HandleEvent(desk.db, stripe, e).0))
  {
    match e {
      case SessionSettled(_, s) =>
        if s.paid {
          ConfirmIsElsewhere(desk, stripe, s, Some(MetaOf(e)));
        }
      case IntentSucceeded(_, pi, _) =>
        var s := stripe.SessionOfIntent(pi);
        if s.Some? && s.value.paid {
          ConfirmIsElsewhere(desk, stripe, s.value, Some(MetaOf(e)));
        }
      case ChargeRefunded(_, _) =>
        ChargeIsElsewhere(desk, stripe, e);
      case RefundChanged(_, _) =>
      case IntentFailed(_, _, _) =>
      case SessionFailed(_, _) =>
      case SessionExpired(_, _) =>
      case OtherEvent(_) =>
    }
  }

  lemma SameAttempts(a: Db, b: Db)
    requires a.checkouts.Keys == b.checkouts.Keys
    requires forall s :: s in a.checkouts ==> b.checkouts[s].request == a.checkouts[s].request
    ensures forall r :: Attempts(b, r) == Attempts(a, r)
  {
    forall r ensures Attempts(b, r) == Attempts(a, r) {
      assert RowsOf(b, r) == RowsOf(a, r);
    }
  }

  /** After a fair loop only a session the last crash left may still be open. */
  lemma LoopKeeps(desk: Desk, stripe: Stripe, r: RequestId, list: seq<SessionId>, weather: SessionId -> Weather)
    requires Kept(desk) && Known(desk, list) && ListsOpenRows(list, desk.db, r) && Fair(list, weather)
    ensures var d := CloseAll(desk, stripe, list, weather);
            Kept(d) && d.sessions.Keys == desk.sessions.Keys && (forall s :: IsOpenFor(d, r, s) ==> IsPending(d, r, s))
  {
    var d := CloseAll(desk, stripe, list, weather);
    LoopLeaves(desk, stripe, list, weather);
    LoopCountsTheSame(desk, list, weather, d);
    LoopWellKept(desk, list, weather, d);
    forall q, s ensures IsPending(d, q, s) <==> IsPending(desk, q, s) {
      PendingStays(desk, d, q);
    }
    forall q, s | IsOpenFor(d, q, s) ensures IsOpenFor(desk, q, s) && s !in list {}
    forall q, s | IsOpenFor(d, q, s) ensures HasOpenRow(d, q, s) || IsPending(d, q, s) {
      assert IsOpenFor(desk, q, s) && Tracked(desk, q);
    }
    forall s | IsOpenFor(d, r, s) ensures IsPending(d, r, s) {
      assert IsOpenFor(desk, r, s) && Tracked(desk, r);
      assert !HasOpenRow(desk, r, s);
    }
    forall q ensures Tracked(d, q) && AtMostOnePage(d, q) {
      assert AtMostOnePage(desk, q);
    }
  }

  lemma FinishKeeps(closed: Desk, req: Request, c: Creation)
    requires Kept(closed) && c.made !in closed.sessions
    requires forall s :: IsOpenFor(closed, req.id, s) ==> IsPending(closed, req.id, s)
    ensures Kept(Finish(closed, req, c).0)
  {
    var (d, a) := Finish(closed, req, c);
    if a.Page? {
      PageKeeps(closed, req, c, a.session);
    } else if d != closed {
      CrashKeeps(closed, req, c);
    }
  }

  lemma PageKeeps(closed: Desk, req: Request, c: Creation, s: SessionId)
    requires Kept(closed) && c.made !in closed.sessions && Finish(closed, req, c).1 == Page(s)
    requires forall s :: IsOpenFor(closed, req.id, s) ==> IsPending(closed, req.id, s)
    ensures Kept(Finish(closed, req, c).0)
  {
    var d := Finish(closed, req, c).0;
    FinishShape(closed, req, c, s);
    OneMoreAttempt(closed.db, d.db, req.id, s);
    forall t | IsOpenFor(d, req.id, t) ensures t == s {
      if t != s {
        assert IsOpenFor(closed, req.id, t);
      }
    }
    PageIsWellKept(closed, req, c, s);
    forall q, t | q != req.id && IsOpenFor(d, q, t) ensures IsOpenFor(closed, q, t) && (HasOpenRow(d, q, t) || IsPending(d, q, t)) {
      assert IsOpenFor(closed, q, t) && Tracked(closed, q);
    }
    forall q ensures Tracked(d, q) && AtMostOnePage(d, q) {
      assert AtMostOnePage(closed, q);
    }
  }

  lemma PageIsWellKept(closed: Desk, req: Request, c: Creation, s: SessionId)
    requires WellKept(closed) && c.made !in closed.sessions && Finish(closed, req, c).1 == Page(s)
    ensures WellKept(Finish(closed, req, c).0)
  {
    var d := Finish(closed, req, c).0;
    FinishShape(closed, req, c, s);
    OneMoreAttempt(closed.db, d.db, req.id, s);
    forall key | key in d.keys ensures KeyIsKept(d, key) {
      assert key in closed.keys ==> KeyIsKept(closed, key);
    }
  }

  lemma CrashKeeps(closed: Desk, req: Request, c: Creation)
    requires Kept(closed) && c.made !in closed.sessions
    requires forall s :: IsOpenFor(closed, req.id, s) ==> IsPending(closed, req.id, s)
    requires Finish(closed, req, c).1 == Crashed && Finish(closed, req, c).0 != closed
    ensures Kept(Finish(closed, req, c).0)
  {
    var d := Finish(closed, req, c).0;
    assert d.db == closed.db;
    forall q, t | IsOpenFor(d, q, t) && t != c.made ensures IsOpenFor(closed, q, t) && (HasOpenRow(d, q, t) || IsPending(d, q, t)) {
      assert IsOpenFor(closed, q, t) && Tracked(closed, q);
    }
    forall q ensures Tracked(d, q) && AtMostOnePage(d, q) {
      assert AtMostOnePage(closed, q);
    }
  }

  lemma PageEndKeeps(desk: Desk, d: Desk, s: SessionId)
    requires Kept(desk) && PageEnds(desk, d, s)
    ensures Kept(d)
  {
    forall q, t | IsOpenFor(d, q, t) ensures IsOpenFor(desk, q, t) && (HasOpenRow(d, q, t) || IsPending(d, q, t)) {
      assert IsOpenFor(desk, q, t) && Tracked(desk, q);
    }
    forall q ensures Tracked(d, q) && AtMostOnePage(d, q) {
      assert AtMostOnePage(desk, q);
    }
  }

  lemma ElsewhereKeeps(desk: Desk, d: Desk)
    requires Kept(desk) && Elsewhere(desk, d)
    ensures Kept(d)
  {
    SameAttempts(desk.db, d.db);
    forall q, t | IsOpenFor(d, q, t) ensures IsOpenFor(desk, q, t) && (HasOpenRow(d, q, t) || IsPending(d, q, t)) {
      assert IsOpenFor(desk, q, t) && Tracked(desk, q);
    }
    forall q ensures Tracked(d, q) && AtMostOnePage(d, q) {
      assert AtMostOnePage(desk, q);
    }
  }

  /** One call that opens a page, one page that ends, or anything the webhooks and sweeps do. */
  ghost predicate DeskStep(desk: Desk, d: Desk) {
    || (exists stripe, req, list, weather, c :: OpensFairly(desk, d, stripe, req, list, weather, c))
    || (exists s :: PageEnds(desk, d, s))
    || Elsewhere(desk, d)
  }

  ghost predicate Follows(run: seq<Desk>, k: int)
    requires 1 <= k < |run|
  {
    DeskStep(run[k - 1], run[k])
  }

  ghost predicate IsDeskRun(run: seq<Desk>) {
    && |run| > 0 && |run[0].sessions| == 0 && |run[0].keys| == 0 && |run[0].db.checkouts| == 0
    && forall k :: 1 <= k < |run| ==> Follows(run, k)
  }

  /**
    * Over every run whose calls do not overlap and whose earlier sessions all answer,
    * no request ever has two pages its parent could pay, crashes between Stripe and
    * the checkout row included.
    */
  lemma {:induction false} RunsKeepOnePage(run: seq<Desk>, k: nat)
    requires IsDeskRun(run) && k < |run|
    ensures Kept(run[k])
  {
    if k == 0 {
      EmptyDeskIsKept(run[0]);
    } else {
      RunsKeepOnePage(run, k - 1);
      assert Follows(run, k);
      DeskStepKeeps(run[k - 1], run[k]);
    }
  }

  lemma EmptyDeskIsKept(desk: Desk)
    requires |desk.sessions| == 0 && |desk.keys| == 0 && |desk.db.checkouts| == 0
    ensures Kept(desk)
  {
  }

  lemma DeskStepKeeps(before: Desk, after: Desk)
    requires Kept(before) && DeskStep(before, after)
    ensures Kept(after)
  {
    if stripe, req, list, weather, c :| OpensFairly(before, after, stripe, req, list, weather, c) {
      LoopKeeps(before, stripe, req.id, list, weather);
      FinishKeeps(CloseAll(before, stripe, list, weather), req, c);
    } else if s :| PageEnds(before, after, s) {
      PageEndKeeps(before, after, s);
    } else {
      ElsewhereKeeps(before, after);
    }
  }
}
