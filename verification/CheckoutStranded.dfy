/**
  * A refund that was told of before its payment: exactly when it has its row once
  * nothing is running any more, over every run, whatever overlapped, crashed or
  * could not reach Stripe.
  */
module CheckoutStranded {
  import opened Options
  import opened CheckoutDb
  import opened CheckoutRuns
  import opened CheckoutSafety
  import opened CheckoutOrder

  // ---------------------------------------------------------------- one task along a run

  /** At step `m` of the run task `k` makes one read or one transaction. */
  ghost predicate Moves(run: seq<World>, m: nat, k: nat) {
    m + 1 < |run| && Proceeds(run[m], run[m + 1], k)
  }

  /** From state `a` to state `b` task `k` is there, and changes only by its own steps. */
  ghost predicate GoesOn(run: seq<World>, a: nat, b: nat, k: nat) {
    && a <= b < |run| && k < |run[a].tasks|
    && forall n :: a <= n < b ==> StaysOrMoves(run, n, k)
  }

  ghost predicate StaysOrMoves(run: seq<World>, n: nat, k: nat) {
    && n + 1 < |run| && k < |run[n].tasks| && k < |run[n + 1].tasks|
    && (run[n + 1].tasks[k] == run[n].tasks[k] || Moves(run, n, k))
  }

  ghost predicate IntentIs(w: World, p: nat, i: IntentId) {
    p < |w.db.payments| && w.db.payments[p].intent == Some(i)
  }

  /** A sync of payment `p` begins: a sweep's, a refunded charge's, or the payment's own, which found something waiting. */
  ghost predicate Begins(run: seq<World>, b: nat, k: nat, p: nat, i: IntentId) {
    b + 1 < |run| && (SweepBegins(run, b, k, p) || ChargeBegins(run, b, k, p, i) || OwnSyncBegins(run, b, k, p, i))
  }

  ghost predicate SweepBegins(run: seq<World>, b: nat, k: nat, p: nat)
    requires b + 1 < |run|
  {
    k == |run[b].tasks| && Starts(run[b], run[b + 1], Listing(p, None))
  }

  ghost predicate ChargeBegins(run: seq<World>, b: nat, k: nat, p: nat, i: IntentId)
    requires b + 1 < |run|
  {
    && Moves(run, b, k) && run[b].tasks[k].FindingCharged? && run[b].tasks[k].event.charged == Some(i)
    && PaymentOfIntent(run[b].db.payments, i) == Some(p) && run[b].stripe.available
  }

  /** A deferred event's row of its intent was there when the payment's own task counted. */
  ghost predicate OwnSyncBegins(run: seq<World>, b: nat, k: nat, p: nat, i: IntentId)
    requires b + 1 < |run|
  {
    Moves(run, b, k) && run[b].tasks[k] == CountingDeferred(p) && IntentIs(run[b], p, i) && Waiting(run[b].db.events, i)
  }

  /** A refund that may be recorded on an intent's payment: on its way, and of that intent or of none named. */
  ghost predicate IsRecordable(x: RefundFacts, i: IntentId) {
    OnItsWay(x.status) && (x.intent.None? || x.intent == Some(i))
  }

  /** Stripe answers the sync's listing, and the list holds the refund. */
  ghost predicate ReadsIt(run: seq<World>, m: nat, k: nat, p: nat, i: IntentId, r: RefundId) {
    && Moves(run, m, k) && run[m].tasks[k].Listing? && run[m].tasks[k].payment == p && IntentIs(run[m], p, i)
    && run[m].stripe.available && run[m].stripe.reachable
    && exists x :: x in run[m].stripe.RefundsOf(i) && x.id == r && IsRecordable(x, i)
  }

  /** The sync comes to the refund's own transaction. */
  ghost predicate ReachesIt(run: seq<World>, m: nat, k: nat, p: nat, r: RefundId) {
    && Moves(run, m, k) && run[m].tasks[k].SyncingOne? && run[m].tasks[k].payment == p
    && run[m].tasks[k].refund.id == r && OnItsWay(run[m].tasks[k].refund.status)
  }

  /** A sync of the payment began, read a list that holds the refund, and was not cut off before the refund's turn. */
  ghost predicate SyncRecords(run: seq<World>, p: nat, i: IntentId, r: RefundId) {
    exists b: nat, m: nat, e: nat, k: nat :: IsSyncOf(run, b, m, e, k, p, i, r)
  }

  ghost predicate IsSyncOf(run: seq<World>, b: nat, m: nat, e: nat, k: nat, p: nat, i: IntentId, r: RefundId) {
    && b < m < e && Begins(run, b, k, p, i) && GoesOn(run, b + 1, e, k)
    && ReadsIt(run, m, k, p, i, r) && ReachesIt(run, e, k, p, r)
  }

  /** An event of the refund found the payment, and its own row was not there when it committed. */
  ghost predicate IsEventOf(run: seq<World>, m: nat, k: nat, r: RefundId) {
    && Moves(run, m, k) && run[m].tasks[k].RecordingRefund? && run[m].tasks[k].refund.id == r
    && OnItsWay(run[m].tasks[k].refund.status) && run[m].tasks[k].meta.id !in run[m].db.events
  }

  // ---------------------------------------------------------------- where a row comes from

  /** The step that writes a refund's row, or finds it written. */
  ghost predicate Writes(w: World, k: nat, r: RefundId) {
    k < |w.tasks|
    && ((w.tasks[k].SyncingOne? && w.tasks[k].refund.id == r && OnItsWay(w.tasks[k].refund.status))
        || (w.tasks[k].RecordingRefund? && w.tasks[k].refund.id == r && OnItsWay(w.tasks[k].refund.status)
            && w.tasks[k].meta.id !in w.db.events))
  }

  lemma WritingLeavesIt(w: World, w': World, k: nat, r: RefundId)
    requires Proceeds(w, w', k) && Writes(w, k, r)
    ensures HasRefund(w'.db.refunds, r)
  {
    var rows := w.db.refunds;
    if !HasRefund(rows, r) {
      assert w'.db.refunds == rows + [RefundRow(r, w.tasks[k].payment, w.tasks[k].refund.amount)];
      assert w'.db.refunds[|rows|].refund == r;
    } else {
      assert w'.db.refunds == rows;
    }
  }

  lemma OnlyWritingAdds(db: Db, stripe: Stripe, t: Task, r: RefundId)
    requires CheckoutRuns.Fits(db, t)
    ensures db.refunds <= Next(db, stripe, t).0.refunds
    ensures HasRefund(Next(db, stripe, t).0.refunds, r) && !HasRefund(db.refunds, r) ==> Writes(World(stripe, db, [t]), 0, r)
  {
    var now := Next(db, stripe, t).0.refunds;
    if t.SyncingOne? || t.RecordingRefund? {
      var row := RefundRow(t.refund.id, t.payment, t.refund.amount);
      assert now == db.refunds || now == db.refunds + [row];
      if HasRefund(now, r) && !HasRefund(db.refunds, r) {
        var n :| 0 <= n < |now| && now[n].refund == r;
        assert n == |db.refunds|;
      }
    }
  }

  lemma StepOfRefunds(w: World, w': World, r: RefundId)
    requires Step(w, w')
    ensures w.db.refunds <= w'.db.refunds
    ensures HasRefund(w'.db.refunds, r) && !HasRefund(w.db.refunds, r) ==> exists k: nat :: Proceeds(w, w', k) && Writes(w, k, r)
  {
    if k: nat :| Proceeds(w, w', k) {
      OnlyWritingAdds(w.db, w.stripe, w.tasks[k], r);
    }
  }

  ghost predicate WritesAt(run: seq<World>, m: nat, k: nat, r: RefundId) {
    Moves(run, m, k) && Writes(run[m], k, r)
  }

  lemma StepAt(run: seq<World>, n: nat)
    requires IsRun(run) && n + 1 < |run|
    ensures Step(run[n], run[n + 1])
  {
    assert Follows(run, n);
  }

  lemma {:induction false} RowsStay(run: seq<World>, m: nat, n: nat, r: RefundId)
    requires IsRun(run) && m <= n < |run| && HasRefund(run[m].db.refunds, r)
    ensures HasRefund(run[n].db.refunds, r)
    decreases n
  {
    if m < n {
      RowsStay(run, m, n - 1, r);
      StepAt(run, n - 1);
      StepOfRefunds(run[n - 1], run[n], r);
      HadStillHas(run[n - 1].db.refunds, run[n].db.refunds, r);
    }
  }

  lemma {:induction false} WrittenBySome(run: seq<World>, n: nat, r: RefundId) returns (m: nat, k: nat)
    requires IsRun(run) && n < |run| && HasRefund(run[n].db.refunds, r)
    ensures m < n && WritesAt(run, m, k, r)
    decreases n
  {
    StepAt(run, n - 1);
    StepOfRefunds(run[n - 1], run[n], r);
    if HasRefund(run[n - 1].db.refunds, r) {
      m, k := WrittenBySome(run, n - 1, r);
    } else {
      m := n - 1;
      k :| Proceeds(run[n - 1], run[n], k) && Writes(run[n - 1], k, r);
    }
  }

  // ---------------------------------------------------------------- where a sync comes from

  /** Still before task `t`'s eyes. */
  ghost predicate IsToDo(t: Task, x: RefundFacts) {
    || (t.Syncing? && x in t.list)
    || (t.SyncingOne? && (x == t.refund || x in t.list))
  }

  predicate IsSync(t: Task, p: nat) {
    (t.Listing? || t.Syncing? || t.SyncingOne?) && t.payment == p
  }

  /** The sync at state `n` began at `b`, and was not cut off since. */
  ghost predicate BeganAt(run: seq<World>, b: nat, n: nat, k: nat, p: nat, i: IntentId) {
    b < n && Begins(run, b, k, p, i) && GoesOn(run, b + 1, n, k)
  }

  /** ... and read its list at `m`: what it has to do was in it. */
  ghost predicate ListedAt(run: seq<World>, b: nat, m: nat, n: nat, k: nat, p: nat, i: IntentId) {
    && b < m < n && BeganAt(run, b, n, k, p, i) && k < |run[n].tasks|
    && Moves(run, m, k) && run[m].tasks[k].Listing? && run[m].tasks[k].payment == p && IntentIs(run[m], p, i)
    && run[m].stripe.available && run[m].stripe.reachable
    && forall x :: IsToDo(run[n].tasks[k], x) ==> x in run[m].stripe.RefundsOf(i)
  }

  lemma GoesOnOne(run: seq<World>, a: nat, n: nat, k: nat)
    requires GoesOn(run, a, n, k) && StaysOrMoves(run, n, k)
    ensures GoesOn(run, a, n + 1, k)
  {
  }

  /** What can become of a task in one step: nothing, its own step, or its end. */
  lemma OneTaskOn(w: World, w': World, k: nat)
    requires Step(w, w') && k < |w.tasks|
    ensures k < |w'.tasks| && (w'.tasks[k] == w.tasks[k] || Proceeds(w, w', k) || w'.tasks[k].Done?)
  {
  }

  /** Only a start adds a task. */
  lemma NewTask(w: World, w': World, k: nat)
    requires Step(w, w') && |w.tasks| <= k < |w'.tasks|
    ensures k == |w.tasks| && Starts(w, w', w'.tasks[k])
  {
  }

  /** A sync's own step: it begins, reads its list, or goes on with what it had to do. */
  lemma SyncMoves(db: Db, stripe: Stripe, t: Task, p: nat, i: IntentId)
    requires CheckoutRuns.Fits(db, t)
    requires IsSync(Next(db, stripe, t).1, p) && p < |Next(db, stripe, t).0.payments| && Next(db, stripe, t).0.payments[p].intent == Some(i)
    ensures p < |db.payments| && db.payments[p].intent == Some(i)
    ensures var t1 := Next(db, stripe, t).1;
            || (t1.Listing? && t == CountingDeferred(p) && Waiting(db.events, i))
            || (t1.Listing? && t.FindingCharged? && t.event.charged == Some(i) && PaymentOfIntent(db.payments, i) == Some(p) && stripe.available)
            || (t1.Syncing? && t.Listing? && t.payment == p && t1.list == stripe.RefundsOf(i) && stripe.available && stripe.reachable)
            || (!t1.Listing? && (t.Syncing? || t.SyncingOne?) && t.payment == p && forall x :: IsToDo(t1, x) ==> IsToDo(t, x))
  {
  }

  lemma PaymentsStep(w: World, w': World)
    requires Step(w, w')
    ensures w.db.payments <= w'.db.payments
  {
    if k: nat :| Proceeds(w, w', k) {
      NextGrows(w.db, w.stripe, w.tasks[k]);
    }
  }

  lemma {:induction false} PaymentsGrow(run: seq<World>, m: nat, n: nat)
    requires IsRun(run) && m <= n < |run|
    ensures run[m].db.payments <= run[n].db.payments
    decreases n
  {
    if m < n {
      PaymentsGrow(run, m, n - 1);
      StepAt(run, n - 1);
      PaymentsStep(run[n - 1], run[n]);
    }
  }

  lemma TaskFits(run: seq<World>, n: nat, k: nat)
    requires IsRun(run) && n < |run| && k < |run[n].tasks|
    ensures CheckoutRuns.Fits(run[n].db, run[n].tasks[k])
  {
    RunsAreSafe(run, n);
    assert Sound(run[n].stripe, run[n].db, run[n].tasks[k]);
  }

  /** Where a sync at state `n + 1` stood one state before. */
  lemma OneBack(run: seq<World>, n: nat, k: nat, p: nat, i: IntentId)
    requires IsRun(run) && n + 1 < |run| && k < |run[n + 1].tasks| && IsSync(run[n + 1].tasks[k], p) && IntentIs(run[n + 1], p, i)
    ensures || BeganAt(run, n, n + 1, k, p, i)
            || (StaysOrMoves(run, n, k) && IsSync(run[n].tasks[k], p) && IntentIs(run[n], p, i)
                && (run[n].tasks[k].Listing? ==> run[n + 1].tasks[k].Listing? || ListsAt(run, n, k, p, i))
                && (!run[n].tasks[k].Listing? ==> !run[n + 1].tasks[k].Listing? && forall x :: IsToDo(run[n + 1].tasks[k], x) ==> IsToDo(run[n].tasks[k], x)))
  {
    var w, w' := run[n], run[n + 1];
    StepAt(run, n);
    PaymentsStep(w, w');
    if k >= |w.tasks| {
      NewTask(w, w', k);
      assert SweepBegins(run, n, k, p);
    } else {
      OneTaskOn(w, w', k);
      TaskFits(run, n, k);
      if w'.tasks[k] != w.tasks[k] {
        SyncMoves(w.db, w.stripe, w.tasks[k], p, i);
        assert Moves(run, n, k);
      }
    }
  }

  ghost predicate ListsAt(run: seq<World>, n: nat, k: nat, p: nat, i: IntentId) {
    && Moves(run, n, k) && run[n].tasks[k].Listing? && run[n].tasks[k].payment == p && IntentIs(run[n], p, i)
    && run[n].stripe.available && run[n].stripe.reachable
    && forall x :: IsToDo(run[n + 1].tasks[k], x) ==> x in run[n].stripe.RefundsOf(i)
  }

  /** Every sync began somewhere, and has read what it still has to do from Stripe's list. */
  lemma {:induction false} Traced(run: seq<World>, n: nat, k: nat, p: nat, i: IntentId) returns (b: nat, m: nat)
    requires IsRun(run) && n < |run| && k < |run[n].tasks| && IsSync(run[n].tasks[k], p) && IntentIs(run[n], p, i)
    ensures BeganAt(run, b, n, k, p, i)
    ensures !run[n].tasks[k].Listing? ==> ListedAt(run, b, m, n, k, p, i)
    decreases n
  {
    OneBack(run, n - 1, k, p, i);
    if BeganAt(run, n - 1, n, k, p, i) {
      b, m := n - 1, 0;
      JustBegan(run, b, k, p, i);
    } else {
      b, m := Traced(run, n - 1, k, p, i);
      GoesOnOne(run, b + 1, n - 1, k);
      if run[n - 1].tasks[k].Listing? {
        m := n - 1;
      }
    }
  }

  lemma JustBegan(run: seq<World>, b: nat, k: nat, p: nat, i: IntentId)
    requires BeganAt(run, b, b + 1, k, p, i) && k < |run[b + 1].tasks|
    ensures IsSync(run[b + 1].tasks[k], p) ==> run[b + 1].tasks[k].Listing?
  {
  }

  // ---------------------------------------------------------------- what stays over a run

  lemma {:induction false} MadeStays(run: seq<World>, m: nat, n: nat, i: IntentId, r: RefundId, amount: nat)
    requires IsRun(run) && m <= n < |run| && Made(run[m].stripe, i, r, amount)
    ensures Made(run[n].stripe, i, r, amount)
    decreases n
  {
    if m < n {
      MadeStays(run, m, n - 1, i, r, amount);
      StepAt(run, n - 1);
    }
  }

  lemma EventsStep(w: World, w': World, id: EventId)
    requires Step(w, w') && id in w.db.events
    ensures id in w'.db.events && w'.db.events[id] == w.db.events[id]
  {
    if k: nat :| Proceeds(w, w', k) {
      EventsOfTask(w.db, w.stripe, w.tasks[k], id);
    }
  }

  lemma EventsOfTask(db: Db, stripe: Stripe, t: Task, id: EventId)
    requires CheckoutRuns.Fits(db, t) && id in db.events
    ensures id in Next(db, stripe, t).0.events && Next(db, stripe, t).0.events[id] == db.events[id]
  {
  }

  lemma {:induction false} EventsStay(run: seq<World>, m: nat, n: nat, id: EventId)
    requires IsRun(run) && m <= n < |run| && id in run[m].db.events
    ensures id in run[n].db.events && run[n].db.events[id] == run[m].db.events[id]
    decreases n
  {
    if m < n {
      EventsStay(run, m, n - 1, id);
      StepAt(run, n - 1);
      EventsStep(run[n - 1], run[n], id);
    }
  }

  /** A sync comes to the transaction of a refund of its own intent, or of none named. */
  lemma {:induction false} RefundIsItsIntents(run: seq<World>, n: nat, k: nat)
    requires IsRun(run) && n < |run| && k < |run[n].tasks| && run[n].tasks[k].SyncingOne?
    ensures var t := run[n].tasks[k];
            t.payment < |run[n].db.payments| && (t.refund.intent.None? || t.refund.intent == run[n].db.payments[t.payment].intent)
    decreases n
  {
    TaskFits(run, n, k);
    var w, w' := run[n - 1], run[n];
    StepAt(run, n - 1);
    PaymentsStep(w, w');
    if k >= |w.tasks| {
      NewTask(w, w', k);
    } else {
      OneTaskOn(w, w', k);
      TaskFits(run, n - 1, k);
      if w'.tasks[k] == w.tasks[k] {
        RefundIsItsIntents(run, n - 1, k);
      } else {
        ChosenIsItsIntents(w.db, w.stripe, w.tasks[k]);
      }
    }
  }

  lemma ChosenIsItsIntents(db: Db, stripe: Stripe, t: Task)
    requires CheckoutRuns.Fits(db, t) && Next(db, stripe, t).1.SyncingOne?
    ensures var t1 := Next(db, stripe, t).1;
            t1.payment < |db.payments| && (t1.refund.intent.None? || t1.refund.intent == db.payments[t1.payment].intent)
  {
  }

  // ---------------------------------------------------------------- when a refund has its row

  ghost predicate AllDone(w: World) {
    forall k :: 0 <= k < |w.tasks| ==> w.tasks[k].Done?
  }

  /** Told of truthfully, kept for want of its payment, and payment `p` of its intent is recorded now. */
  ghost predicate IsKept(w: World, e: Event, p: nat, i: IntentId) {
    && e.RefundChanged? && e.refund.intent == Some(i) && Truthful(w.stripe, e)
    && e.id in w.db.events && w.db.events[e.id].outcome == RefundDeferred && IntentIs(w, p, i)
  }

  /** ... and nothing is running, and it has no row. */
  ghost predicate Stranded(w: World, e: Event, p: nat, i: IntentId) {
    IsKept(w, e, p, i) && AllDone(w) && !HasRefund(w.db.refunds, e.refund.id)
  }

  ghost predicate AnotherEventRecords(run: seq<World>, e: Event)
    requires e.RefundChanged?
  {
    exists m: nat, k: nat :: IsEventOf(run, m, k, e.refund.id) && run[m].tasks[k].meta.id != e.id
  }

  lemma OnlyPaymentOfIntent(w: World, p: nat, q: nat, i: IntentId)
    requires Inv(w) && IntentIs(w, p, i) && IntentIs(w, q, i)
    ensures p == q
  {
  }

  lemma OneIntentEach(w: World, i: IntentId, j: IntentId, r: RefundId, a: nat, b: nat)
    requires Inv(w) && Made(w.stripe, i, r, a) && Made(w.stripe, j, r, b)
    ensures i == j
  {
  }

  /** A sync that comes to the refund is one of the refund's own payment. */
  lemma SyncIsOfItsPayment(run: seq<World>, m: nat, k: nat, p: nat, i: IntentId, r: RefundId, amount: nat)
    requires IsRun(run) && m < |run| && k < |run[m].tasks| && run[m].tasks[k].SyncingOne? && run[m].tasks[k].refund.id == r
    requires var w := run[|run| - 1]; IntentIs(w, p, i) && Made(w.stripe, i, r, amount)
    ensures run[m].tasks[k].payment == p && IntentIs(run[m], p, i)
  {
    var last, t := |run| - 1, run[m].tasks[k];
    RunsAreSafe(run, m);
    RunsAreSafe(run, last);
    assert Sound(run[m].stripe, run[m].db, t);
    var j := run[m].db.payments[t.payment].intent.value;
    MadeStays(run, m, last, j, r, t.refund.amount);
    OneIntentEach(run[last], i, j, r, amount, t.refund.amount);
    PaymentsGrow(run, m, last);
    OnlyPaymentOfIntent(run[last], p, t.payment, i);
  }

  lemma SyncWrote(run: seq<World>, e: nat, k: nat, p: nat, i: IntentId, r: RefundId)
    requires IsRun(run) && Moves(run, e, k) && run[e].tasks[k].SyncingOne? && run[e].tasks[k].refund.id == r
    requires OnItsWay(run[e].tasks[k].refund.status) && run[e].tasks[k].payment == p && IntentIs(run[e], p, i)
    ensures SyncRecords(run, p, i, r)
  {
    var x := run[e].tasks[k].refund;
    var b, m := Traced(run, e, k, p, i);
    RefundIsItsIntents(run, e, k);
    assert IsToDo(run[e].tasks[k], x) && IsRecordable(x, i);
    assert ReadsIt(run, m, k, p, i, r);
    assert IsSyncOf(run, b, m, e, k, p, i, r);
  }

  lemma EventIsAnother(run: seq<World>, e: Event, p: nat, i: IntentId, m: nat, k: nat)
    requires IsRun(run) && IsKept(run[|run| - 1], e, p, i) && IsEventOf(run, m, k, e.refund.id)
    ensures run[m].tasks[k].meta.id != e.id
  {
    if run[m].tasks[k].meta.id == e.id {
      assert e.id in run[m + 1].db.events && run[m + 1].db.events[e.id].outcome == RefundRecorded;
      EventsStay(run, m + 1, |run| - 1, e.id);
    }
  }

  lemma SyncRecordsIt(run: seq<World>, p: nat, i: IntentId, r: RefundId)
    requires IsRun(run) && SyncRecords(run, p, i, r)
    ensures HasRefund(run[|run| - 1].db.refunds, r)
  {
    var b: nat, m: nat, n: nat, k: nat :| IsSyncOf(run, b, m, n, k, p, i, r);
    ReachedIsWritten(run, n, k, p, r);
  }

  lemma ReachedIsWritten(run: seq<World>, n: nat, k: nat, p: nat, r: RefundId)
    requires IsRun(run) && ReachesIt(run, n, k, p, r)
    ensures HasRefund(run[|run| - 1].db.refunds, r)
  {
    WritingLeavesIt(run[n], run[n + 1], k, r);
    RowsStay(run, n + 1, |run| - 1, r);
  }

  lemma EventRecordsIt(run: seq<World>, e: Event)
    requires IsRun(run) && e.RefundChanged? && AnotherEventRecords(run, e)
    ensures HasRefund(run[|run| - 1].db.refunds, e.refund.id)
  {
    var m: nat, k: nat :| IsEventOf(run, m, k, e.refund.id) && run[m].tasks[k].meta.id != e.id;
    WritingLeavesIt(run[m], run[m + 1], k, e.refund.id);
    RowsStay(run, m + 1, |run| - 1, e.refund.id);
  }

  lemma RecordedBySome(run: seq<World>, e: Event, p: nat, i: IntentId)
    requires IsRun(run) && IsKept(run[|run| - 1], e, p, i) && HasRefund(run[|run| - 1].db.refunds, e.refund.id)
    ensures SyncRecords(run, p, i, e.refund.id) || AnotherEventRecords(run, e)
  {
    var r := e.refund.id;
    var m, k := WrittenBySome(run, |run| - 1, r);
    if run[m].tasks[k].SyncingOne? {
      SyncIsOfItsPayment(run, m, k, p, i, r, e.refund.amount);
      SyncWrote(run, m, k, p, i, r);
    } else {
      assert IsEventOf(run, m, k, r);
      EventIsAnother(run, e, p, i, m, k);
    }
  }

  /**
    * A refund kept for want of its payment has its row if and only if a sync of that
    * payment began, read from Stripe a list that holds it and was not cut off before its
    * turn, or another event of the refund found the payment and committed.
    */
  lemma KeptRefundIsRecordedIff(run: seq<World>, e: Event, p: nat, i: IntentId)
    requires IsRun(run) && IsKept(run[|run| - 1], e, p, i)
    ensures HasRefund(run[|run| - 1].db.refunds, e.refund.id)
            <==> SyncRecords(run, p, i, e.refund.id) || AnotherEventRecords(run, e)
  {
    if HasRefund(run[|run| - 1].db.refunds, e.refund.id) {
      RecordedBySome(run, e, p, i);
    }
    if SyncRecords(run, p, i, e.refund.id) {
      SyncRecordsIt(run, p, i, e.refund.id);
    }
    if AnotherEventRecords(run, e) {
      EventRecordsIt(run, e);
    }
  }

  /** So it is stranded exactly when none of these happened. */
  lemma StrandedIff(run: seq<World>, e: Event, p: nat, i: IntentId)
    requires IsRun(run) && AllDone(run[|run| - 1]) && IsKept(run[|run| - 1], e, p, i)
    ensures Stranded(run[|run| - 1], e, p, i) <==> !SyncRecords(run, p, i, e.refund.id) && !AnotherEventRecords(run, e)
  {
    KeptRefundIsRecordedIff(run, e, p, i);
  }

  // ---------------------------------------------------------------- the guards, read by read

  /** Only the payment's own sync ever ran for it. */
  ghost predicate NoOtherSync(run: seq<World>, p: nat, i: IntentId) {
    forall b: nat, k: nat :: Begins(run, b, k, p, i) ==> OwnSyncBegins(run, b, k, p, i)
  }

  /**
    * Left to the payment's own sync: a deferred event's row was in the table when the
    * payment's task counted, Stripe then answered with a list that holds the refund, and
    * its sync was not cut off before the refund's turn.
    */
  lemma OwnSyncIff(run: seq<World>, e: Event, p: nat, i: IntentId)
    requires IsRun(run) && IsKept(run[|run| - 1], e, p, i)
    requires NoOtherSync(run, p, i) && !AnotherEventRecords(run, e)
    ensures HasRefund(run[|run| - 1].db.refunds, e.refund.id)
            <==> exists b: nat, m: nat, n: nat, k: nat ::
                   IsSyncOf(run, b, m, n, k, p, i, e.refund.id) && OwnSyncBegins(run, b, k, p, i)
  {
    KeptRefundIsRecordedIff(run, e, p, i);
    if SyncRecords(run, p, i, e.refund.id) {
      var b: nat, m: nat, n: nat, k: nat :| IsSyncOf(run, b, m, n, k, p, i, e.refund.id);
      assert OwnSyncBegins(run, b, k, p, i);
    }
  }

  ghost predicate StillToDo(t: Task, i: IntentId, r: RefundId) {
    exists x :: IsToDo(t, x) && x.id == r && IsRecordable(x, i)
  }

  /** A sync that has the refund before it, and moves, records it or still has it before it. */
  lemma SyncKeepsItToDo(db: Db, stripe: Stripe, t: Task, p: nat, i: IntentId, r: RefundId)
    requires CheckoutRuns.Fits(db, t) && (t.Syncing? || t.SyncingOne?) && t.payment == p && db.payments[p].intent == Some(i)
    requires StillToDo(t, i, r) && !HasRefund(db.refunds, r)
    ensures var (db1, t1) := Next(db, stripe, t);
            HasRefund(db1.refunds, r) || ((t1.Syncing? || t1.SyncingOne?) && t1.payment == p && StillToDo(t1, i, r))
  {
    var x :| IsToDo(t, x) && x.id == r && IsRecordable(x, i);
    var (db1, t1) := Next(db, stripe, t);
    if t.Syncing? {
      var last := t.list[|t.list| - 1];
      assert x == last || x in t.list[..|t.list| - 1];
      assert IsToDo(t1, x);
    } else if x == t.refund {
      assert db1.refunds[|db.refunds|].refund == r;
    } else {
      assert IsToDo(t1, x);
    }
  }

  lemma ReadKeepsIt(run: seq<World>, m: nat, k: nat, p: nat, i: IntentId, r: RefundId)
    requires ReadsIt(run, m, k, p, i, r)
    ensures run[m + 1].tasks[k].Syncing? && run[m + 1].tasks[k].payment == p && StillToDo(run[m + 1].tasks[k], i, r)
  {
    var x :| x in run[m].stripe.RefundsOf(i) && x.id == r && IsRecordable(x, i);
    assert IsToDo(run[m + 1].tasks[k], x);
  }

  /** A sync that read a list with the refund in it, and is never cut off, comes to its end with the refund recorded. */
  lemma {:induction false} ReadAndNotCutOff(run: seq<World>, m: nat, n: nat, k: nat, p: nat, i: IntentId, r: RefundId)
    requires IsRun(run) && ReadsIt(run, m, k, p, i, r) && m < n && GoesOn(run, m + 1, n, k)
    ensures k < |run[n].tasks|
    ensures var t := run[n].tasks[k];
            HasRefund(run[n].db.refunds, r) || ((t.Syncing? || t.SyncingOne?) && t.payment == p && StillToDo(t, i, r))
    ensures run[n].tasks[k].Done? ==> HasRefund(run[n].db.refunds, r)
    decreases n
  {
    assert n > m + 1 ==> StaysOrMoves(run, n - 1, k);
    if n == m + 1 {
      ReadKeepsIt(run, m, k, p, i, r);
    } else {
      ReadAndNotCutOff(run, m, n - 1, k, p, i, r);
      if HasRefund(run[n - 1].db.refunds, r) {
        RowsStay(run, n - 1, n, r);
      } else {
        assert StaysOrMoves(run, n - 1, k);
        PaymentsGrow(run, m, n - 1);
        TaskFits(run, n - 1, k);
        SyncKeepsItToDo(run[n - 1].db, run[n - 1].stripe, run[n - 1].tasks[k], p, i, r);
        if run[n].tasks[k] == run[n - 1].tasks[k] {
          assert StillToDo(run[n].tasks[k], i, r);
        }
      }
    }
  }

  /** No task is cut off: each is there to the end, and changes by its own steps alone. */
  ghost predicate NoneIsCutOff(run: seq<World>) {
    forall n: nat, k: nat :: n + 1 < |run| && k < |run[n].tasks| ==> StaysOrMoves(run, n, k)
  }

  ghost predicate SyncReads(run: seq<World>, p: nat, i: IntentId, r: RefundId) {
    exists b: nat, m: nat, k: nat :: b < m && Begins(run, b, k, p, i) && ReadsIt(run, m, k, p, i, r)
  }

  lemma {:induction false} GoesOnUncut(run: seq<World>, a: nat, n: nat, k: nat)
    requires NoneIsCutOff(run) && a <= n < |run| && k < |run[a].tasks|
    ensures GoesOn(run, a, n, k) && k < |run[n].tasks|
    decreases n
  {
    if a < n {
      GoesOnUncut(run, a, n - 1, k);
      assert StaysOrMoves(run, n - 1, k);
    }
  }

  /** Where nothing is cut off: recorded exactly when some sync of the payment began and read a list that holds the refund. */
  lemma UncutIff(run: seq<World>, e: Event, p: nat, i: IntentId)
    requires IsRun(run) && NoneIsCutOff(run) && AllDone(run[|run| - 1]) && IsKept(run[|run| - 1], e, p, i)
    requires !AnotherEventRecords(run, e)
    ensures HasRefund(run[|run| - 1].db.refunds, e.refund.id) <==> SyncReads(run, p, i, e.refund.id)
  {
    KeptRefundIsRecordedIff(run, e, p, i);
    if SyncRecords(run, p, i, e.refund.id) {
      RecordsWasRead(run, p, i, e.refund.id);
    }
    if SyncReads(run, p, i, e.refund.id) {
      ReadIsRecorded(run, p, i, e.refund.id);
    }
  }

  lemma RecordsWasRead(run: seq<World>, p: nat, i: IntentId, r: RefundId)
    requires SyncRecords(run, p, i, r)
    ensures SyncReads(run, p, i, r)
  {
    var b: nat, m: nat, n: nat, k: nat :| IsSyncOf(run, b, m, n, k, p, i, r);
    assert Begins(run, b, k, p, i) && ReadsIt(run, m, k, p, i, r);
  }

  lemma ReadIsRecorded(run: seq<World>, p: nat, i: IntentId, r: RefundId)
    requires IsRun(run) && NoneIsCutOff(run) && AllDone(run[|run| - 1]) && SyncReads(run, p, i, r)
    ensures HasRefund(run[|run| - 1].db.refunds, r)
  {
    var b: nat, m: nat, k: nat :| b < m && Begins(run, b, k, p, i) && ReadsIt(run, m, k, p, i, r);
    ReadUncut(run, m, k, p, i, r);
  }

  lemma ReadUncut(run: seq<World>, m: nat, k: nat, p: nat, i: IntentId, r: RefundId)
    requires IsRun(run) && NoneIsCutOff(run) && AllDone(run[|run| - 1]) && ReadsIt(run, m, k, p, i, r)
    ensures HasRefund(run[|run| - 1].db.refunds, r)
  {
    var last := |run| - 1;
    GoesOnUncut(run, m + 1, last, k);
    ReadAndNotCutOff(run, m, last, k, p, i, r);
  }
}
