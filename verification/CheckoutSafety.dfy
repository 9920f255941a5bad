/**
  * What every run of overlapping deliveries keeps: one payment per session and per
  * intent, each Stripe-paid for exactly its checkout's amount, one row per Stripe
  * refund on the payment of its own intent, and a decline counted once an event.
  */
module CheckoutSafety {
  import opened Options
  import opened CheckoutDb
  import opened CheckoutRuns

  datatype World = World(stripe: Stripe, db: Db, tasks: seq<Task>)

  // ---------------------------------------------------------------- what Stripe may do

  /** A refund Stripe made on an intent; its status may have moved since. */
  ghost predicate Made(stripe: Stripe, i: IntentId, r: RefundId, amount: nat) {
    exists k :: 0 <= k < |stripe.RefundsOf(i)| && stripe.RefundsOf(i)[k].id == r && stripe.RefundsOf(i)[k].amount == amount
  }

  /** Stripe's own identifiers: a paid session has its own intent, a refund is of one intent. */
  ghost predicate Coherent(stripe: Stripe) {
    && (forall s :: s in stripe.sessions ==> stripe.sessions[s].id == s)
    && (forall s :: s in stripe.sessions && stripe.sessions[s].paid && stripe.sessions[s].intent.Some? ==>
          stripe.sessions[s].intent.value in stripe.sessionOf && stripe.sessionOf[stripe.sessions[s].intent.value] == s)
    && (forall i :: i in stripe.sessionOf && stripe.sessionOf[i] in stripe.sessions && stripe.sessions[stripe.sessionOf[i]].paid ==>
          stripe.sessions[stripe.sessionOf[i]].intent == Some(i))
    && (forall i, j, r, a, b :: Made(stripe, i, r, a) && Made(stripe, j, r, b) ==> i == j && a == b)
  }

  /** Stripe moves on: what is paid stays as it is, and no session, intent or refund is taken back. */
  ghost predicate Grows(was: Stripe, now: Stripe) {
    && Coherent(now)
    && (forall s :: s in was.sessions ==> s in now.sessions)
    && (forall s :: s in was.sessions && was.sessions[s].paid ==> now.sessions[s] == was.sessions[s])
    && (forall i :: i in was.sessionOf ==> i in now.sessionOf && now.sessionOf[i] == was.sessionOf[i])
    && (forall i, r, a :: Made(was, i, r, a) ==> Made(now, i, r, a))
  }

  /** A verified event says only what was so at Stripe. */
  ghost predicate Truthful(stripe: Stripe, e: Event) {
    match e
    case SessionSettled(_, s) => IsPaidAt(stripe, s) || !s.paid
    case RefundChanged(_, r) => r.intent.Some? ==> Made(stripe, r.intent.value, r.id, r.amount)
    case _ => true
  }

  ghost predicate IsPaidAt(stripe: Stripe, s: Session) {
    s.paid && s.id in stripe.sessions && stripe.sessions[s.id] == s
  }

  // ---------------------------------------------------------------- the steps of a run

  ghost predicate Step(w: World, w': World) {
    || (w' == w.(stripe := w'.stripe) && Grows(w.stripe, w'.stripe))
    || (exists t: Task :: Starts(w, w', t))
    || (exists s: SessionId, c: CheckoutRow :: Opens(w, w', s, c))
    || (exists k: nat :: Crashes(w, w', k))
    || (exists k: nat :: Proceeds(w, w', k))
  }

  /**
    * An event is delivered, a paid session is found without one, `open` or a sweep looks at
    * an open checkout, or a sweep lists a payment's refunds.
    */
  ghost predicate Starts(w: World, w': World, t: Task) {
    && w' == w.(tasks := w.tasks + [t])
    && match t
       case Received(e) => Truthful(w.stripe, e)
       case Confirming(s, m) => IsPaidAt(w.stripe, s) && m == None
       case Looking(s, _) => s in w.db.checkouts && w.db.checkouts[s].status == Open
       case Listing(k, after) => k < |w.db.payments| && after == None
       case _ => false
  }

  /** `open` writes the row of a session it has just been given. */
  ghost predicate Opens(w: World, w': World, s: SessionId, c: CheckoutRow) {
    && s !in w.db.checkouts && c.failureCount == 0 && c.status == Open
    && w' == w.(db := w.db.(checkouts := w.db.checkouts[s := c]))
  }

  ghost predicate Crashes(w: World, w': World, k: nat) {
    k < |w.tasks| && w' == w.(tasks := w.tasks[k := Done])
  }

  ghost predicate Proceeds(w: World, w': World, k: nat) {
    && k < |w.tasks| && Fits(w.db, w.tasks[k])
    && var (db1, t1) := Next(w.db, w.stripe, w.tasks[k]);
       w' == w.(db := db1, tasks := w.tasks[k := t1])
  }

  ghost predicate Follows(run: seq<World>, k: int)
    requires 0 <= k < |run| - 1
  {
    Step(run[k], run[k + 1])
  }

  ghost predicate IsRun(run: seq<World>) {
    && |run| > 0
    && run[0].db == Db(map[], map[], [], []) && run[0].tasks == [] && Coherent(run[0].stripe)
    && forall k :: 0 <= k < |run| - 1 ==> Follows(run, k)
  }

  // ---------------------------------------------------------------- what is kept

  ghost predicate PaymentIsRight(stripe: Stripe, db: Db, p: PaymentRow) {
    && p.session in db.checkouts
    && p.session in stripe.sessions
    && var s := stripe.sessions[p.session]; var c := db.checkouts[p.session];
       && s.paid && s.amount == p.amount && s.currency == p.currency && s.intent == p.intent
       && c.amount == p.amount && c.currency == p.currency && c.request == p.request
  }

  ghost predicate PaymentsAreRight(stripe: Stripe, db: Db) {
    && (forall k :: 0 <= k < |db.payments| ==> PaymentIsRight(stripe, db, db.payments[k]))
    && (forall j, k :: 0 <= j < k < |db.payments| ==> db.payments[j].session != db.payments[k].session)
    && (forall j, k :: 0 <= j < k < |db.payments| && db.payments[j].intent.Some? ==>
          db.payments[j].intent != db.payments[k].intent)
  }

  ghost predicate RefundIsRight(stripe: Stripe, db: Db, r: RefundRow) {
    && r.payment < |db.payments|
    && db.payments[r.payment].intent.Some?
    && Made(stripe, db.payments[r.payment].intent.value, r.refund, r.amount)
  }

  ghost predicate RefundsAreRight(stripe: Stripe, db: Db) {
    && (forall k :: 0 <= k < |db.refunds| ==> RefundIsRight(stripe, db, db.refunds[k]))
    && (forall j, k :: 0 <= j < k < |db.refunds| ==> db.refunds[j].refund != db.refunds[k].refund)
  }

  /** The declined events of one session. */
  ghost function Declines(stripe: Stripe, db: Db, s: SessionId): set<EventId> {
    set id | id in db.events && db.events[id].outcome == PaymentFailed && db.events[id].intent.Some?
             && db.events[id].intent.value in stripe.sessionOf && stripe.sessionOf[db.events[id].intent.value] == s
  }

  ghost predicate DeclinesAreCounted(stripe: Stripe, db: Db) {
    forall s :: s in db.checkouts ==> db.checkouts[s].failureCount == |Declines(stripe, db, s)|
  }

  /** An event is answered `recorded` only with its payment beside it. */
  ghost predicate RecordedMeansPaid(db: Db) {
    forall id :: id in db.events && db.events[id].outcome == Recorded && db.events[id].intent.Some? ==>
      exists k :: 0 <= k < |db.payments| && db.payments[k].intent == db.events[id].intent
  }

  ghost predicate DeclinesAreKnown(stripe: Stripe, db: Db) {
    forall id :: id in db.events && db.events[id].outcome == PaymentFailed ==>
      db.events[id].intent.Some? && db.events[id].intent.value in stripe.sessionOf
      && stripe.sessionOf[db.events[id].intent.value] in db.checkouts
  }

  ghost predicate Safe(w: World) {
    PaymentsAreRight(w.stripe, w.db) && RefundsAreRight(w.stripe, w.db)
    && DeclinesAreCounted(w.stripe, w.db) && RecordedMeansPaid(w.db)
  }

  /** What a task remembers from its own reads is still true. */
  ghost predicate Sound(stripe: Stripe, db: Db, t: Task) {
    && Fits(db, t)
    && match t
       case Received(e) => Truthful(stripe, e)
       case FindingRefunded(e) => Truthful(stripe, e)
       case Remembering(_, o) => o != Recorded && o != PaymentFailed
       case Marking(_, _, _, o) => o != Recorded && o != PaymentFailed
       case CheckingDecline(m, s, pi) => IsOf(stripe, m, s.id, pi)
       case Declining(m, s, pi) => IsOf(stripe, m, s, pi)
       case Confirming(s, m) => IsPaidAt(stripe, s) && MetaFits(m, s)
       case FindingPayment(s, m, c) => IsPaidAt(stripe, s) && MetaFits(m, s) && SameTerms(db, s, c)
       case Committing(s, m, c) => IsPaidAt(stripe, s) && MetaFits(m, s) && SameTerms(db, s, c) && Matches(s, c)
       case Syncing(p, list, _, _) =>
         && db.payments[p].intent.Some?
         && forall k :: 0 <= k < |list| ==> Made(stripe, db.payments[p].intent.value, list[k].id, list[k].amount)
       case SyncingOne(p, r, list, _, _) =>
         && db.payments[p].intent.Some?
         && Made(stripe, db.payments[p].intent.value, r.id, r.amount)
         && forall k :: 0 <= k < |list| ==> Made(stripe, db.payments[p].intent.value, list[k].id, list[k].amount)
       case RecordingRefund(p, r, _) =>
         db.payments[p].intent.Some? && Made(stripe, db.payments[p].intent.value, r.id, r.amount)
       case _ => true
  }

  ghost predicate IsOf(stripe: Stripe, m: Meta, s: SessionId, pi: IntentId) {
    m.intent == Some(pi) && pi in stripe.sessionOf && stripe.sessionOf[pi] == s
  }

  ghost predicate MetaFits(m: Option<Meta>, s: Session) {
    m.Some? && m.value.intent.Some? ==> m.value.intent == s.intent
  }

  ghost predicate SameAsked(c: CheckoutRow, d: CheckoutRow) {
    c.amount == d.amount && c.currency == d.currency && c.request == d.request
  }

  ghost predicate SameTerms(db: Db, s: Session, c: CheckoutRow) {
    s.id in db.checkouts && SameAsked(db.checkouts[s.id], c)
  }

  ghost predicate Inv(w: World) {
    && Coherent(w.stripe) && Safe(w) && DeclinesAreKnown(w.stripe, w.db)
    && forall k :: 0 <= k < |w.tasks| ==> Sound(w.stripe, w.db, w.tasks[k])
  }

  // ---------------------------------------------------------------- the tables only grow

  ghost predicate DbGrows(was: Db, now: Db) {
    && (forall s :: s in was.checkouts ==> s in now.checkouts && SameAsked(was.checkouts[s], now.checkouts[s]))
    && was.payments <= now.payments
  }

  lemma NextGrows(db: Db, stripe: Stripe, t: Task)
    requires Fits(db, t)
    ensures DbGrows(db, Next(db, stripe, t).0)
  {
  }

  lemma SoundPersists(was: Stripe, db: Db, now: Stripe, db': Db, t: Task)
    requires Sound(was, db, t) && DbGrows(db, db') && (now == was || Grows(was, now))
    ensures Sound(now, db', t)
  {
  }

  lemma RightPersists(was: Stripe, db: Db, now: Stripe, db': Db)
    requires DbGrows(db, db') && (now == was || Grows(was, now))
    ensures forall k :: 0 <= k < |db.payments| && PaymentIsRight(was, db, db.payments[k]) ==>
              PaymentIsRight(now, db', db'.payments[k])
    ensures forall r: RefundRow :: RefundIsRight(was, db, r) ==> RefundIsRight(now, db', r)
  {
  }

  lemma MoneyPersists(was: Stripe, db: Db, now: Stripe, db1: Db)
    requires DbGrows(db, db1) && (now == was || Grows(was, now)) && db1.refunds == db.refunds
    requires PaymentsAreRight(was, db) && RefundsAreRight(was, db)
    ensures db1.payments == db.payments ==> PaymentsAreRight(now, db1)
    ensures RefundsAreRight(now, db1)
  {
    RightPersists(was, db, now, db1);
    forall k | 0 <= k < |db1.refunds| ensures RefundIsRight(now, db1, db1.refunds[k]) {
      assert RefundIsRight(was, db, db.refunds[k]);
    }
  }

  lemma RecordedPersists(db: Db, db1: Db)
    requires RecordedMeansPaid(db) && db.payments <= db1.payments
    requires forall id | id in db1.events && db1.events[id].outcome == Recorded && db1.events[id].intent.Some? ::
               || (id in db.events && db.events[id] == db1.events[id])
               || exists k :: 0 <= k < |db1.payments| && db1.payments[k].intent == db1.events[id].intent
    ensures RecordedMeansPaid(db1)
  {
    forall id | id in db1.events && db1.events[id].outcome == Recorded && db1.events[id].intent.Some?
      ensures exists k :: 0 <= k < |db1.payments| && db1.payments[k].intent == db1.events[id].intent
    {
      if id in db.events && db.events[id] == db1.events[id] {
        var k :| 0 <= k < |db.payments| && db.payments[k].intent == db.events[id].intent;
        assert db1.payments[k] == db.payments[k];
      }
    }
  }

  // ---------------------------------------------------------------- one task's step

  lemma NextSound(stripe: Stripe, db: Db, t: Task)
    requires Coherent(stripe) && Sound(stripe, db, t)
    ensures var (db1, t1) := Next(db, stripe, t); Sound(stripe, db1, t1)
  {
    if t.Listing? {
      ListingSound(stripe, db, t);
    } else if t.Received? || t.FindingRefunded? {
      DispatchSound(stripe, db, t);
    } else if CheckoutRuns.IsOnPayment(t) {
      OnPaymentSound(stripe, db, t);
    } else {
      OtherSound(stripe, db, t);
    }
  }

  lemma OnPaymentSound(stripe: Stripe, db: Db, t: Task)
    requires Sound(stripe, db, t) && CheckoutRuns.IsOnPayment(t) && !t.Listing?
    ensures var (db1, t1) := Next(db, stripe, t); Sound(stripe, db1, t1)
  {
    NextGrows(db, stripe, t);
  }

  lemma DispatchSound(stripe: Stripe, db: Db, t: Task)
    requires Coherent(stripe) && Sound(stripe, db, t) && (t.Received? || t.FindingRefunded?)
    ensures var (db1, t1) := Next(db, stripe, t); Sound(stripe, db1, t1)
  {
  }

  lemma ListingSound(stripe: Stripe, db: Db, t: Task)
    requires Sound(stripe, db, t) && t.Listing?
    ensures var (db1, t1) := Next(db, stripe, t); Sound(stripe, db1, t1)
  {
    if Next(db, stripe, t).1.Syncing? {
      ListedIsMade(stripe, db.payments[t.payment].intent.value);
    }
  }

  lemma OtherSound(stripe: Stripe, db: Db, t: Task)
    requires Coherent(stripe) && Sound(stripe, db, t) && !CheckoutRuns.IsOnPayment(t) && !t.Received? && !t.FindingRefunded?
    ensures var (db1, t1) := Next(db, stripe, t); Sound(stripe, db1, t1)
  {
    NextGrows(db, stripe, t);
  }

  lemma ListedIsMade(stripe: Stripe, i: IntentId)
    ensures var list := stripe.RefundsOf(i); forall k :: 0 <= k < |list| ==> Made(stripe, i, list[k].id, list[k].amount)
  {
  }

  /** The parts of a transaction that touch no money: events other than a payment's or a decline's, and status. */
  ghost predicate Quiet(db: Db, db1: Db) {
    && db1.payments == db.payments && db1.refunds == db.refunds
    && db1.checkouts.Keys == db.checkouts.Keys
    && (forall s :: s in db.checkouts ==>
          SameAsked(db.checkouts[s], db1.checkouts[s]) && db1.checkouts[s].failureCount == db.checkouts[s].failureCount)
    && (forall id :: id in db.events ==> id in db1.events && db1.events[id] == db.events[id])
    && (forall id :: id in db1.events && id !in db.events ==>
          db1.events[id].outcome != Recorded && db1.events[id].outcome != PaymentFailed)
  }

  lemma QuietKeeps(w: World, db1: Db)
    requires Inv(w) && Quiet(w.db, db1)
    ensures Safe(w.(db := db1)) && DeclinesAreKnown(w.stripe, db1)
  {
    MoneyPersists(w.stripe, w.db, w.stripe, db1);
    RecordedPersists(w.db, db1);
    forall s | s in db1.checkouts ensures Declines(w.stripe, db1, s) == Declines(w.stripe, w.db, s) {}
  }

  lemma CommitKeeps(w: World, s: Session, m: Option<Meta>, c: CheckoutRow)
    requires Inv(w) && Sound(w.stripe, w.db, Committing(s, m, c))
    ensures var db1 := TxConfirm(w.db, m, s, c).0; Safe(w.(db := db1)) && DeclinesAreKnown(w.stripe, db1)
  {
    var (db1, o) := TxConfirm(w.db, m, s, c);
    if o == Recorded {
      MoneyPersists(w.stripe, w.db, w.stripe, db1);
      CommitIsRight(w.stripe, w.db, s, m, c);
      forall x | x in db1.checkouts ensures Declines(w.stripe, db1, x) == Declines(w.stripe, w.db, x) {}
      assert db1.payments[|w.db.payments|].intent == s.intent;
      RecordedPersists(w.db, db1);
    }
  }

  /** The row a confirmation writes: Stripe's money for the checkout, and the first of its session and intent. */
  lemma CommitIsRight(stripe: Stripe, db: Db, s: Session, m: Option<Meta>, c: CheckoutRow)
    requires PaymentsAreRight(stripe, db) && Sound(stripe, db, Committing(s, m, c))
    ensures PaymentsAreRight(stripe, TxConfirm(db, m, s, c).0)
  {
    var (db1, o) := TxConfirm(db, m, s, c);
    if o == Recorded {
      RightPersists(stripe, db, stripe, db1);
      assert PaymentIsRight(stripe, db1, db1.payments[|db.payments|]);
    }
  }

  lemma DeclineKeeps(w: World, m: Meta, s: SessionId, pi: IntentId)
    requires Inv(w) && Sound(w.stripe, w.db, Declining(m, s, pi))
    ensures var db1 := TxDecline(w.db, m, s, pi).0; Safe(w.(db := db1)) && DeclinesAreKnown(w.stripe, db1)
  {
    var (db1, o) := TxDecline(w.db, m, s, pi);
    if m.id !in w.db.events {
      MoneyPersists(w.stripe, w.db, w.stripe, db1);
      RecordedPersists(w.db, db1);
      DeclineIsCounted(w.stripe, w.db, m, s, pi);
    }
  }

  lemma DeclinesGrow(stripe: Stripe, db: Db, db1: Db, id: EventId, s: SessionId, pi: IntentId)
    requires id !in db.events && db1.events == db.events[id := EventRow(PaymentFailed, Some(pi))]
    requires pi in stripe.sessionOf && stripe.sessionOf[pi] == s
    ensures |Declines(stripe, db1, s)| == |Declines(stripe, db, s)| + 1
    ensures forall x :: x != s ==> Declines(stripe, db1, x) == Declines(stripe, db, x)
  {
    assert Declines(stripe, db1, s) == Declines(stripe, db, s) + {id};
    forall x | x != s ensures Declines(stripe, db1, x) == Declines(stripe, db, x) {}
  }

  lemma DeclineIsCounted(stripe: Stripe, db: Db, m: Meta, s: SessionId, pi: IntentId)
    requires DeclinesAreCounted(stripe, db) && DeclinesAreKnown(stripe, db)
    requires s in db.checkouts && IsOf(stripe, m, s, pi) && m.id !in db.events
    ensures var db1 := TxDecline(db, m, s, pi).0; DeclinesAreCounted(stripe, db1) && DeclinesAreKnown(stripe, db1)
  {
    var db1 := TxDecline(db, m, s, pi).0;
    assert db1.events == db.events[m.id := EventRow(PaymentFailed, Some(pi))];
    DeclinesGrow(stripe, db, db1, m.id, s, pi);
    forall x | x in db1.checkouts ensures db1.checkouts[x].failureCount == |Declines(stripe, db1, x)| {
      if x != s {
        assert db1.checkouts[x] == db.checkouts[x];
      }
    }
  }

  /** What a refund transaction writes is one true row, and only when the refund had none. */
  lemma RefundKeeps(w: World, m: Option<Meta>, p: nat, r: RefundFacts)
    requires Inv(w) && p < |w.db.payments| && w.db.payments[p].intent.Some?
    requires Made(w.stripe, w.db.payments[p].intent.value, r.id, r.amount)
    ensures var db1 := CheckoutDb.RecordRefund(w.db, m, p, r).0; Safe(w.(db := db1)) && DeclinesAreKnown(w.stripe, db1)
  {
    var db1 := CheckoutDb.RecordRefund(w.db, m, p, r).0;
    var db0 := db1.(refunds := w.db.refunds);
    RefundShape(w.db, m, p, r);
    QuietKeeps(w, db0);
    AddingRefundKeeps(w.(db := db0), db1.refunds);
  }

  lemma RefundShape(db: Db, m: Option<Meta>, p: nat, r: RefundFacts)
    ensures var db1 := CheckoutDb.RecordRefund(db, m, p, r).0;
            && Quiet(db, db1.(refunds := db.refunds))
            && (db1.refunds == db.refunds || (db1.refunds == db.refunds + [RefundRow(r.id, p, r.amount)] && !HasRefund(db.refunds, r.id)))
  {
  }

  lemma AddingRefundKeeps(w: World, rows: seq<RefundRow>)
    requires Safe(w) && DeclinesAreKnown(w.stripe, w.db)
    requires rows == w.db.refunds
          || (|rows| == |w.db.refunds| + 1 && rows[..|w.db.refunds|] == w.db.refunds
              && RefundIsRight(w.stripe, w.db, rows[|w.db.refunds|]) && !HasRefund(w.db.refunds, rows[|w.db.refunds|].refund))
    ensures Safe(w.(db := w.db.(refunds := rows))) && DeclinesAreKnown(w.stripe, w.db.(refunds := rows))
  {
    var db1 := w.db.(refunds := rows);
    RightPersists(w.stripe, w.db, w.stripe, db1);
    forall x | x in db1.checkouts ensures Declines(w.stripe, db1, x) == Declines(w.stripe, w.db, x) {}
    forall k | 0 <= k < |rows| ensures RefundIsRight(w.stripe, db1, rows[k]) {
      assert k < |w.db.refunds| ==> rows[k] == w.db.refunds[k];
    }
    forall j, k | 0 <= j < k < |rows| ensures rows[j].refund != rows[k].refund {
      assert rows[j] == w.db.refunds[j];
      assert k < |w.db.refunds| ==> rows[k] == w.db.refunds[k];
    }
  }

  lemma NextKeeps(w: World, t: Task)
    requires Inv(w) && Sound(w.stripe, w.db, t)
    ensures var db1 := Next(w.db, w.stripe, t).0; Safe(w.(db := db1)) && DeclinesAreKnown(w.stripe, db1)
  {
    match t {
      case Committing(s, m, c) => CommitKeeps(w, s, m, c);
      case Declining(m, s, pi) => DeclineKeeps(w, m, s, pi);
      case SyncingOne(p, r, _, _, _) => RefundKeeps(w, None, p, r);
      case RecordingRefund(p, r, m) => RefundKeeps(w, Some(m), p, r);
      case _ =>
        QuietNextKeeps(w, t);
    }
  }

  lemma QuietNextKeeps(w: World, t: Task)
    requires Inv(w) && Sound(w.stripe, w.db, t) && !t.Committing? && !t.Declining? && !t.SyncingOne? && !t.RecordingRefund?
    ensures var db1 := Next(w.db, w.stripe, t).0; Safe(w.(db := db1)) && DeclinesAreKnown(w.stripe, db1)
  {
    QuietNext(w.db, w.stripe, t);
    QuietKeeps(w, Next(w.db, w.stripe, t).0);
  }

  lemma QuietNext(db: Db, stripe: Stripe, t: Task)
    requires Sound(stripe, db, t) && !t.Committing? && !t.Declining? && !t.SyncingOne? && !t.RecordingRefund?
    ensures Quiet(db, Next(db, stripe, t).0)
  {
  }

  // ---------------------------------------------------------------- every step, every run

  lemma GrowthKeeps(w: World, stripe: Stripe)
    requires Inv(w) && Grows(w.stripe, stripe)
    ensures Inv(w.(stripe := stripe))
  {
    MoneyPersists(w.stripe, w.db, stripe, w.db);
    forall s | s in w.db.checkouts ensures Declines(stripe, w.db, s) == Declines(w.stripe, w.db, s) {}
    forall k | 0 <= k < |w.tasks| ensures Sound(stripe, w.db, w.tasks[k]) {
      SoundPersists(w.stripe, w.db, stripe, w.db, w.tasks[k]);
    }
  }

  lemma OpeningKeeps(w: World, s: SessionId, c: CheckoutRow)
    requires Inv(w) && s !in w.db.checkouts && c.failureCount == 0
    ensures Inv(w.(db := w.db.(checkouts := w.db.checkouts[s := c])))
  {
    var db1 := w.db.(checkouts := w.db.checkouts[s := c]);
    MoneyPersists(w.stripe, w.db, w.stripe, db1);
    RecordedPersists(w.db, db1);
    forall x | x in db1.checkouts ensures Declines(w.stripe, db1, x) == Declines(w.stripe, w.db, x) {}
    assert Declines(w.stripe, db1, s) == {};
    forall k | 0 <= k < |w.tasks| ensures Sound(w.stripe, db1, w.tasks[k]) {
      SoundPersists(w.stripe, w.db, w.stripe, db1, w.tasks[k]);
    }
  }

  lemma ProceedingKeeps(w: World, w': World, k: nat)
    requires Inv(w) && Proceeds(w, w', k)
    ensures Inv(w')
  {
    var (db1, t1) := Next(w.db, w.stripe, w.tasks[k]);
    assert Sound(w.stripe, w.db, w.tasks[k]);
    NextKeeps(w, w.tasks[k]);
    NextSound(w.stripe, w.db, w.tasks[k]);
    NextGrows(w.db, w.stripe, w.tasks[k]);
    SafetyIsOfTables(w, w');
    forall j | 0 <= j < |w'.tasks| ensures Sound(w'.stripe, w'.db, w'.tasks[j]) {
      if j != k {
        SoundPersists(w.stripe, w.db, w.stripe, db1, w.tasks[j]);
      }
    }
  }

  lemma SafetyIsOfTables(w: World, w': World)
    requires w'.stripe == w.stripe
    ensures Safe(w.(db := w'.db)) <==> Safe(w')
  {
  }

  lemma TasksKeep(w: World, tasks: seq<Task>)
    requires Inv(w)
    requires forall k :: 0 <= k < |tasks| ==> tasks[k] in w.tasks || Sound(w.stripe, w.db, tasks[k])
    ensures Inv(w.(tasks := tasks))
  {
    SafetyIsOfTables(w, w.(tasks := tasks));
  }

  lemma StepKeeps(w: World, w': World)
    requires Inv(w) && Step(w, w')
    ensures Inv(w')
  {
    if w' == w.(stripe := w'.stripe) && Grows(w.stripe, w'.stripe) {
      GrowthKeeps(w, w'.stripe);
    } else if t: Task :| Starts(w, w', t) {
      TasksKeep(w, w'.tasks);
    } else if s: SessionId, c: CheckoutRow :| Opens(w, w', s, c) {
      OpeningKeeps(w, s, c);
    } else if k: nat :| Crashes(w, w', k) {
      TasksKeep(w, w'.tasks);
    } else {
      var k: nat :| Proceeds(w, w', k);
      ProceedingKeeps(w, w', k);
    }
  }

  /** Every state of every run is safe: no order, overlap, repetition, crash or sweep records money twice or wrongly. */
  lemma {:induction false} RunsAreSafe(run: seq<World>, n: nat)
    requires IsRun(run) && n < |run|
    ensures Inv(run[n]) && Safe(run[n])
  {
    if n == 0 {
      assert forall s :: Declines(run[0].stripe, run[0].db, s) == {};
    } else {
      RunsAreSafe(run, n - 1);
      assert Follows(run, n - 1);
      StepKeeps(run[n - 1], run[n]);
    }
  }
}
