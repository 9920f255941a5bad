/**
  * What a checkout's status says: over every run, which step it is the word of; when a
  * paid checkout reads complete; and what any order of deliveries leaves it as.
  */
module CheckoutStatus {
  import opened Options
  import opened CheckoutDb
  import opened CheckoutRuns
  import opened CheckoutSafety
  import opened CheckoutStranded
  import opened CheckoutOrder
  import CheckoutOpen

  ghost predicate HasPayment(rows: seq<PaymentRow>, s: SessionId) {
    exists k :: 0 <= k < |rows| && rows[k].session == s
  }

  // ---------------------------------------------------------------- the steps that say a status

  /** Task `k` was, at some earlier state, the delivery of this event. */
  ghost predicate CameFromEvent(run: seq<World>, j: nat, k: nat, e: Event) {
    exists i: nat :: i < j < |run| && k < |run[i].tasks| && run[i].tasks[k] == Received(e)
  }

  /** Task `k` has read this of session `s` from Stripe. */
  ghost predicate CameFromLook(run: seq<World>, j: nat, k: nat, s: SessionId, found: Session, reader: Reader) {
    exists i: nat :: i < j < |run| && LooksAt(run, i, k, s, found, reader)
  }

  ghost predicate LooksAt(run: seq<World>, i: nat, k: nat, s: SessionId, found: Session, reader: Reader) {
    && Moves(run, i, k) && run[i].tasks[k] == Looking(s, reader)
    && s in run[i].stripe.sessions && run[i].stripe.sessions[s] == found
  }

  /** The payment of session `s` is committed, or a task that found it there comes to the row. */
  ghost predicate PaysAt(run: seq<World>, j: nat, s: SessionId) {
    exists k: nat :: PaysBy(run, j, k, s)
  }

  ghost predicate PaysBy(run: seq<World>, j: nat, k: nat, s: SessionId) {
    && Moves(run, j, k)
    && ((run[j].tasks[k].Committing? && run[j].tasks[k].paid.id == s && |run[j + 1].db.payments| > |run[j].db.payments|)
        || (run[j].tasks[k].Completing? && run[j].tasks[k].session == s))
  }

  /** `open` writes what it made of an earlier session: complete of a complete one that is not paid, else expired. */
  ghost predicate ClosesAt(run: seq<World>, j: nat, s: SessionId, st: CheckoutStatus) {
    exists k: nat, found :: ClosesBy(run, j, k, s, found, st)
  }

  ghost predicate ClosesBy(run: seq<World>, j: nat, k: nat, s: SessionId, found: Session, st: CheckoutStatus) {
    && Moves(run, j, k) && run[j].tasks[k] == Closing(s, st, Opener) && CameFromLook(run, j, k, s, found, Opener)
    && !(found.status.StripeComplete? && found.paid) && st == if found.status.StripeComplete? then Complete else Expired
  }

  /** A delivery of the session's expiry or failure, or a sweep that found it expired, comes to the row. */
  ghost predicate MarksAt(run: seq<World>, j: nat, s: SessionId, st: CheckoutStatus) {
    exists k: nat :: MarksBy(run, j, k, s, st)
  }

  ghost predicate MarksBy(run: seq<World>, j: nat, k: nat, s: SessionId, st: CheckoutStatus) {
    && Moves(run, j, k) && s in run[j].db.checkouts
    && ((run[j].tasks[k].Marking? && run[j].tasks[k].session == s && run[j].tasks[k].status == st && FromItsEvent(run, j, k, s, st))
        || (run[j].tasks[k] == Closing(s, st, Sweeper) && st == Expired && FromAnExpired(run, j, k, s)))
  }

  ghost predicate FromItsEvent(run: seq<World>, j: nat, k: nat, s: SessionId, st: CheckoutStatus) {
    exists e :: CameFromEvent(run, j, k, e) && SaysOf(e, s) == Some(st)
  }

  ghost predicate FromAnExpired(run: seq<World>, j: nat, k: nat, s: SessionId) {
    exists found :: CameFromLook(run, j, k, s, found, Sweeper) && found.status.StripeExpired?
  }

  /** What an event says of a session whose payment did not come. */
  function SaysOf(e: Event, s: SessionId): Option<CheckoutStatus> {
    match e
    case SessionExpired(_, t) => if t == s then Some(Expired) else None
    case SessionFailed(_, t) => if t == s then Some(AsyncFailed) else None
    case _ => None
  }

  /** A step whose word stands whatever the row said before. */
  ghost predicate SetsAt(run: seq<World>, j: nat, s: SessionId, st: CheckoutStatus) {
    (st == Complete && PaysAt(run, j, s)) || ClosesAt(run, j, s, st)
  }

  ghost predicate SetAt(run: seq<World>, j: nat, s: SessionId) {
    exists st :: SetsAt(run, j, s, st)
  }

  ghost predicate MarkedAt(run: seq<World>, j: nat, s: SessionId) {
    exists st :: MarksAt(run, j, s, st)
  }

  ghost predicate IsLastSet(run: seq<World>, n: nat, j: nat, s: SessionId, st: CheckoutStatus) {
    j < n && SetsAt(run, j, s, st) && forall i :: j < i < n ==> !SetAt(run, i, s)
  }

  ghost predicate IsFirstMark(run: seq<World>, n: nat, j: nat, s: SessionId, st: CheckoutStatus) {
    j < n && MarksAt(run, j, s, st) && forall i :: 0 <= i < j ==> !MarkedAt(run, i, s)
  }

  ghost predicate NoneSet(run: seq<World>, n: nat, s: SessionId) {
    forall i :: 0 <= i < n ==> !SetAt(run, i, s)
  }

  ghost predicate NoneMarked(run: seq<World>, n: nat, s: SessionId) {
    forall i :: 0 <= i < n ==> !MarkedAt(run, i, s)
  }

  /** The status at state `n`: the last setting step's, else the first marking step's, else open. */
  ghost predicate StatusSays(run: seq<World>, n: nat, s: SessionId, st: CheckoutStatus) {
    || (exists j: nat :: IsLastSet(run, n, j, s, st))
    || (NoneSet(run, n, s) && exists j: nat :: IsFirstMark(run, n, j, s, st))
    || (NoneSet(run, n, s) && NoneMarked(run, n, s) && st == Open)
  }

  // ---------------------------------------------------------------- where a task's word comes from

  lemma BeforeStays(run: seq<World>, j: nat, k: nat)
    ensures forall e :: CameFromEvent(run, j, k, e) && j + 1 < |run| ==> CameFromEvent(run, j + 1, k, e)
    ensures forall s, found, reader :: CameFromLook(run, j, k, s, found, reader) && j + 1 < |run| ==> CameFromLook(run, j + 1, k, s, found, reader)
  {
  }

  lemma {:induction false} MarkingSays(run: seq<World>, n: nat, k: nat)
    requires IsRun(run) && n < |run| && k < |run[n].tasks| && run[n].tasks[k].Marking?
    ensures FromItsEvent(run, n, k, run[n].tasks[k].session, run[n].tasks[k].status)
    decreases n
  {
    var w, w', t := run[n - 1], run[n], run[n].tasks[k];
    StepAt(run, n - 1);
    if k >= |w.tasks| {
      NewTask(w, w', k);
    } else {
      OneTaskOn(w, w', k);
      BeforeStays(run, n - 1, k);
      if w.tasks[k] == t {
        MarkingSays(run, n - 1, k);
      } else {
        var e := MarkingIsDispatched(w.db, w.stripe, w.tasks[k]);
        assert CameFromEvent(run, n, k, e);
      }
    }
  }

  lemma MarkingIsDispatched(db: Db, stripe: Stripe, t: Task) returns (e: Event)
    requires CheckoutRuns.Fits(db, t) && Next(db, stripe, t).1.Marking?
    ensures t == Received(e) && SaysOf(e, Next(db, stripe, t).1.session) == Some(Next(db, stripe, t).1.status)
  {
    e := t.event;
  }

  ghost predicate ClosingFits(run: seq<World>, n: nat, k: nat, t: Task) {
    t.Closing? && exists found :: CameFromLook(run, n, k, t.session, found, t.reader) && LookAt(t.session, found, t.reader) == t
  }

  lemma {:induction false} ClosingSays(run: seq<World>, n: nat, k: nat)
    requires IsRun(run) && n < |run| && k < |run[n].tasks| && run[n].tasks[k].Closing?
    ensures ClosingFits(run, n, k, run[n].tasks[k])
    decreases n
  {
    var w, w', t := run[n - 1], run[n], run[n].tasks[k];
    StepAt(run, n - 1);
    if k >= |w.tasks| {
      NewTask(w, w', k);
    } else {
      OneTaskOn(w, w', k);
      BeforeStays(run, n - 1, k);
      if w.tasks[k] == t {
        ClosingSays(run, n - 1, k);
      } else {
        ClosingIsLooked(w.db, w.stripe, w.tasks[k]);
        assert LooksAt(run, n - 1, k, t.session, w.stripe.sessions[t.session], t.reader);
      }
    }
  }

  lemma ClosingIsLooked(db: Db, stripe: Stripe, t: Task)
    requires CheckoutRuns.Fits(db, t) && Next(db, stripe, t).1.Closing?
    ensures var t1 := Next(db, stripe, t).1;
            t == Looking(t1.session, t1.reader) && t1.session in stripe.sessions
            && LookAt(t1.session, stripe.sessions[t1.session], t1.reader) == t1
  {
  }

  /** Whoever comes to complete a row had found its payment. */
  lemma {:induction false} CompletingIsPaid(run: seq<World>, n: nat, k: nat)
    requires IsRun(run) && n < |run| && k < |run[n].tasks| && run[n].tasks[k].Completing?
    ensures HasPayment(run[n].db.payments, run[n].tasks[k].session)
    decreases n
  {
    var w, w', t := run[n - 1], run[n], run[n].tasks[k];
    StepAt(run, n - 1);
    PaymentsStep(w, w');
    if k >= |w.tasks| {
      NewTask(w, w', k);
    } else {
      OneTaskOn(w, w', k);
      if w.tasks[k] == t {
        CompletingIsPaid(run, n - 1, k);
      }
      assert HasPayment(w.db.payments, t.session) by {
        if w.tasks[k] != t {
          CompletingIsFound(w.db, w.stripe, w.tasks[k]);
        }
      }
      PaidStaysPaid(w.db.payments, w'.db.payments, t.session);
    }
  }

  lemma CompletingIsFound(db: Db, stripe: Stripe, t: Task)
    requires CheckoutRuns.Fits(db, t) && Next(db, stripe, t).1.Completing?
    ensures HasPayment(db.payments, Next(db, stripe, t).1.session)
  {
  }

  lemma PaidStaysPaid(was: seq<PaymentRow>, now: seq<PaymentRow>, s: SessionId)
    requires HasPayment(was, s) && was <= now
    ensures HasPayment(now, s)
  {
    var k :| 0 <= k < |was| && was[k].session == s;
    assert now[k] == was[k];
  }

  // ---------------------------------------------------------------- one step

  /** What one step of one task does to a checkout's status. */
  lemma NextStatus(db: Db, stripe: Stripe, t: Task, s: SessionId)
    requires CheckoutRuns.Fits(db, t) && s in db.checkouts
    ensures var db1 := Next(db, stripe, t).0;
            && s in db1.checkouts
            && var was, now := db.checkouts[s].status, db1.checkouts[s].status;
               && (t.Committing? && t.paid.id == s && |db1.payments| > |db.payments| ==> now == Complete)
               && (t.Completing? && t.session == s ==> now == Complete)
               && (t.Closing? && t.session == s && t.reader == Opener ==> now == t.status)
               && (((t.Closing? && t.reader == Sweeper) || t.Marking?) && t.session == s ==> now == if was == Open then t.status else was)
               && (now != was ==> (t.Committing? && t.paid.id == s && |db1.payments| > |db.payments|)
                                  || ((t.Completing? || t.Closing? || t.Marking?) && t.session == s))
  {
  }

  /** The three rules of a step, whatever step it is. */
  lemma StepSays(run: seq<World>, j: nat, s: SessionId)
    requires IsRun(run) && j + 1 < |run| && s in run[j].db.checkouts
    ensures s in run[j + 1].db.checkouts
    ensures var was, now := run[j].db.checkouts[s].status, run[j + 1].db.checkouts[s].status;
            && (forall st :: SetsAt(run, j, s, st) ==> now == st)
            && (!SetAt(run, j, s) ==> forall st :: MarksAt(run, j, s, st) && was == Open ==> now == st)
            && (!SetAt(run, j, s) && (was != Open || !MarkedAt(run, j, s)) ==> now == was)
  {
    var w, w' := run[j], run[j + 1];
    StepAt(run, j);
    forall k: nat | Moves(run, j, k) ensures MovesRight(run, j, k, s) {
      MoveSays(run, j, k, s);
    }
    if k: nat :| Proceeds(w, w', k) {
      assert Moves(run, j, k) && MovesRight(run, j, k, s);
    } else {
      assert w'.db.checkouts[s] == w.db.checkouts[s];
    }
  }

  ghost predicate MovesRight(run: seq<World>, j: nat, k: nat, s: SessionId)
    requires j + 1 < |run|
  {
    && s in run[j].db.checkouts && s in run[j + 1].db.checkouts
    && var was, now := run[j].db.checkouts[s].status, run[j + 1].db.checkouts[s].status;
       && (PaysBy(run, j, k, s) ==> now == Complete)
       && (forall found, st :: ClosesBy(run, j, k, s, found, st) ==> now == st)
       && (forall st :: MarksBy(run, j, k, s, st) ==> now == if was == Open then st else was)
       && (now != was ==> SetAt(run, j, s) || (was == Open && MarkedAt(run, j, s)))
  }

  lemma MoveSays(run: seq<World>, j: nat, k: nat, s: SessionId)
    requires IsRun(run) && Moves(run, j, k) && s in run[j].db.checkouts
    ensures MovesRight(run, j, k, s)
  {
    var t := run[j].tasks[k];
    NextStatus(run[j].db, run[j].stripe, t, s);
    if (t.Committing? && t.paid.id == s && |run[j + 1].db.payments| > |run[j].db.payments|) || (t.Completing? && t.session == s) {
      assert PaysBy(run, j, k, s);
      assert SetsAt(run, j, s, Complete);
    } else if t.Marking? && t.session == s {
      MarkingSays(run, j, k);
      assert MarksBy(run, j, k, s, t.status);
      assert MarksAt(run, j, s, t.status);
    } else if t.Closing? && t.session == s {
      ClosingIsSaid(run, j, k, s);
    }
  }

  lemma ClosingIsSaid(run: seq<World>, j: nat, k: nat, s: SessionId)
    requires IsRun(run) && Moves(run, j, k) && s in run[j].db.checkouts && run[j].tasks[k].Closing? && run[j].tasks[k].session == s
    ensures var t := run[j].tasks[k]; if t.reader == Opener then SetsAt(run, j, s, t.status) else MarksAt(run, j, s, t.status)
  {
    var t := run[j].tasks[k];
    ClosingSays(run, j, k);
    var found :| CameFromLook(run, j, k, s, found, t.reader) && LookAt(s, found, t.reader) == t;
    if t.reader == Opener {
      assert ClosesBy(run, j, k, s, found, t.status);
    } else {
      assert MarksBy(run, j, k, s, t.status);
    }
  }

  // ---------------------------------------------------------------- every run

  lemma SaidOnlyOfARow(run: seq<World>, j: nat, s: SessionId)
    requires SetAt(run, j, s) || MarkedAt(run, j, s)
    ensures j + 1 < |run| && s in run[j].db.checkouts
  {
    if SetAt(run, j, s) {
      var st :| SetsAt(run, j, s, st);
    }
  }

  lemma {:induction false} RowStays(run: seq<World>, m: nat, n: nat, s: SessionId)
    requires IsRun(run) && m <= n < |run| && s in run[m].db.checkouts
    ensures s in run[n].db.checkouts
    decreases n
  {
    if m < n {
      RowStays(run, m, n - 1, s);
      StepSays(run, n - 1, s);
    }
  }

  lemma NothingSaidYet(run: seq<World>, n: nat, s: SessionId)
    requires IsRun(run) && n < |run| && s !in run[n].db.checkouts
    ensures NoneSet(run, n + 1, s) && NoneMarked(run, n + 1, s)
  {
    forall i: nat | i <= n ensures !SetAt(run, i, s) && !MarkedAt(run, i, s) {
      if SetAt(run, i, s) || MarkedAt(run, i, s) {
        SaidOnlyOfARow(run, i, s);
        RowStays(run, i, n, s);
      }
    }
  }

  lemma NeverOpen(run: seq<World>, j: nat, s: SessionId)
    ensures !SetsAt(run, j, s, Open) && !MarksAt(run, j, s, Open)
  {
  }

  /**
    * Over every run a checkout's status is what the last step that set it says: the commit
    * of its payment, a task that found the payment, or `open` writing what it had read; else
    * what the first delivery or sweep says that came to the row; else it is open.
    */
  lemma {:induction false} StatusIsSaid(run: seq<World>, n: nat, s: SessionId)
    requires IsRun(run) && n < |run| && s in run[n].db.checkouts
    ensures StatusSays(run, n, s, run[n].db.checkouts[s].status)
    decreases n
  {
    var m := n - 1;
    StepAt(run, m);
    if s !in run[m].db.checkouts {
      NothingSaidYet(run, m, s);
      OnlyOpeningAdds(run[m], run[n], s);
    } else {
      StatusIsSaid(run, m, s);
      StepSays(run, m, s);
      StatusGoesOn(run, m, s);
    }
  }

  lemma OnlyOpeningAdds(w: World, w': World, s: SessionId)
    requires Step(w, w') && s !in w.db.checkouts && s in w'.db.checkouts
    ensures w'.db.checkouts[s].status == Open
  {
    if k: nat :| Proceeds(w, w', k) {
      NextAddsNone(w.db, w.stripe, w.tasks[k]);
    }
  }

  lemma NextAddsNone(db: Db, stripe: Stripe, t: Task)
    requires CheckoutRuns.Fits(db, t)
    ensures Next(db, stripe, t).0.checkouts.Keys == db.checkouts.Keys
  {
  }

  lemma StatusGoesOn(run: seq<World>, m: nat, s: SessionId)
    requires m + 1 < |run| && s in run[m].db.checkouts && s in run[m + 1].db.checkouts
    requires var was, now := run[m].db.checkouts[s].status, run[m + 1].db.checkouts[s].status;
             && StatusSays(run, m, s, was)
             && (forall st :: SetsAt(run, m, s, st) ==> now == st)
             && (!SetAt(run, m, s) ==> forall st :: MarksAt(run, m, s, st) && was == Open ==> now == st)
             && (!SetAt(run, m, s) && (was != Open || !MarkedAt(run, m, s)) ==> now == was)
    ensures StatusSays(run, m + 1, s, run[m + 1].db.checkouts[s].status)
  {
    var was := run[m].db.checkouts[s].status;
    if SetAt(run, m, s) {
      SetNow(run, m, s);
    } else if j: nat :| IsLastSet(run, m, j, s, was) {
      NeverOpen(run, j, s);
      assert IsLastSet(run, m + 1, j, s, was);
    } else if j: nat :| IsFirstMark(run, m, j, s, was) {
      NeverOpen(run, j, s);
      assert IsFirstMark(run, m + 1, j, s, was);
    } else if MarkedAt(run, m, s) {
      MarkedNow(run, m, s);
    }
  }

  lemma SetNow(run: seq<World>, m: nat, s: SessionId)
    requires SetAt(run, m, s) && m + 1 < |run| && s in run[m + 1].db.checkouts
    requires forall st :: SetsAt(run, m, s, st) ==> run[m + 1].db.checkouts[s].status == st
    ensures StatusSays(run, m + 1, s, run[m + 1].db.checkouts[s].status)
  {
    var st :| SetsAt(run, m, s, st);
    assert IsLastSet(run, m + 1, m, s, st);
  }

  lemma MarkedNow(run: seq<World>, m: nat, s: SessionId)
    requires MarkedAt(run, m, s) && NoneSet(run, m, s) && NoneMarked(run, m, s) && !SetAt(run, m, s)
    requires m + 1 < |run| && s in run[m + 1].db.checkouts
    requires forall st :: MarksAt(run, m, s, st) ==> run[m + 1].db.checkouts[s].status == st
    ensures StatusSays(run, m + 1, s, run[m + 1].db.checkouts[s].status)
  {
    var st :| MarksAt(run, m, s, st);
    assert IsFirstMark(run, m + 1, m, s, st);
  }

  // ---------------------------------------------------------------- a paid checkout

  /** The commit of a payment, if it is there. */
  lemma {:induction false} PaymentWasCommitted(run: seq<World>, n: nat, s: SessionId) returns (j: nat)
    requires IsRun(run) && n < |run| && HasPayment(run[n].db.payments, s)
    ensures j < n && PaysAt(run, j, s) && HasPayment(run[j + 1].db.payments, s)
    decreases n
  {
    var w, w' := run[n - 1], run[n];
    StepAt(run, n - 1);
    if HasPayment(w.db.payments, s) {
      j := PaymentWasCommitted(run, n - 1, s);
    } else {
      j := n - 1;
      var i :| 0 <= i < |w'.db.payments| && w'.db.payments[i].session == s;
      var k: nat :| Proceeds(w, w', k);
      OnlyCommitsPay(w.db, w.stripe, w.tasks[k]);
      assert i >= |w.db.payments|;
      assert PaysBy(run, j, k, s);
    }
  }

  lemma OnlyCommitsPay(db: Db, stripe: Stripe, t: Task)
    requires CheckoutRuns.Fits(db, t)
    ensures var db1 := Next(db, stripe, t).0;
            && db.payments <= db1.payments
            && (|db1.payments| > |db.payments| ==>
                  t.Committing? && |db1.payments| == |db.payments| + 1 && db1.payments[|db.payments|].session == t.paid.id)
  {
    NextGrows(db, stripe, t);
  }

  /** `open` wrote the row expired, and nobody has come to its payment since. */
  ghost predicate ExpiredLast(run: seq<World>, n: nat, s: SessionId) {
    exists j: nat :: j < n && ClosesAt(run, j, s, Expired) && forall i :: j < i < n ==> !SetAt(run, i, s)
  }

  /** A paid checkout reads complete if and only if `open` was not the last to write it, as expired. */
  lemma PaidReadsCompleteIff(run: seq<World>, n: nat, s: SessionId)
    requires IsRun(run) && n < |run| && s in run[n].db.checkouts && HasPayment(run[n].db.payments, s)
    ensures run[n].db.checkouts[s].status == Complete <==> !ExpiredLast(run, n, s)
  {
    var st := run[n].db.checkouts[s].status;
    var p := PaymentWasCommitted(run, n, s);
    assert SetsAt(run, p, s, Complete);
    assert SetAt(run, p, s);
    StatusIsSaid(run, n, s);
    var j: nat :| IsLastSet(run, n, j, s, st);
    if ExpiredLast(run, n, s) {
      var i: nat :| i < n && ClosesAt(run, i, s, Expired) && forall x :: i < x < n ==> !SetAt(run, x, s);
      assert SetsAt(run, i, s, Expired);
      assert SetAt(run, i, s) && SetAt(run, j, s);
      RowWasThere(run, j, s);
      StepSays(run, j, s);
    }
  }

  lemma RowWasThere(run: seq<World>, j: nat, s: SessionId)
    requires SetAt(run, j, s)
    ensures j + 1 < |run| && s in run[j].db.checkouts
  {
    SaidOnlyOfARow(run, j, s);
  }

  /** So with webhooks and sweeps alone, and with every `open` that wrote before the payment's commit, it does. */
  lemma PaidIsComplete(run: seq<World>, n: nat, s: SessionId)
    requires IsRun(run) && n < |run| && s in run[n].db.checkouts && HasPayment(run[n].db.payments, s)
    requires forall j: nat :: j < n && ClosesAt(run, j, s, Expired) ==> !HasPayment(run[j].db.payments, s)
    ensures run[n].db.checkouts[s].status == Complete
  {
    PaidReadsCompleteIff(run, n, s);
    if ExpiredLast(run, n, s) {
      var j: nat :| j < n && ClosesAt(run, j, s, Expired) && forall i :: j < i < n ==> !SetAt(run, i, s);
      var p := PaymentWasCommitted(run, n, s);
      assert SetsAt(run, p, s, Complete);
      assert SetsAt(run, j, s, Expired);
      assert SetAt(run, p, s) && SetAt(run, j, s);
      RowWasThere(run, j, s);
      if p == j {
        StepSays(run, j, s);
      } else {
        PaidLater(run, p + 1, j, s);
      }
    }
  }

  lemma PaidLater(run: seq<World>, m: nat, n: nat, s: SessionId)
    requires IsRun(run) && m <= n < |run| && HasPayment(run[m].db.payments, s)
    ensures HasPayment(run[n].db.payments, s)
  {
    PaymentsGrow(run, m, n);
    PaidStaysPaid(run[m].db.payments, run[n].db.payments, s);
  }

  /** Without a payment, and where `open` wrote nothing, it is open, or what the first delivery or sweep says of it. */
  lemma UnpaidIsAsTold(run: seq<World>, n: nat, s: SessionId)
    requires IsRun(run) && n < |run| && s in run[n].db.checkouts && !HasPayment(run[n].db.payments, s)
    requires forall j: nat, st :: j < n ==> !ClosesAt(run, j, s, st)
    ensures var st := run[n].db.checkouts[s].status;
            (NoneMarked(run, n, s) && st == Open) || exists j: nat :: IsFirstMark(run, n, j, s, st)
  {
    StatusIsSaid(run, n, s);
    forall j: nat | j < n ensures !SetAt(run, j, s) {
      if PaysAt(run, j, s) {
        PayingIsPaid(run, j, s);
        PaymentsGrow(run, j + 1, n);
        PaidStaysPaid(run[j + 1].db.payments, run[n].db.payments, s);
      }
      assert forall st :: !SetsAt(run, j, s, st);
    }
    assert forall j: nat, st :: IsLastSet(run, n, j, s, st) ==> SetAt(run, j, s);
  }

  lemma PayingIsPaid(run: seq<World>, j: nat, s: SessionId)
    requires IsRun(run) && PaysAt(run, j, s)
    ensures j + 1 < |run| && HasPayment(run[j + 1].db.payments, s)
  {
    var k: nat :| PaysBy(run, j, k, s);
    var t := run[j].tasks[k];
    OnlyCommitsPay(run[j].db, run[j].stripe, t);
    if t.Completing? {
      CompletingIsPaid(run, j, k);
      PaidStaysPaid(run[j].db.payments, run[j + 1].db.payments, s);
    } else {
      assert run[j + 1].db.payments[|run[j].db.payments|].session == s;
    }
  }

  // ---------------------------------------------------------------- any order of deliveries

  /** What the events say of a session, the first that says anything. */
  function FirstSaid(es: seq<Event>, s: SessionId, was: CheckoutStatus): CheckoutStatus {
    if es == [] then was
    else
      var before := FirstSaid(es[..|es| - 1], s, was);
      if before == Open && SaysOf(es[|es| - 1], s).Some? then SaysOf(es[|es| - 1], s).value else before
  }

  /** Nothing is said of `s`, or only that it is complete and paid. */
  ghost predicate PaysOrLeaves(db: Db, db1: Db, s: SessionId)
    requires s in db.checkouts
  {
    && s in db1.checkouts && db.payments <= db1.payments
    && (HasPayment(db.payments, s) && db.checkouts[s].status == Complete ==> db1.checkouts[s].status == Complete)
    && (HasPayment(db1.payments, s) && !HasPayment(db.payments, s) ==> db1.checkouts[s].status == Complete)
    && (!HasPayment(db1.payments, s) ==> db1.checkouts[s].status == db.checkouts[s].status)
  }

  lemma ConfirmSays(db: Db, stripe: Stripe, session: Session, meta: Option<Meta>, s: SessionId)
    requires s in db.checkouts
    ensures PaysOrLeaves(db, CheckoutDb.Confirm(db, stripe, session, meta).0, s)
  {
    if session.id in db.checkouts {
      var (db1, o) := TxConfirm(db, WithIntent(meta, session), session, db.checkouts[session.id]);
      if o == Recorded {
        CheckoutOpen.SyncKeepsRows(db1, stripe, |db.payments|);
        assert db1.payments[|db.payments|].session == session.id;
      }
      if PaymentOfSession(db.payments, session.id).Some? {
        var k := PaymentOfSession(db.payments, session.id).value;
        assert db.payments[k].session == session.id;
      }
    }
  }

  lemma ChargeLeaves(db: Db, stripe: Stripe, e: Event, s: SessionId)
    requires e.ChargeRefunded? && s in db.checkouts
    ensures PaysOrLeaves(db, OnCharge(db, stripe, e).0, s)
  {
    if e.charged.Some? && PaymentOfIntent(db.payments, e.charged.value).Some? {
      CheckoutOpen.SyncEachKeepsRows(db, PaymentOfIntent(db.payments, e.charged.value).value, stripe.RefundsOf(e.charged.value));
    }
  }

  lemma EventSays(db: Db, stripe: Stripe, e: Event, s: SessionId)
    requires s in db.checkouts && e.id !in db.events && !e.SessionExpired? && !e.SessionFailed?
    ensures PaysOrLeaves(db, CheckoutDb.HandleEvent(db, stripe, e).0, s)
  {
    match e {
      case SessionSettled(_, found) =>
        if found.paid {
          ConfirmSays(db, stripe, found, Some(MetaOf(e)), s);
        }
      case IntentSucceeded(_, pi, _) =>
        if stripe.SessionOfIntent(pi).Some? {
          ConfirmSays(db, stripe, stripe.SessionOfIntent(pi).value, Some(MetaOf(e)), s);
        }
      case ChargeRefunded(_, _) => ChargeLeaves(db, stripe, e, s);
      case IntentFailed(_, _, _) =>
      case RefundChanged(_, _) =>
      case OtherEvent(_) =>
    }
  }

  lemma MarkSays(db: Db, stripe: Stripe, e: Event, s: SessionId)
    requires s in db.checkouts && e.id !in db.events && (e.SessionExpired? || e.SessionFailed?)
    ensures var db1 := CheckoutDb.HandleEvent(db, stripe, e).0;
            && s in db1.checkouts && db1.payments == db.payments
            && db1.checkouts[s].status
               == if db.checkouts[s].status == Open && SaysOf(e, s).Some? then SaysOf(e, s).value else db.checkouts[s].status
  {
  }

  lemma FirstSaidStep(es: seq<Event>, e: Event, s: SessionId, was: CheckoutStatus)
    ensures var before := FirstSaid(es, s, was);
            FirstSaid(es + [e], s, was) == if before == Open && SaysOf(e, s).Some? then SaysOf(e, s).value else before
  {
    assert (es + [e])[..|es|] == es;
  }

  lemma {:induction false} SaidBefore(es: seq<Event>, e: Event, s: SessionId, was: CheckoutStatus)
    requires e in es
    ensures FirstSaid(es, s, was) == Open ==> SaysOf(e, s).None?
    decreases |es|
  {
    var front, last := es[..|es| - 1], es[|es| - 1];
    if e in front {
      SaidBefore(front, e, s, was);
    } else {
      assert e == last;
    }
  }

  /** An event that comes again, or after another said something, changes nothing. */
  ghost predicate NamesApart(es: seq<Event>) {
    forall j, k :: 0 <= j < |es| && 0 <= k < |es| && es[j].id == es[k].id ==> es[j] == es[k]
  }

  ghost predicate NotedAll(db: Db, es: seq<Event>) {
    forall id :: id in db.events ==> exists e :: e in es && e.id == id
  }

  /** After any order of deliveries: every paid checkout complete, every other as the first event of it says. */
  lemma {:induction false} DeliveriesSay(c0: map<SessionId, CheckoutRow>, stripe: Stripe, es: seq<Event>, s: SessionId)
    requires s in c0 && NamesApart(es)
    ensures var db := Deliver(Fresh(c0), stripe, es);
            && s in db.checkouts && NotedAll(db, es)
            && (HasPayment(db.payments, s) ==> db.checkouts[s].status == Complete)
            && (!HasPayment(db.payments, s) ==> db.checkouts[s].status == FirstSaid(es, s, c0[s].status))
    decreases |es|
  {
    if es != [] {
      var front, e := es[..|es| - 1], es[|es| - 1];
      assert es == front + [e];
      DeliveriesSay(c0, stripe, front, s);
      DeliverySays(c0, stripe, front, e, s);
    }
  }

  lemma DeliverySays(c0: map<SessionId, CheckoutRow>, stripe: Stripe, front: seq<Event>, e: Event, s: SessionId)
    requires s in c0 && NamesApart(front + [e])
    requires var db := Deliver(Fresh(c0), stripe, front);
             && s in db.checkouts && NotedAll(db, front)
             && (HasPayment(db.payments, s) ==> db.checkouts[s].status == Complete)
             && (!HasPayment(db.payments, s) ==> db.checkouts[s].status == FirstSaid(front, s, c0[s].status))
    ensures var db1 := CheckoutDb.HandleEvent(Deliver(Fresh(c0), stripe, front), stripe, e).0;
            && s in db1.checkouts && NotedAll(db1, front + [e])
            && (HasPayment(db1.payments, s) ==> db1.checkouts[s].status == Complete)
            && (!HasPayment(db1.payments, s) ==> db1.checkouts[s].status == FirstSaid(front + [e], s, c0[s].status))
  {
    var db := Deliver(Fresh(c0), stripe, front);
    var db1 := CheckoutDb.HandleEvent(db, stripe, e).0;
    FirstSaidStep(front, e, s, c0[s].status);
    NotesItsOwn(db, stripe, front, e);
    if e.id in db.events {
      var f :| f in front && f.id == e.id;
      assert f == e by {
        var j :| 0 <= j < |front| && front[j] == f;
        assert (front + [e])[j].id == (front + [e])[|front|].id;
      }
      SaidBefore(front, e, s, c0[s].status);
    } else if e.SessionExpired? || e.SessionFailed? {
      MarkSays(db, stripe, e, s);
    } else {
      EventSays(db, stripe, e, s);
      if HasPayment(db.payments, s) {
        PaidStaysPaid(db.payments, db1.payments, s);
      }
    }
  }

  lemma NotesItsOwn(db: Db, stripe: Stripe, es: seq<Event>, e: Event)
    requires NotedAll(db, es)
    ensures NotedAll(CheckoutDb.HandleEvent(db, stripe, e).0, es + [e])
  {
    var db1 := CheckoutDb.HandleEvent(db, stripe, e).0;
    EventsOfOne(db, stripe, e);
    forall id | id in db1.events ensures exists f :: f in es + [e] && f.id == id {
      if id in db.events {
        var f :| f in es && f.id == id;
        assert f in es + [e];
      } else {
        assert e in es + [e] && e.id == id;
      }
    }
  }

  lemma EventsOfOne(db: Db, stripe: Stripe, e: Event)
    ensures forall id :: id in CheckoutDb.HandleEvent(db, stripe, e).0.events ==> id in db.events || id == e.id
  {
    if e.ChargeRefunded? && e.charged.Some? && PaymentOfIntent(db.payments, e.charged.value).Some? {
      SyncNotes(db, PaymentOfIntent(db.payments, e.charged.value).value, stripe.RefundsOf(e.charged.value));
    } else if e.SessionSettled? {
      ConfirmNotes(db, stripe, e.session, Some(MetaOf(e)));
    } else if e.IntentSucceeded? && stripe.SessionOfIntent(e.pi).Some? {
      ConfirmNotes(db, stripe, stripe.SessionOfIntent(e.pi).value, Some(MetaOf(e)));
    }
  }

  lemma ConfirmNotes(db: Db, stripe: Stripe, s: Session, m: Option<Meta>)
    requires m.Some?
    ensures forall id :: id in CheckoutDb.Confirm(db, stripe, s, m).0.events ==> id in db.events || id == m.value.id
  {
    if s.id in db.checkouts {
      var (db1, o) := TxConfirm(db, WithIntent(m, s), s, db.checkouts[s.id]);
      if o == Recorded && db1.payments[|db.payments|].intent.Some? {
        SyncNotes(db1, |db.payments|, stripe.RefundsOf(db1.payments[|db.payments|].intent.value));
      }
    }
  }

  lemma {:induction false} SyncNotes(db: Db, p: nat, list: seq<RefundFacts>)
    requires p < |db.payments|
    ensures SyncEach(db, p, list).0.events == db.events
    decreases |list|
  {
    if list != [] {
      var r, rest := list[|list| - 1], list[..|list| - 1];
      SyncNotes(db, p, rest);
      SyncNotes(CheckoutDb.RecordRefund(db, None, p, r).0, p, rest);
    }
  }

  /** So in an order NothingIsLost speaks of, a checkout ends complete if and only if its session was confirmed, or it began so. */
  lemma CompleteIffConfirmed(stripe: Stripe, c0: map<SessionId, CheckoutRow>, events: set<Event>, es: seq<Event>, s: SessionId)
    requires Settled(stripe, c0, events) && Events(es) <= events && s in c0 && c0[s].status == Open
    ensures var db := Deliver(Fresh(c0), stripe, es);
            && s in db.checkouts
            && db.checkouts[s].status == if IsConfirmed(stripe, c0, Events(es), s) then Complete else FirstSaid(es, s, Open)
  {
    forall j, k | 0 <= j < |es| && 0 <= k < |es| && es[j].id == es[k].id ensures es[j] == es[k] {
      assert es[j] in Events(es) && es[k] in Events(es);
    }
    DeliveriesSay(c0, stripe, es, s);
    NothingIsLost(stripe, c0, events, es);
    var db := Deliver(Fresh(c0), stripe, es);
    if IsConfirmed(stripe, c0, Events(es), s) {
      assert db.payments[PaymentOfSession(db.payments, s).value].session == s;
    }
    if k :| 0 <= k < |db.payments| && db.payments[k].session == s {
      assert IsConfirmed(stripe, c0, Events(es), s);
    }
  }
}
