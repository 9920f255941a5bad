/**
  * Deliveries that overlap. Each call is a task that goes from one read or one
  * transaction to the next; between any two of them other tasks run, Stripe moves
  * on, a checkout is opened, a sweep starts, or a task crashes and is forgotten.
  */
module CheckoutRuns {
  import opened Options
  import opened CheckoutDb

  /** Who looks at an open checkout's session: `open`, before its own, or the reconciler's sweep. */
  datatype Reader = Opener | Sweeper

  datatype Task =
    | Received(event: Event)
    | Remembering(meta: Meta, outcome: Outcome)
    | Marking(meta: Meta, session: SessionId, status: CheckoutStatus, outcome: Outcome)
    | AskingSession(event: Event)
    | CheckingDecline(meta: Meta, found: Session, pi: IntentId)
    | Declining(meta: Meta, session: SessionId, pi: IntentId)
    | Confirming(paid: Session, maybe: Option<Meta>)
    | FindingPayment(paid: Session, maybe: Option<Meta>, checkout: CheckoutRow)
    | Completing(session: SessionId, maybe: Option<Meta>)
    | Mismatching(maybe: Option<Meta>)
    | Looking(session: SessionId, reader: Reader)
    | Closing(session: SessionId, status: CheckoutStatus, reader: Reader)
    | Committing(paid: Session, maybe: Option<Meta>, checkout: CheckoutRow)
    | CountingDeferred(payment: nat)
    | Listing(payment: nat, after: Option<Meta>)
    | Syncing(payment: nat, list: seq<RefundFacts>, n: nat, after: Option<Meta>)
    | SyncingOne(payment: nat, refund: RefundFacts, list: seq<RefundFacts>, n: nat, after: Option<Meta>)
    | FindingRefunded(event: Event)
    | FindingCharged(event: Event)
    | RecordingRefund(payment: nat, refund: RefundFacts, meta: Meta)
    | Done

  function RememberMaybe(m: Option<Meta>, o: Outcome): Task {
    if m.Some? then Remembering(m.value, o) else Done
  }

  function AfterSync(after: Option<Meta>, n: nat): Task {
    RememberMaybe(after, if n > 0 then RefundRecorded else AlreadyRecorded)
  }

  /** handleEvent's first read, and its switch. */
  function Dispatch(e: Event): Task {
    match e
    case SessionSettled(_, s) => if s.paid then Confirming(s, Some(MetaOf(e))) else Remembering(MetaOf(e), AwaitingPayment)
    case SessionFailed(_, s) => Marking(MetaOf(e), s, AsyncFailed, CheckoutHasFailed)
    case SessionExpired(_, s) => Marking(MetaOf(e), s, Expired, CheckoutWasExpired)
    case IntentSucceeded(_, _, ours) => if ours then AskingSession(e) else Remembering(MetaOf(e), Ignored)
    case IntentFailed(_, _, ours) => if ours then AskingSession(e) else Remembering(MetaOf(e), Ignored)
    case RefundChanged(_, _) => FindingRefunded(e)
    case ChargeRefunded(_, i) => if i.Some? then FindingCharged(e) else Remembering(MetaOf(e), Ignored)
    case OtherEvent(_) => Remembering(MetaOf(e), Ignored)
  }

  /** findCheckoutByPaymentIntent, for either intent event. */
  function AskSession(stripe: Stripe, e: Event): Task
    requires e.IntentSucceeded? || e.IntentFailed?
  {
    if !stripe.available then Remembering(MetaOf(e), Ignored)
    else if !stripe.reachable then Done
    else
      var s := stripe.SessionOfIntent(e.pi);
      if s.None? then Remembering(MetaOf(e), UnknownSession)
      else if e.IntentFailed? then CheckingDecline(MetaOf(e), s.value, e.pi)
      else if s.value.paid then Confirming(s.value, Some(MetaOf(e)))
      else Remembering(MetaOf(e), AwaitingPayment)
  }

  /** What is made of an earlier session as Stripe reports it; the sweep leaves all but a paid and an expired one. */
  function LookAt(s: SessionId, found: Session, reader: Reader): Task {
    if found.status.StripeComplete? && found.paid then Confirming(found, None)
    else if reader == Sweeper then (if found.status.StripeExpired? then Closing(s, Expired, reader) else Done)
    else if found.status.StripeComplete? then Closing(s, Complete, reader)
    else Closing(s, Expired, reader)
  }

  /** `open` writes the status as it is; the sweep only where the row is still open. */
  function TxClose(db: Db, s: SessionId, status: CheckoutStatus, reader: Reader): Db
    requires s in db.checkouts
  {
    if reader == Sweeper && db.checkouts[s].status != Open then db
    else db.(checkouts := db.checkouts[s := db.checkouts[s].(status := status)])
  }

  predicate Fits(db: Db, t: Task) {
    (t.AskingSession? ==> t.event.IntentSucceeded? || t.event.IntentFailed?)
    && (t.FindingRefunded? ==> t.event.RefundChanged?)
    && (t.FindingCharged? ==> t.event.ChargeRefunded? && t.event.charged.Some?)
    && (t.Declining? ==> t.session in db.checkouts)
    && (t.Completing? || t.Looking? || t.Closing? ==> t.session in db.checkouts)
    && (t.FindingPayment? || t.Committing? ==> t.paid.id in db.checkouts)
    && (t.CountingDeferred? || t.Listing? || t.Syncing? || t.SyncingOne? || t.RecordingRefund? ==> t.payment < |db.payments|)
  }

  /** syncRefunds' next refund: passed over, or to be recorded. */
  function TakeNext(db: Db, p: nat, list: seq<RefundFacts>, n: nat, after: Option<Meta>): Task
    requires p < |db.payments|
  {
    if list == [] then AfterSync(after, n)
    else
      var r := list[|list| - 1];
      var rest := list[..|list| - 1];
      if (r.intent.Some? && r.intent != db.payments[p].intent) || HasRefund(db.refunds, r.id)
      then Syncing(p, rest, n, after) else SyncingOne(p, r, rest, n, after)
  }

  predicate IsOnPayment(t: Task) {
    t.CountingDeferred? || t.Listing? || t.Syncing? || t.SyncingOne? || t.RecordingRefund?
  }

  /** The same of a task that has found its payment. */
  function NextOnPayment(db: Db, stripe: Stripe, t: Task): (r: (Db, Task))
    requires IsOnPayment(t) && t.payment < |db.payments|
    ensures Fits(r.0, r.1)
  {
    match t
    case CountingDeferred(p) =>
      var i := db.payments[p].intent;
      (db, if i.Some? && Waiting(db.events, i.value) then Listing(p, None) else Done)
    case Listing(p, after) =>
      var i := db.payments[p].intent;
      (db, if i.None? || !stripe.available then AfterSync(after, 0)
           else if !stripe.reachable then Done
           else Syncing(p, stripe.RefundsOf(i.value), 0, after))
    case Syncing(p, list, n, after) => (db, TakeNext(db, p, list, n, after))
    case SyncingOne(p, r, rest, n, after) =>
      var (db1, o) := CheckoutDb.RecordRefund(db, None, p, r);
      (db1, Syncing(p, rest, if o == RefundRecorded then n + 1 else n, after))
    case RecordingRefund(p, r, m) => (CheckoutDb.RecordRefund(db, Some(m), p, r).0, Done)
  }

  /** One read or one transaction of a task. */
  function Next(db: Db, stripe: Stripe, t: Task): (r: (Db, Task))
    requires Fits(db, t)
    ensures Fits(r.0, r.1)
  {
    match t
    case Received(e) => (db, if e.id in db.events then Done else Dispatch(e))
    case Remembering(m, o) => (TxRemember(db, m, o).0, Done)
    case Marking(m, s, status, o) => (TxMark(db, s, status), Remembering(m, o))
    case AskingSession(e) => (db, AskSession(stripe, e))
    case CheckingDecline(m, s, pi) =>
      (db, if s.id in db.checkouts then Declining(m, s.id, pi) else Remembering(m, UnknownSession))
    case Declining(m, s, pi) => (TxDecline(db, m, s, pi).0, Done)
    case Confirming(s, m) =>
      (db, if s.id in db.checkouts then FindingPayment(s, WithIntent(m, s), db.checkouts[s.id]) else RememberMaybe(m, UnknownSession))
    case FindingPayment(s, m, c) =>
      (db, if PaymentOfSession(db.payments, s.id).Some? then Completing(s.id, m)
           else if Matches(s, c) then Committing(s, m, c) else Mismatching(m))
    case Completing(s, m) => (TxComplete(db, s), RememberMaybe(m, AlreadyRecorded))
    case Mismatching(m) => (TxMismatch(db, m).0, Done)
    case Looking(s, reader) =>
      (db, if stripe.reachable && s in stripe.sessions then LookAt(s, stripe.sessions[s], reader) else Done)
    case Closing(s, status, reader) => (TxClose(db, s, status, reader), Done)
    case Committing(s, m, c) =>
      var (db1, o) := TxConfirm(db, m, s, c);
      (db1, if o == Recorded then CountingDeferred(|db.payments|) else Done)
    case FindingRefunded(e) =>
      var i := e.refund.intent;
      var p := if i.Some? then PaymentOfIntent(db.payments, i.value) else None;
      (db, if p.Some? then RecordingRefund(p.value, e.refund, MetaOf(e)) else Remembering(MetaOf(e), RefundDeferred))
    case FindingCharged(e) =>
      var p := PaymentOfIntent(db.payments, e.charged.value);
      (db, if p.Some? && stripe.available then Listing(p.value, Some(MetaOf(e))) else Remembering(MetaOf(e), RefundDeferred))
    case Done => (db, Done)
    case _ => NextOnPayment(db, stripe, t)
  }

  // ---------------------------------------------------------------- one task left alone

  function Stage(t: Task): nat {
    match t
    case Received(_) => 12
    case AskingSession(_) => 11
    case CheckingDecline(_, _, _) => 10
    case Confirming(_, _) => 10
    case FindingPayment(_, _, _) => 9
    case Committing(_, _, _) => 8
    case Marking(_, _, _, _) => 8
    case Looking(_, _) => 11
    case Completing(_, _) => 8
    case FindingRefunded(_) => 8
    case FindingCharged(_) => 8
    case CountingDeferred(_) => 7
    case Listing(_, _) => 6
    case Syncing(_, _, _, _) => 5
    case SyncingOne(_, _, _, _, _) => 5
    case Done => 0
    case _ => 1
  }

  function Todo(t: Task): nat {
    if t.Syncing? then 2 * |t.list| else if t.SyncingOne? then 2 * |t.list| + 1 else 0
  }

  function RunAlone(db: Db, stripe: Stripe, t: Task): Db
    requires Fits(db, t)
    decreases Stage(t), Todo(t)
  {
    if t.Done? then db else var (db1, t1) := Next(db, stripe, t); RunAlone(db1, stripe, t1)
  }

  lemma {:induction false} AloneSync(db: Db, stripe: Stripe, p: nat, list: seq<RefundFacts>, n: nat, after: Option<Meta>)
    requires p < |db.payments|
    ensures RunAlone(db, stripe, Syncing(p, list, n, after)) ==
            var (db1, m) := SyncEach(db, p, list); RunAlone(db1, stripe, AfterSync(after, n + m))
    decreases |list|
  {
    if list != [] {
      var r, rest := list[|list| - 1], list[..|list| - 1];
      EachUnrolls(db, p, list);
      if Skips(db, p, r) {
        AloneSyncSkips(db, stripe, p, list, n, after);
        AloneSync(db, stripe, p, rest, n, after);
      } else {
        var (db1, o) := CheckoutDb.RecordRefund(db, None, p, r);
        AloneSyncTakes(db, stripe, p, list, n, after);
        AloneSyncOne(db, stripe, p, r, rest, n, after);
        AloneSync(db1, stripe, p, rest, if o == RefundRecorded then n + 1 else n, after);
      }
    }
  }

  lemma EachUnrolls(db: Db, p: nat, list: seq<RefundFacts>)
    requires p < |db.payments| && list != []
    ensures var r, rest := list[|list| - 1], list[..|list| - 1];
            var (db1, o) := CheckoutDb.RecordRefund(db, None, p, r);
            && p < |db1.payments|
            && SyncEach(db, p, list)
               == if Skips(db, p, r) then SyncEach(db, p, rest)
                  else (SyncEach(db1, p, rest).0, SyncEach(db1, p, rest).1 + if o == RefundRecorded then 1 else 0)
  {
  }

  predicate Skips(db: Db, p: nat, r: RefundFacts)
    requires p < |db.payments|
  {
    (r.intent.Some? && r.intent != db.payments[p].intent) || HasRefund(db.refunds, r.id)
  }

  lemma AloneSyncSkips(db: Db, stripe: Stripe, p: nat, list: seq<RefundFacts>, n: nat, after: Option<Meta>)
    requires p < |db.payments| && list != [] && Skips(db, p, list[|list| - 1])
    ensures RunAlone(db, stripe, Syncing(p, list, n, after)) == RunAlone(db, stripe, Syncing(p, list[..|list| - 1], n, after))
  {
  }

  lemma AloneSyncTakes(db: Db, stripe: Stripe, p: nat, list: seq<RefundFacts>, n: nat, after: Option<Meta>)
    requires p < |db.payments| && list != [] && !Skips(db, p, list[|list| - 1])
    ensures RunAlone(db, stripe, Syncing(p, list, n, after))
         == RunAlone(db, stripe, SyncingOne(p, list[|list| - 1], list[..|list| - 1], n, after))
  {
  }

  lemma AloneSyncOne(db: Db, stripe: Stripe, p: nat, r: RefundFacts, rest: seq<RefundFacts>, n: nat, after: Option<Meta>)
    requires p < |db.payments|
    ensures var (db1, o) := CheckoutDb.RecordRefund(db, None, p, r);
            p < |db1.payments| && RunAlone(db, stripe, SyncingOne(p, r, rest, n, after))
            == RunAlone(db1, stripe, Syncing(p, rest, if o == RefundRecorded then n + 1 else n, after))
  {
  }

  lemma AloneEnds(db: Db, stripe: Stripe, t: Task)
    requires Fits(db, t) && Next(db, stripe, t).1.Done?
    ensures RunAlone(db, stripe, t) == Next(db, stripe, t).0
  {
  }

  lemma AloneRemembers(db: Db, stripe: Stripe, m: Option<Meta>, o: Outcome)
    ensures RunAlone(db, stripe, RememberMaybe(m, o)) == TxMaybeRemember(db, m, o).0
  {
  }

  lemma AloneDeferred(db: Db, stripe: Stripe, p: nat)
    requires p < |db.payments|
    ensures RunAlone(db, stripe, CountingDeferred(p)) == SyncDeferred(db, stripe, p)
  {
    var i := db.payments[p].intent;
    if i.Some? && Waiting(db.events, i.value) {
      assert RunAlone(db, stripe, CountingDeferred(p)) == RunAlone(db, stripe, Listing(p, None));
      if stripe.available && stripe.reachable {
        AloneSync(db, stripe, p, stripe.RefundsOf(i.value), 0, None);
      } else {
        assert RunAlone(db, stripe, Listing(p, None)) == RunAlone(db, stripe, Done) == db;
      }
    }
  }

  lemma AloneConfirm(db: Db, stripe: Stripe, s: Session, m: Option<Meta>)
    ensures RunAlone(db, stripe, Confirming(s, m)) == CheckoutDb.Confirm(db, stripe, s, m).0
  {
    if s.id !in db.checkouts {
      AloneRemembers(db, stripe, m, UnknownSession);
    } else {
      var c, m1 := db.checkouts[s.id], WithIntent(m, s);
      assert RunAlone(db, stripe, Confirming(s, m)) == RunAlone(db, stripe, FindingPayment(s, m1, c));
      if PaymentOfSession(db.payments, s.id).Some? {
        assert RunAlone(db, stripe, FindingPayment(s, m1, c)) == RunAlone(db, stripe, Completing(s.id, m1));
        AloneRemembers(TxComplete(db, s.id), stripe, m1, AlreadyRecorded);
      } else if Matches(s, c) {
        var (db1, o) := TxConfirm(db, m1, s, c);
        if o != Recorded {
          assert RunAlone(db, stripe, FindingPayment(s, m1, c)) == RunAlone(db, stripe, Committing(s, m1, c)) == RunAlone(db1, stripe, Done);
        } else {
          assert RunAlone(db, stripe, FindingPayment(s, m1, c)) == RunAlone(db, stripe, Committing(s, m1, c))
              == RunAlone(db1, stripe, CountingDeferred(|db.payments|));
          AloneDeferred(db1, stripe, |db.payments|);
        }
      } else {
        assert RunAlone(db, stripe, FindingPayment(s, m1, c)) == RunAlone(db, stripe, Mismatching(m1));
        AloneEnds(db, stripe, Mismatching(m1));
      }
    }
  }

  lemma AloneAsks(db: Db, stripe: Stripe, e: Event)
    requires e.IntentSucceeded? || e.IntentFailed?
    ensures RunAlone(db, stripe, Dispatch(e)) ==
            (if e.IntentSucceeded? then OnIntentSucceeded(db, stripe, e) else OnIntentFailed(db, stripe, e)).0
  {
    if e.ours {
      assert RunAlone(db, stripe, AskingSession(e)) == RunAlone(db, stripe, AskSession(stripe, e));
      var s := stripe.SessionOfIntent(e.pi);
      if !stripe.available {
        AloneRemembers(db, stripe, Some(MetaOf(e)), Ignored);
      } else if !stripe.reachable {
        assert RunAlone(db, stripe, Done) == db;
      } else if s.None? {
        AloneRemembers(db, stripe, Some(MetaOf(e)), UnknownSession);
      } else if e.IntentFailed? {
        if s.value.id !in db.checkouts {
          AloneRemembers(db, stripe, Some(MetaOf(e)), UnknownSession);
        } else {
          AloneEnds(db, stripe, Declining(MetaOf(e), s.value.id, e.pi));
        }
      } else if s.value.paid {
        AloneConfirm(db, stripe, s.value, Some(MetaOf(e)));
      } else {
        AloneRemembers(db, stripe, Some(MetaOf(e)), AwaitingPayment);
      }
    }
  }

  lemma AloneCharge(db: Db, stripe: Stripe, e: Event)
    requires e.ChargeRefunded? && e.charged.Some?
    ensures RunAlone(db, stripe, FindingCharged(e)) == OnCharge(db, stripe, e).0
  {
    var p := PaymentOfIntent(db.payments, e.charged.value);
    if p.None? || !stripe.available {
      AloneRemembers(db, stripe, Some(MetaOf(e)), RefundDeferred);
    } else {
      assert RunAlone(db, stripe, FindingCharged(e)) == RunAlone(db, stripe, Listing(p.value, Some(MetaOf(e))));
      if !stripe.reachable {
        AloneEnds(db, stripe, Listing(p.value, Some(MetaOf(e))));
      } else {
        var (db1, n) := SyncRefunds(db, stripe, p.value);
        AloneSync(db, stripe, p.value, stripe.RefundsOf(e.charged.value), 0, Some(MetaOf(e)));
        AloneRemembers(db1, stripe, Some(MetaOf(e)), if n > 0 then RefundRecorded else AlreadyRecorded);
      }
    }
  }

  /** Split into its reads and its transactions, a delivery nobody disturbs is handleEvent. */
  lemma AloneIsHandleEvent(db: Db, stripe: Stripe, e: Event)
    ensures RunAlone(db, stripe, Received(e)) == CheckoutDb.HandleEvent(db, stripe, e).0
  {
    if e.id !in db.events {
      assert RunAlone(db, stripe, Received(e)) == RunAlone(db, stripe, Dispatch(e));
      match e {
        case SessionSettled(_, s) =>
          if s.paid {
            AloneConfirm(db, stripe, s, Some(MetaOf(e)));
          } else {
            AloneRemembers(db, stripe, Some(MetaOf(e)), AwaitingPayment);
          }
        case IntentSucceeded(_, pi, ours) =>
          AloneAsks(db, stripe, e);
        case IntentFailed(_, pi, ours) =>
          AloneAsks(db, stripe, e);
        case ChargeRefunded(_, i) =>
          if i.Some? {
            AloneCharge(db, stripe, e);
          } else {
            AloneRemembers(db, stripe, Some(MetaOf(e)), Ignored);
          }
        case RefundChanged(_, r) =>
          var p := if r.intent.Some? then PaymentOfIntent(db.payments, r.intent.value) else None;
          if p.Some? {
            AloneEnds(db, stripe, RecordingRefund(p.value, r, MetaOf(e)));
          } else {
            AloneRemembers(db, stripe, Some(MetaOf(e)), RefundDeferred);
          }
        case SessionFailed(_, s) =>
          AloneRemembers(TxMark(db, s, AsyncFailed), stripe, Some(MetaOf(e)), CheckoutHasFailed);
        case SessionExpired(_, s) =>
          AloneRemembers(TxMark(db, s, Expired), stripe, Some(MetaOf(e)), CheckoutWasExpired);
        case OtherEvent(_) =>
          AloneRemembers(db, stripe, Some(MetaOf(e)), Ignored);
      }
    }
  }
}
