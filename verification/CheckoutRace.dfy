/**
  * Runs in which something goes wrong. A refund told of before its payment is left
  * without a row: the two deliveries overlap, the payment's is cut off after its commit,
  * or Stripe does not answer it. A paid checkout reads expired: `open` wrote what it had
  * read. CheckoutStranded and CheckoutStatus say exactly when.
  */
module CheckoutRace {
  import opened Options
  import opened CheckoutDb
  import opened CheckoutRuns
  import opened CheckoutSafety
  import opened CheckoutOrder
  import opened CheckoutStranded
  import opened CheckoutStatus

  lemma Extended(run: seq<World>, w: World) returns (longer: seq<World>)
    requires IsRun(run) && Step(run[|run| - 1], w)
    ensures IsRun(longer) && longer[|longer| - 1] == w
  {
    longer := run + [w];
    forall k | 0 <= k < |longer| - 1 ensures Follows(longer, k) {
      if k < |run| - 1 {
        assert Follows(run, k);
      }
    }
  }

  lemma Started(run: seq<World>, t: Task) returns (longer: seq<World>)
    requires IsRun(run) && Starts(run[|run| - 1], run[|run| - 1].(tasks := run[|run| - 1].tasks + [t]), t)
    ensures IsRun(longer) && longer[|longer| - 1] == run[|run| - 1].(tasks := run[|run| - 1].tasks + [t])
  {
    var w := run[|run| - 1];
    longer := Extended(run, w.(tasks := w.tasks + [t]));
  }

  lemma Proceeded(run: seq<World>, k: nat) returns (longer: seq<World>)
    requires IsRun(run) && k < |run[|run| - 1].tasks| && CheckoutRuns.Fits(run[|run| - 1].db, run[|run| - 1].tasks[k])
    ensures var w := run[|run| - 1];
            var (db1, t1) := Next(w.db, w.stripe, w.tasks[k]);
            IsRun(longer) && longer[|longer| - 1] == w.(db := db1, tasks := w.tasks[k := t1])
  {
    var w := run[|run| - 1];
    var (db1, t1) := Next(w.db, w.stripe, w.tasks[k]);
    var w' := w.(db := db1, tasks := w.tasks[k := t1]);
    assert Proceeds(w, w', k);
    longer := Extended(run, w');
  }

  /** A payment Stripe holds, refunded in part. */
  function PaidSession(): Session {
    Session(1, StripeComplete, true, 500, 3, Some(7), Some(2))
  }

  function OneRefund(): RefundFacts {
    RefundFacts(9, 200, Succeeded, Some(7))
  }

  function OneOfEach(): Stripe {
    Stripe(true, true, map[1 := PaidSession()], map[7 := 1], map[7 := [OneRefund()]])
  }

  function Asked(): CheckoutRow {
    CheckoutRow(2, 500, 3, Open, 0, None)
  }

  function Refunded(): Event {
    RefundChanged(11, OneRefund())
  }

  function Settled(): Event {
    SessionSettled(12, PaidSession())
  }

  function Opened(): Db {
    Db(map[], map[1 := Asked()], [], [])
  }

  function Paid(): Db {
    Db(map[12 := EventRow(Recorded, Some(7))], map[1 := CheckoutRow(2, 500, 3, Complete, 0, Some(7))], [PaymentRow(1, Some(7), 2, 500, 3)], [])
  }

  lemma OneOfEachIsCoherent()
    ensures Coherent(OneOfEach()) && Made(OneOfEach(), 7, 9, 200)
  {
    var stripe := OneOfEach();
    assert stripe.RefundsOf(7) == [OneRefund()];
    assert stripe.RefundsOf(7)[0].id == 9;
    assert forall i, r, n :: Made(stripe, i, r, n) ==> i == 7 && n == 200;
  }

  /** The refund's event reads that its payment is not recorded. */
  lemma RefundLooksFirst() returns (run: seq<World>)
    ensures IsRun(run) && run[|run| - 1] == World(OneOfEach(), Opened(), [Remembering(MetaOf(Refunded()), RefundDeferred)])
  {
    var stripe := OneOfEach();
    OneOfEachIsCoherent();
    var w0 := World(stripe, Db(map[], map[], [], []), []);
    run := [w0];
    assert Opens(w0, w0.(db := Opened()), 1, Asked());
    run := Extended(run, w0.(db := Opened()));
    run := Started(run, Received(Refunded()));
    run := Proceeded(run, 0);
    run := Proceeded(run, 0);
  }

  /** The payment's event reads that nothing is recorded for its session. */
  lemma PaymentLooks(run: seq<World>) returns (longer: seq<World>)
    requires IsRun(run) && run[|run| - 1] == World(OneOfEach(), Opened(), [Remembering(MetaOf(Refunded()), RefundDeferred)])
    ensures IsRun(longer)
    ensures longer[|longer| - 1] == World(OneOfEach(), Opened(),
              [Remembering(MetaOf(Refunded()), RefundDeferred), Committing(PaidSession(), Some(MetaOf(Settled())), Asked())])
  {
    longer := Started(run, Received(Settled()));
    longer := Proceeded(longer, 1);
    longer := Proceeded(longer, 1);
    longer := Proceeded(longer, 1);
  }

  /** The payment is committed and reads that nothing waits for it. */
  lemma PaymentCommits(run: seq<World>) returns (longer: seq<World>)
    requires IsRun(run)
    requires run[|run| - 1] == World(OneOfEach(), Opened(),
               [Remembering(MetaOf(Refunded()), RefundDeferred), Committing(PaidSession(), Some(MetaOf(Settled())), Asked())])
    ensures IsRun(longer)
    ensures longer[|longer| - 1] == World(OneOfEach(), Paid(), [Remembering(MetaOf(Refunded()), RefundDeferred), Done])
  {
    longer := Proceeded(run, 1);
    longer := Proceeded(longer, 1);
  }

  /** Both deliveries are answered, and neither is heard again. */
  ghost predicate IsOver(w: World) {
    && CheckoutDb.HandleEvent(w.db, w.stripe, Refunded()) == (w.db, Duplicate)
    && CheckoutDb.HandleEvent(w.db, w.stripe, Settled()) == (w.db, Duplicate)
  }

  /** Overlap: the refund's event is then kept, for a payment that will not look again. */
  lemma OverlapCanStrandARefund() returns (run: seq<World>)
    ensures IsRun(run) && Stranded(run[|run| - 1], Refunded(), 0, 7) && IsOver(run[|run| - 1])
  {
    run := RefundLooksFirst();
    run := PaymentLooks(run);
    run := PaymentCommits(run);
    run := Proceeded(run, 0);
    assert run[|run| - 1].db.payments == Paid().payments;
    OneOfEachIsCoherent();
  }

  function Kept(): map<EventId, EventRow> {
    map[11 := EventRow(RefundDeferred, Some(7))]
  }

  function Committed(): Db {
    Paid().(events := Kept()[12 := EventRow(Recorded, Some(7))])
  }

  /** No overlap: the refund's delivery is over before the payment's starts. */
  lemma RefundIsKept() returns (run: seq<World>)
    ensures IsRun(run) && run[|run| - 1] == World(OneOfEach(), Opened().(events := Kept()), [Done])
  {
    run := RefundLooksFirst();
    run := Proceeded(run, 0);
  }

  lemma PaymentLooksAfter() returns (run: seq<World>)
    ensures IsRun(run)
    ensures run[|run| - 1] == World(OneOfEach(), Opened().(events := Kept()), [Done, Committing(PaidSession(), Some(MetaOf(Settled())), Asked())])
  {
    run := PaymentIsHeardAfter();
    run := Proceeded(run, 1);
    run := Proceeded(run, 1);
  }

  lemma PaymentIsHeardAfter() returns (run: seq<World>)
    ensures IsRun(run)
    ensures run[|run| - 1] == World(OneOfEach(), Opened().(events := Kept()), [Done, Confirming(PaidSession(), Some(MetaOf(Settled())))])
  {
    run := RefundIsKept();
    run := Started(run, Received(Settled()));
    run := Proceeded(run, 1);
  }

  lemma PaymentIsCommittedAfter() returns (run: seq<World>)
    ensures IsRun(run) && run[|run| - 1] == World(OneOfEach(), Committed(), [Done, CountingDeferred(0)])
  {
    run := PaymentLooksAfter();
    run := Proceeded(run, 1);
  }

  lemma KeptIsStranded(w: World)
    requires w.db == Committed() && w.tasks == [Done, Done]
    requires w.stripe.refunds == OneOfEach().refunds
    ensures Stranded(w, Refunded(), 0, 7) && IsOver(w)
  {
    OneOfEachIsCoherent();
    assert w.stripe.RefundsOf(7) == [OneRefund()];
    assert w.stripe.RefundsOf(7)[0].id == 9;
    assert w.db.events[11] == EventRow(RefundDeferred, Some(7));
  }

  /** A crash after the payment's commit, before it looks for what is waiting. */
  lemma CrashCanStrandARefund() returns (run: seq<World>)
    ensures IsRun(run) && Stranded(run[|run| - 1], Refunded(), 0, 7) && IsOver(run[|run| - 1])
  {
    run := PaymentIsCommittedAfter();
    var w := run[|run| - 1];
    assert Crashes(w, w.(tasks := w.tasks[1 := Done]), 1);
    run := Extended(run, w.(tasks := w.tasks[1 := Done]));
    KeptIsStranded(run[|run| - 1]);
  }

  lemma PaymentAsksForRefunds() returns (run: seq<World>)
    ensures IsRun(run) && run[|run| - 1] == World(OneOfEach(), Committed(), [Done, Listing(0, None)])
  {
    run := PaymentIsCommittedAfter();
    assert run[|run| - 1].db.events[11] == EventRow(RefundDeferred, Some(7));
    run := Proceeded(run, 1);
  }

  /** Stripe not answering the listing of the refunds: the lookup's error is swallowed. */
  lemma SilentStripeCanStrandARefund() returns (run: seq<World>)
    ensures IsRun(run) && Stranded(run[|run| - 1], Refunded(), 0, 7) && IsOver(run[|run| - 1])
  {
    run := PaymentAsksForRefunds();
    var w := run[|run| - 1];
    OneOfEachIsCoherent();
    SilentIsCoherent(w.stripe);
    run := Extended(run, w.(stripe := w.stripe.(reachable := false)));
    run := Proceeded(run, 1);
    KeptIsStranded(run[|run| - 1]);
  }

  lemma SilentIsCoherent(stripe: Stripe)
    requires Coherent(stripe)
    ensures Grows(stripe, stripe.(reachable := false))
  {
    var silent := stripe.(reachable := false);
    assert forall i :: silent.RefundsOf(i) == stripe.RefundsOf(i);
    assert forall i, r, n :: Made(silent, i, r, n) <==> Made(stripe, i, r, n);
  }

  // ---------------------------------------------------------------- a paid checkout that reads expired

  /** The same page before its parent pays. */
  function Unpaid(): Stripe {
    Stripe(true, true, map[1 := Session(1, StripeOpen, false, 500, 3, None, Some(2))], map[], map[])
  }

  function PaidPage(): Stripe {
    Stripe(true, true, map[1 := PaidSession()], map[7 := 1], map[])
  }

  lemma PageIsPaid()
    ensures Coherent(Unpaid()) && Grows(Unpaid(), PaidPage())
  {
    assert forall i, r, a :: !Made(Unpaid(), i, r, a);
    assert forall i, r, a :: !Made(PaidPage(), i, r, a);
  }

  /** `open` reads that the earlier page is still open. */
  lemma OpenReads() returns (run: seq<World>)
    ensures IsRun(run) && run[|run| - 1] == World(Unpaid(), Opened(), [Closing(1, Expired, Opener)])
  {
    PageIsPaid();
    var w0 := World(Unpaid(), Db(map[], map[], [], []), []);
    run := [w0];
    assert Opens(w0, w0.(db := Opened()), 1, Asked());
    run := Extended(run, w0.(db := Opened()));
    run := Started(run, Looking(1, Opener));
    run := Proceeded(run, 0);
  }

  /** Its parent pays, and the webhook looks. */
  lemma PaymentComesBetween() returns (run: seq<World>)
    ensures IsRun(run)
    ensures run[|run| - 1] == World(PaidPage(), Opened(),
              [Closing(1, Expired, Opener), Committing(PaidSession(), Some(MetaOf(Settled())), Asked())])
  {
    run := PaymentIsHeard();
    run := Proceeded(run, 1);
    run := Proceeded(run, 1);
  }

  lemma PaymentIsHeard() returns (run: seq<World>)
    ensures IsRun(run)
    ensures run[|run| - 1] == World(PaidPage(), Opened(), [Closing(1, Expired, Opener), Confirming(PaidSession(), Some(MetaOf(Settled())))])
  {
    run := OpenReads();
    PageIsPaid();
    run := Extended(run, run[|run| - 1].(stripe := PaidPage()));
    run := Started(run, Received(Settled()));
    run := Proceeded(run, 1);
  }

  /** The payment is recorded, and `open` then writes what it had read: a paid checkout reads expired. */
  lemma OpenCanExpireAPaidCheckout() returns (run: seq<World>)
    ensures IsRun(run) && AllDone(run[|run| - 1])
    ensures var db := run[|run| - 1].db; HasPayment(db.payments, 1) && 1 in db.checkouts && db.checkouts[1].status == Expired
  {
    run := PaymentComesBetween();
    run := Proceeded(run, 1);
    run := Proceeded(run, 1);
    run := Proceeded(run, 0);
    assert run[|run| - 1].db.payments == Paid().payments;
    assert run[|run| - 1].db.payments[0].session == 1;
  }

  // ---------------------------------------------------------------- what repairs a stranded refund

  /** Stripe's list of an intent: refunds of that intent, none failed or cancelled. */
  ghost predicate ListIsOfItsIntent(stripe: Stripe, i: IntentId) {
    forall n :: 0 <= n < |stripe.RefundsOf(i)| ==> OnItsWay(stripe.RefundsOf(i)[n].status) && stripe.RefundsOf(i)[n].intent == Some(i)
  }

  /** Reconciliation's sync of a recorded payment, whatever happened before, leaves no refund of it behind. */
  lemma SyncRepairs(w: World, k: nat)
    requires Inv(w) && k < |w.db.payments| && w.db.payments[k].intent.Some?
    requires w.stripe.available && w.stripe.reachable
    requires ListIsOfItsIntent(w.stripe, w.db.payments[k].intent.value)
    ensures var db1 := RunAlone(w.db, w.stripe, Listing(k, None));
            && AllListed(w.stripe, db1.refunds, w.db.payments[k].intent.value)
            && forall e :: Truthful(w.stripe, e) && e.RefundChanged? && e.refund.intent == w.db.payments[k].intent ==>
                 HasRefund(db1.refunds, e.refund.id)
  {
    var i := w.db.payments[k].intent.value;
    var list := w.stripe.RefundsOf(i);
    AloneSync(w.db, w.stripe, k, list, 0, None);
    SyncRecordsAll(w.db, k, list);
    var db1 := RunAlone(w.db, w.stripe, Listing(k, None));
    var (db2, n) := SyncEach(w.db, k, list);
    AloneEndsHere(db2, w.stripe);
    assert db1 == db2;
    forall e | Truthful(w.stripe, e) && e.RefundChanged? && e.refund.intent == Some(i) ensures HasRefund(db1.refunds, e.refund.id) {
      assert Made(w.stripe, i, e.refund.id, e.refund.amount);
    }
  }

  lemma AloneEndsHere(db: Db, stripe: Stripe)
    ensures RunAlone(db, stripe, Done) == db
  {
  }
}
