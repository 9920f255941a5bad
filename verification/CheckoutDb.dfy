/**
  * The tables of the card payments and the transactions CheckoutService runs on them.
  *
  * Identifiers are compared for equality only, so they are natural numbers. Every
  * `Tx` function is one database transaction: it either answers the new tables or
  * leaves them as they were, and it is where the unique keys are tested.
  */
module CheckoutDb {
  import opened Options

  type SessionId = nat
  type IntentId = nat
  type RefundId = nat
  type EventId = nat
  type RequestId = nat
  type Currency = nat

  // ---------------------------------------------------------------- what Stripe says

  datatype SessionStatus = StripeOpen | StripeComplete | StripeExpired

  /** A Checkout Session as Stripe reports it. */
  datatype Session = Session(
    id: SessionId, status: SessionStatus, paid: bool,
    amount: int, currency: Currency, intent: Option<IntentId>, requestTag: Option<RequestId>)

  datatype RefundStatus = Pending | Succeeded | RequiresAction | Failed | Canceled

  datatype RefundFacts = RefundFacts(id: RefundId, amount: nat, status: RefundStatus, intent: Option<IntentId>)

  /** What Stripe's lookups answer; `reachable` is false when they throw. */
  datatype Stripe = Stripe(
    available: bool, reachable: bool,
    sessions: map<SessionId, Session>,
    sessionOf: map<IntentId, SessionId>,
    refunds: map<IntentId, seq<RefundFacts>>)
  {
    /** findCheckoutByPaymentIntent */
    function SessionOfIntent(i: IntentId): Option<Session> {
      if i in sessionOf && sessionOf[i] in sessions then Some(sessions[sessionOf[i]]) else None
    }

    /** listRefunds: newest first */
    function RefundsOf(i: IntentId): seq<RefundFacts> {
      if i in refunds then refunds[i] else []
    }
  }

  datatype Event =
    | SessionSettled(id: EventId, session: Session)
    | SessionFailed(id: EventId, sessionId: SessionId)
    | SessionExpired(id: EventId, sessionId: SessionId)
    | IntentSucceeded(id: EventId, pi: IntentId, ours: bool)
    | IntentFailed(id: EventId, pi: IntentId, ours: bool)
    | RefundChanged(id: EventId, refund: RefundFacts)
    | ChargeRefunded(id: EventId, charged: Option<IntentId>)
    | OtherEvent(id: EventId)

  datatype Outcome =
    | Recorded | Duplicate | AlreadyRecorded | AwaitingPayment | UnknownSession | Mismatch
    | CheckoutWasExpired | CheckoutHasFailed | RefundRecorded | RefundDeferred | RefundNotFinal
    | RefundFailedAfterRecord | PaymentFailed | Ignored
    | Thrown  // Stripe is made to deliver the event again

  /** What the audit row keeps of an event. */
  datatype Meta = Meta(id: EventId, intent: Option<IntentId>)

  function MetaOf(e: Event): Meta {
    match e
    case SessionSettled(id, s) => Meta(id, s.intent)
    case IntentSucceeded(id, i, _) => Meta(id, Some(i))
    case IntentFailed(id, i, _) => Meta(id, Some(i))
    case RefundChanged(id, r) => Meta(id, r.intent)
    case ChargeRefunded(id, i) => Meta(id, i)
    case _ => Meta(e.id, None)
  }

  // ---------------------------------------------------------------- the tables

  datatype CheckoutStatus = Open | Complete | Expired | AsyncFailed

  datatype CheckoutRow = CheckoutRow(
    request: RequestId, amount: int, currency: Currency,
    status: CheckoutStatus, failureCount: nat, intent: Option<IntentId>)

  datatype PaymentRow = PaymentRow(
    session: SessionId, intent: Option<IntentId>, request: RequestId, amount: int, currency: Currency)

  /** `payment` is the row it gives money back on (the tables only ever grow). */
  datatype RefundRow = RefundRow(refund: RefundId, payment: nat, amount: nat)

  datatype EventRow = EventRow(outcome: Outcome, intent: Option<IntentId>)

  datatype Db = Db(
    events: map<EventId, EventRow>,
    checkouts: map<SessionId, CheckoutRow>,
    payments: seq<PaymentRow>,
    refunds: seq<RefundRow>)

  function PaymentOfSession(rows: seq<PaymentRow>, s: SessionId): (r: Option<nat>)
    ensures r.Some? ==> r.value < |rows| && rows[r.value].session == s
    ensures r.None? ==> forall k :: 0 <= k < |rows| ==> rows[k].session != s
  {
    if rows == [] then None
    else if rows[|rows| - 1].session == s then Some(|rows| - 1)
    else PaymentOfSession(rows[..|rows| - 1], s)
  }

  function PaymentOfIntent(rows: seq<PaymentRow>, i: IntentId): (r: Option<nat>)
    ensures r.Some? ==> r.value < |rows| && rows[r.value].intent == Some(i)
    ensures r.None? ==> forall k :: 0 <= k < |rows| ==> rows[k].intent != Some(i)
  {
    if rows == [] then None
    else if rows[|rows| - 1].intent == Some(i) then Some(|rows| - 1)
    else PaymentOfIntent(rows[..|rows| - 1], i)
  }

  predicate HasRefund(rows: seq<RefundRow>, r: RefundId) {
    exists k :: 0 <= k < |rows| && rows[k].refund == r
  }

  predicate Waiting(events: map<EventId, EventRow>, i: IntentId) {
    exists id :: id in events && events[id] == EventRow(RefundDeferred, Some(i))
  }

  // ---------------------------------------------------------------- the transactions

  /** An event's row and nothing else; createMany with skipDuplicates. */
  function TxRemember(db: Db, meta: Meta, outcome: Outcome): (Db, Outcome) {
    if meta.id in db.events then (db, Duplicate)
    else (db.(events := db.events[meta.id := EventRow(outcome, meta.intent)]), outcome)
  }

  /** A sync or a found session has no event of its own. */
  function TxMaybeRemember(db: Db, meta: Option<Meta>, outcome: Outcome): (Db, Outcome) {
    if meta.Some? then TxRemember(db, meta.value, outcome) else (db, outcome)
  }

  /** The mismatch audit inserts its event with `create`, so a taken id throws. */
  function TxMismatch(db: Db, meta: Option<Meta>): (Db, Outcome) {
    if meta.Some? && meta.value.id in db.events then (db, Thrown) else TxMaybeRemember(db, meta, Mismatch)
  }

  function TxComplete(db: Db, s: SessionId): Db
    requires s in db.checkouts
  {
    db.(checkouts := db.checkouts[s := db.checkouts[s].(status := Complete)])
  }

  function TxMark(db: Db, s: SessionId, status: CheckoutStatus): Db {
    if s in db.checkouts && db.checkouts[s].status == Open
    then db.(checkouts := db.checkouts[s := db.checkouts[s].(status := status)])
    else db
  }

  /** The event, the payment (unique on its session and on its intent) and its checkout, all or nothing. */
  function TxConfirm(db: Db, meta: Option<Meta>, session: Session, checkout: CheckoutRow): (Db, Outcome)
    requires session.id in db.checkouts
  {
    if meta.Some? && meta.value.id in db.events then (db, Duplicate)
    else if PaymentOfSession(db.payments, session.id).Some?
         || (session.intent.Some? && PaymentOfIntent(db.payments, session.intent.value).Some?) then
      (db, AlreadyRecorded)
    else
      var row := PaymentRow(session.id, session.intent, checkout.request, checkout.amount, checkout.currency);
      var (db1, _) := TxMaybeRemember(db, meta, Recorded);
      (db1.(payments := db.payments + [row],
            checkouts := db.checkouts[session.id := db.checkouts[session.id].(status := Complete, intent := session.intent)]),
       Recorded)
  }

  /** The event and the decline it counts. */
  function TxDecline(db: Db, meta: Meta, s: SessionId, i: IntentId): (Db, Outcome)
    requires s in db.checkouts
  {
    if meta.id in db.events then (db, Duplicate)
    else
      var c := db.checkouts[s];
      var (db1, _) := TxRemember(db, meta, PaymentFailed);
      (db1.(checkouts := db.checkouts[s := c.(failureCount := c.failureCount + 1, intent := Some(i))]), PaymentFailed)
  }

  /** The event and the refund, under the payment's row lock; once per Stripe refund id. */
  function TxRecordRefund(db: Db, meta: Option<Meta>, payment: nat, refund: RefundFacts): (Db, Outcome) {
    if meta.Some? && meta.value.id in db.events then (db, Duplicate)
    else
      var (db1, _) := TxMaybeRemember(db, meta, RefundRecorded);
      if HasRefund(db.refunds, refund.id) then (db1, RefundRecorded)
      else (db1.(refunds := db.refunds + [RefundRow(refund.id, payment, refund.amount)]), RefundRecorded)
  }

  /** The amount, the currency and the request Chat asked Stripe for. */
  predicate Matches(session: Session, checkout: CheckoutRow) {
    session.amount == checkout.amount && session.currency == checkout.currency
    && (session.requestTag.Some? ==> session.requestTag.value == checkout.request)
  }

  // ---------------------------------------------------------------- one delivery, run to its end

  /** recordRefund */
  function RecordRefund(db: Db, meta: Option<Meta>, payment: nat, refund: RefundFacts): (Db, Outcome) {
    if refund.status.Succeeded? || refund.status.Pending? then
      TxRecordRefund(db, meta, payment, refund)
    else if meta.None? then (db, RefundNotFinal)
    else if (refund.status.Failed? || refund.status.Canceled?) && HasRefund(db.refunds, refund.id) then
      TxRemember(db, meta.value, RefundFailedAfterRecord)
    else
      TxRemember(db, meta.value, RefundNotFinal)
  }

  /** syncRefunds over the list still to do: its oldest (last) entry first. */
  function SyncEach(db: Db, payment: nat, list: seq<RefundFacts>): (Db, nat)
    requires payment < |db.payments|
    decreases |list|
  {
    if list == [] then (db, 0)
    else
      var r := list[|list| - 1];
      var rest := list[..|list| - 1];
      if (r.intent.Some? && r.intent != db.payments[payment].intent) || HasRefund(db.refunds, r.id) then
        SyncEach(db, payment, rest)
      else
        var (db1, o) := RecordRefund(db, None, payment, r);
        var (db2, n) := SyncEach(db1, payment, rest);
        (db2, if o == RefundRecorded then n + 1 else n)
  }

  /** syncRefunds */
  function SyncRefunds(db: Db, stripe: Stripe, payment: nat): (Db, nat)
    requires payment < |db.payments|
  {
    var i := db.payments[payment].intent;
    if i.None? || !stripe.available then (db, 0) else SyncEach(db, payment, stripe.RefundsOf(i.value))
  }

  /** syncDeferredRefunds: best effort, a lookup that throws is swallowed. */
  function SyncDeferred(db: Db, stripe: Stripe, payment: nat): Db
    requires payment < |db.payments|
  {
    var i := db.payments[payment].intent;
    if i.None? || !Waiting(db.events, i.value) || !stripe.reachable then db else SyncRefunds(db, stripe, payment).0
  }

  /** The event's row learns the intent of the session it confirms. */
  function WithIntent(meta: Option<Meta>, session: Session): Option<Meta> {
    if meta.Some? && meta.value.intent.None? then Some(meta.value.(intent := session.intent)) else meta
  }

  /** confirm */
  function Confirm(db: Db, stripe: Stripe, session: Session, meta: Option<Meta>): (Db, Outcome) {
    if session.id !in db.checkouts then TxMaybeRemember(db, meta, UnknownSession)
    else
      var m := WithIntent(meta, session);
      if PaymentOfSession(db.payments, session.id).Some? then
        TxMaybeRemember(TxComplete(db, session.id), m, AlreadyRecorded)
      else if !Matches(session, db.checkouts[session.id]) then TxMismatch(db, m)
      else
        var (db1, o) := TxConfirm(db, m, session, db.checkouts[session.id]);
        if o == Recorded then (SyncDeferred(db1, stripe, |db.payments|), o) else (db1, o)
  }

  function OnIntentSucceeded(db: Db, stripe: Stripe, e: Event): (Db, Outcome)
    requires e.IntentSucceeded?
  {
    if !e.ours || !stripe.available then TxRemember(db, MetaOf(e), Ignored)
    else if !stripe.reachable then (db, Thrown)
    else
      var s := stripe.SessionOfIntent(e.pi);
      if s.None? then TxRemember(db, MetaOf(e), UnknownSession)
      else if !s.value.paid then TxRemember(db, MetaOf(e), AwaitingPayment)
      else Confirm(db, stripe, s.value, Some(MetaOf(e)))
  }

  function OnIntentFailed(db: Db, stripe: Stripe, e: Event): (Db, Outcome)
    requires e.IntentFailed?
  {
    if !e.ours || !stripe.available then TxRemember(db, MetaOf(e), Ignored)
    else if !stripe.reachable then (db, Thrown)
    else
      var s := stripe.SessionOfIntent(e.pi);
      if s.None? || s.value.id !in db.checkouts then TxRemember(db, MetaOf(e), UnknownSession)
      else TxDecline(db, MetaOf(e), s.value.id, e.pi)
  }

  function OnRefund(db: Db, e: Event): (Db, Outcome)
    requires e.RefundChanged?
  {
    var i := e.refund.intent;
    var p := if i.Some? then PaymentOfIntent(db.payments, i.value) else None;
    if p.None? then TxRemember(db, MetaOf(e), RefundDeferred)
    else RecordRefund(db, Some(MetaOf(e)), p.value, e.refund)
  }

  function OnCharge(db: Db, stripe: Stripe, e: Event): (Db, Outcome)
    requires e.ChargeRefunded?
  {
    if e.charged.None? then TxRemember(db, MetaOf(e), Ignored)
    else
      var p := PaymentOfIntent(db.payments, e.charged.value);
      if p.None? || !stripe.available then TxRemember(db, MetaOf(e), RefundDeferred)
      else if !stripe.reachable then (db, Thrown)
      else
        var (db1, n) := SyncRefunds(db, stripe, p.value);
        TxRemember(db1, MetaOf(e), if n > 0 then RefundRecorded else AlreadyRecorded)
  }

  /** handleEvent */
  function HandleEvent(db: Db, stripe: Stripe, e: Event): (Db, Outcome) {
    if e.id in db.events then (db, Duplicate)
    else
      match e
      case SessionSettled(_, s) =>
        if s.paid then Confirm(db, stripe, s, Some(MetaOf(e))) else TxRemember(db, MetaOf(e), AwaitingPayment)
      case SessionFailed(_, s) => TxRemember(TxMark(db, s, AsyncFailed), MetaOf(e), CheckoutHasFailed)
      case SessionExpired(_, s) => TxRemember(TxMark(db, s, Expired), MetaOf(e), CheckoutWasExpired)
      case IntentSucceeded(_, _, _) => OnIntentSucceeded(db, stripe, e)
      case IntentFailed(_, _, _) => OnIntentFailed(db, stripe, e)
      case RefundChanged(_, _) => OnRefund(db, e)
      case ChargeRefunded(_, _) => OnCharge(db, stripe, e)
      case OtherEvent(_) => TxRemember(db, MetaOf(e), Ignored)
  }

  /** Deliveries that do not overlap, in the order they arrive. */
  function Deliver(db: Db, stripe: Stripe, events: seq<Event>): Db {
    if events == [] then db
    else HandleEvent(Deliver(db, stripe, events[..|events| - 1]), stripe, events[|events| - 1]).0
  }
}
