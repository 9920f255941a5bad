/**
  * Opening Stripe's page for what a request still owes. Earlier sessions of the
  * request are looked at first: a paid one is recorded, an open one is expired.
  */
module CheckoutOpen {
  import opened Options
  import opened CheckoutDb

  /** What one request asks for; `others` is what its other payments cover, `payable` that it may still be paid. */
  datatype Request = Request(id: RequestId, amount: int, currency: Currency, others: nat, payable: bool)

  /** The session an idempotency key made, and what was asked under it. */
  datatype KeyUse = KeyUse(session: SessionId, amount: int, currency: Currency, expiresAt: int)

  /** Stripe's sessions, what each idempotency key was used for, and the tables. */
  datatype Desk = Desk(sessions: map<SessionId, Session>, keys: map<(RequestId, nat), KeyUse>, db: Db)

  /**
    * How Stripe answers while one earlier session is looked at: whether retrieve
    * answers, the intent of a payment completed between the two calls, and whether
    * expire answers (it never does on a completed session).
    */
  datatype Weather = Weather(answers: bool, paidMeanwhile: Option<IntentId>, expireAnswers: bool)

  datatype Answer = Page(session: SessionId) | AlreadyPaid | NotPayable | Unavailable | Crashed

  /** When the page is to expire, in whole seconds, and how Stripe answers createCheckout. */
  datatype Creation = Creation(made: SessionId, expiresAt: int, refuses: bool, thenCrashes: bool)

  /** What is asked of Stripe, and the count of the request's attempts that its key carries. */
  datatype Asking = Asking(request: RequestId, count: nat, amount: int, currency: Currency, expiresAt: int)

  const MAX_CHECKOUTS_PER_HOUR := 10

  function WithStatus(db: Db, s: SessionId, status: CheckoutStatus): Db
    requires s in db.checkouts
  {
    db.(checkouts := db.checkouts[s := db.checkouts[s].(status := status)])
  }

  function RowsOf(db: Db, r: RequestId): set<SessionId> {
    set s | s in db.checkouts && db.checkouts[s].request == r
  }

  /** The request's attempts so far: its idempotency key counts them. */
  function Attempts(db: Db, r: RequestId): nat {
    |RowsOf(db, r)|
  }

  /** The card payments of a request; a card payment is never voided. */
  function StandingSum(rows: seq<PaymentRow>, r: RequestId): int {
    if rows == [] then 0
    else StandingSum(rows[..|rows| - 1], r) + (if rows[|rows| - 1].request == r then rows[|rows| - 1].amount else 0)
  }

  function Remaining(db: Db, req: Request): int {
    req.amount - req.others - StandingSum(db.payments, req.id)
  }

  predicate Known(desk: Desk, list: seq<SessionId>) {
    forall k :: 0 <= k < |list| ==> list[k] in desk.sessions && list[k] in desk.db.checkouts
  }

  /** One turn of the loop over the earlier sessions. */
  function CloseOne(desk: Desk, stripe: Stripe, s: SessionId, w: Weather): Desk
    requires s in desk.sessions && s in desk.db.checkouts
  {
    if !w.answers then desk
    else
      var session := desk.sessions[s];
      if session.status.StripeComplete? && session.paid then
        desk.(db := Confirm(desk.db, stripe, session, None).0)
      else if session.status.StripeOpen? then
        var after :=
          if w.paidMeanwhile.Some? then session.(status := StripeComplete, paid := true, intent := w.paidMeanwhile)
          else if w.expireAnswers then session.(status := StripeExpired)
          else session;
        desk.(sessions := desk.sessions[s := after], db := WithStatus(desk.db, s, Expired))
      else
        desk.(db := WithStatus(desk.db, s, if session.status.StripeComplete? then Complete else Expired))
  }

  lemma ConfirmKeepsRows(db: Db, stripe: Stripe, session: Session, meta: Option<Meta>)
    ensures var db1 := Confirm(db, stripe, session, meta).0;
            && db1.checkouts.Keys == db.checkouts.Keys
            && db.payments <= db1.payments
            && (forall s :: s in db.checkouts ==> db1.checkouts[s].request == db.checkouts[s].request && db1.checkouts[s].amount == db.checkouts[s].amount)
            && (forall s :: s in db.checkouts && s != session.id ==> db1.checkouts[s] == db.checkouts[s])
  {
    if session.id in db.checkouts {
      var (db0, o) := TxConfirm(db, WithIntent(meta, session), session, db.checkouts[session.id]);
      if o == Recorded {
        SyncKeepsRows(db0, stripe, |db.payments|);
      }
    }
  }

  lemma SyncKeepsRows(db: Db, stripe: Stripe, p: nat)
    requires p < |db.payments|
    ensures var db1 := SyncDeferred(db, stripe, p); db1.checkouts == db.checkouts && db1.payments == db.payments
  {
    if db.payments[p].intent.Some? {
      SyncEachKeepsRows(db, p, stripe.RefundsOf(db.payments[p].intent.value));
    }
  }

  lemma {:induction false} SyncEachKeepsRows(db: Db, p: nat, list: seq<RefundFacts>)
    requires p < |db.payments|
    ensures var db1 := SyncEach(db, p, list).0; db1.checkouts == db.checkouts && db1.payments == db.payments
    decreases |list|
  {
    if list != [] {
      var r, rest := list[|list| - 1], list[..|list| - 1];
      SyncEachKeepsRows(db, p, rest);
      SyncEachKeepsRows(RecordRefund(db, None, p, r).0, p, rest);
    }
  }

  lemma CloseOneKeeps(desk: Desk, stripe: Stripe, s: SessionId, w: Weather)
    requires s in desk.sessions && s in desk.db.checkouts
    ensures var d := CloseOne(desk, stripe, s, w);
            && d.keys == desk.keys && d.sessions.Keys == desk.sessions.Keys
            && d.db.checkouts.Keys == desk.db.checkouts.Keys && desk.db.payments <= d.db.payments
            && (forall t :: t in desk.sessions && t != s ==> d.sessions[t] == desk.sessions[t])
            && (forall t :: t in desk.db.checkouts ==> d.db.checkouts[t].request == desk.db.checkouts[t].request && d.db.checkouts[t].amount == desk.db.checkouts[t].amount)
  {
    var d := CloseOne(desk, stripe, s, w);
    if w.answers {
      if desk.sessions[s].status.StripeComplete? && desk.sessions[s].paid {
        ConfirmKeepsRows(desk.db, stripe, desk.sessions[s], None);
      } else {
        assert d.db.checkouts.Keys == desk.db.checkouts.Keys;
      }
    }
  }

  /** The whole loop. */
  function CloseAll(desk: Desk, stripe: Stripe, list: seq<SessionId>, weather: SessionId -> Weather): (d: Desk)
    requires Known(desk, list)
    ensures d.keys == desk.keys && d.sessions.Keys == desk.sessions.Keys && d.db.checkouts.Keys == desk.db.checkouts.Keys
    ensures desk.db.payments <= d.db.payments
    ensures forall t :: t in desk.sessions && t !in list ==> d.sessions[t] == desk.sessions[t]
    ensures forall t | t in desk.db.checkouts ::
              d.db.checkouts[t].request == desk.db.checkouts[t].request && d.db.checkouts[t].amount == desk.db.checkouts[t].amount
  {
    if list == [] then desk
    else
      var before := CloseAll(desk, stripe, list[..|list| - 1], weather);
      CloseOneKeeps(before, stripe, list[|list| - 1], weather(list[|list| - 1]));
      CloseOne(before, stripe, list[|list| - 1], weather(list[|list| - 1]))
  }

  function AskingOf(db: Db, req: Request, c: Creation): Asking {
    Asking(req.id, Attempts(db, req.id), Remaining(db, req), req.currency, c.expiresAt)
  }

  /** Stripe refuses a key that comes again with anything else asked under it. */
  predicate KeyRefuses(keys: map<(RequestId, nat), KeyUse>, a: Asking) {
    var key := (a.request, a.count);
    key in keys && keys[key] != KeyUse(keys[key].session, a.amount, a.currency, a.expiresAt)
  }

  lemma OneTurnMore(desk: Desk, stripe: Stripe, list: seq<SessionId>, k: nat, weather: SessionId -> Weather)
    requires Known(desk, list) && k < |list|
    ensures Known(desk, list[..k]) && Known(desk, list[..k + 1])
    ensures var before := CloseAll(desk, stripe, list[..k], weather);
            && list[k] in before.sessions && list[k] in before.db.checkouts
            && CloseAll(desk, stripe, list[..k + 1], weather) == CloseOne(before, stripe, list[k], weather(list[k]))
  {
    assert list[..k + 1][..k] == list[..k];
  }

  /** createCheckout under the asking's key: the key's own session, a fresh one, or a refusal. */
  function Created(desk: Desk, a: Asking, c: Creation): (Desk, Option<SessionId>) {
    var key := (a.request, a.count);
    if c.refuses || KeyRefuses(desk.keys, a) then (desk, None)
    else if key in desk.keys then (desk, Some(desk.keys[key].session))
    else
      var s := Session(c.made, StripeOpen, false, a.amount, a.currency, None, Some(a.request));
      (desk.(sessions := desk.sessions[c.made := s], keys := desk.keys[key := KeyUse(c.made, a.amount, a.currency, a.expiresAt)]),
       Some(c.made))
  }

  /** The page's row; its session is unique. */
  function WithRow(desk: Desk, a: Asking, s: Option<SessionId>): (Desk, Answer) {
    if s.None? then (desk, Unavailable)
    else if s.value in desk.db.checkouts then (desk, Crashed)
    else
      (desk.(db := desk.db.(checkouts := desk.db.checkouts[s.value := CheckoutRow(a.request, a.amount, a.currency, Open, 0, None)])),
       Page(s.value))
  }

  /** From createCheckout to the row. */
  function Ask(desk: Desk, a: Asking, c: Creation): (Desk, Answer) {
    var (d, s) := Created(desk, a, c);
    if s.Some? && c.thenCrashes then (d, Crashed) else WithRow(d, a, s)
  }

  /** From the fresh read of the request to its answer. */
  function Finish(desk: Desk, req: Request, c: Creation): (Desk, Answer) {
    if !req.payable then (desk, NotPayable)
    else if Remaining(desk.db, req) <= 0 then (desk, AlreadyPaid)
    else Ask(desk, AskingOf(desk.db, req, c), c)
  }

  /** findMany: the request's rows with status open, each once. */
  ghost predicate ListsOpenRows(list: seq<SessionId>, db: Db, r: RequestId) {
    && (forall s :: s in list <==> s in db.checkouts && db.checkouts[s].request == r && db.checkouts[s].status == Open)
    && (forall j, k :: 0 <= j < k < |list| ==> list[j] != list[k])
  }

  class Opening {
    var desk: Desk

    constructor (d: Desk)
      ensures desk == d
    {
      desk := d;
    }

    /** open: `recent` rows were made in the last hour, `list` are its rows still open. */
    method Open(req: Request, recent: nat, list: seq<SessionId>, stripe: Stripe, weather: SessionId -> Weather, c: Creation) returns (a: Answer)
      requires Known(desk, list) && ListsOpenRows(list, desk.db, req.id)
      modifies this
      ensures !stripe.available || recent >= 10 || !req.payable ==>
                desk == old(desk) && (a == Unavailable || a == NotPayable)
      ensures stripe.available && recent < 10 && req.payable ==>
                (desk, a) == Finish(CloseAll(old(desk), stripe, list, weather), req, c)
                && (a == AlreadyPaid <==> req.others + StandingSum(desk.db.payments, req.id) >= req.amount)
      ensures a.Page? ==>
                && a.session in desk.db.checkouts && desk.db.checkouts[a.session].amount > 0
                && desk.db.checkouts[a.session].amount + req.others + StandingSum(desk.db.payments, req.id) == req.amount
    {
      if !stripe.available {
        return Unavailable;
      }
      if !req.payable || recent >= MAX_CHECKOUTS_PER_HOUR {
        return NotPayable;
      }
      CloseEarlier(list, stripe, weather);
      var remaining := Remaining(desk.db, req);
      if remaining <= 0 {
        return AlreadyPaid;
      }
      a := AskStripe(Asking(req.id, Attempts(desk.db, req.id), remaining, req.currency, c.expiresAt), c);
    }

    method CloseEarlier(list: seq<SessionId>, stripe: Stripe, weather: SessionId -> Weather)
      requires Known(desk, list)
      modifies this
      ensures desk == CloseAll(old(desk), stripe, list, weather)
    {
      var k := 0;
      while k < |list|
        invariant 0 <= k <= |list|
        invariant Known(old(desk), list[..k])
        invariant desk == CloseAll(old(desk), stripe, list[..k], weather)
      {
        OneTurnMore(old(desk), stripe, list, k, weather);
        LookAt(list[k], stripe, weather(list[k]));
        k := k + 1;
      }
      assert list[..k] == list;
    }

    /** One earlier session: recorded if paid, expired if open, its row brought up to date. */
    method LookAt(s: SessionId, stripe: Stripe, w: Weather)
      requires s in desk.sessions && s in desk.db.checkouts
      modifies this
      ensures desk == CloseOne(old(desk), stripe, s, w)
    {
      if !w.answers {
        return;
      }
      var session := desk.sessions[s];
      if session.status.StripeComplete? && session.paid {
        desk := desk.(db := Confirm(desk.db, stripe, session, None).0);
      } else if session.status.StripeOpen? {
        var after := session;
        if w.paidMeanwhile.Some? {
          after := session.(status := StripeComplete, paid := true, intent := w.paidMeanwhile);
        } else if w.expireAnswers {
          after := session.(status := StripeExpired);
        }
        desk := desk.(sessions := desk.sessions[s := after], db := WithStatus(desk.db, s, Expired));
      } else {
        desk := desk.(db := WithStatus(desk.db, s, if session.status.StripeComplete? then Complete else Expired));
      }
    }

    /** createCheckout, then the page's row. */
    method AskStripe(asking: Asking, c: Creation) returns (a: Answer)
      modifies this
      ensures (desk, a) == Ask(old(desk), asking, c)
    {
      var key := (asking.request, asking.count);
      if c.refuses || KeyRefuses(desk.keys, asking) {
        return Unavailable;
      }
      var s := c.made;
      if key in desk.keys {
        s := desk.keys[key].session;
      } else {
        desk := Desk(
          desk.sessions[s := Session(s, StripeOpen, false, asking.amount, asking.currency, None, Some(asking.request))],
          desk.keys[key := KeyUse(s, asking.amount, asking.currency, asking.expiresAt)], desk.db);
      }
      if c.thenCrashes || s in desk.db.checkouts {
        return Crashed;
      }
      var row := CheckoutRow(asking.request, asking.amount, asking.currency, CheckoutStatus.Open, 0, None);
      desk := desk.(db := desk.db.(checkouts := desk.db.checkouts[s := row]));
      return Page(s);
    }
  }
}
