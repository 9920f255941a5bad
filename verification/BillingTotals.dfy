/**
  * One family's money: what its instalments and payments add up to, per currency, as
  * staff read it and as the parents read it.
  */
module BillingTotals {
  import opened Options
  import opened Numerals
  import opened Instalments

  type Currency = nat
  type InstalmentId = nat

  datatype Instalment = Instalment(id: InstalmentId, amount: nat, currency: Currency, due: string, paid: bool, voided: bool)

  /** `voidNamed`: who voided it and why are kept with it. */
  datatype Payment = Payment(instalment: Option<InstalmentId>, amount: nat, currency: Currency, refunded: nat, voided: bool, voidNamed: bool)

  /** An instalment as a page shows it; `status` is None for a voided one. */
  datatype Line = Line(id: InstalmentId, status: Option<Status>, amount: nat, currency: Currency, paid: nat, remaining: nat)

  /** A payment as a page shows it. */
  datatype Shown = Shown(amount: nat, refunded: nat, currency: Currency, voided: bool)

  datatype Total = Total(paid: int, outstanding: int, overdue: int)

  const ZERO := Total(0, 0, 0)

  function Plus(a: Total, b: Total): Total {
    Total(a.paid + b.paid, a.outstanding + b.outstanding, a.overdue + b.overdue)
  }

  function Minus0(a: nat, b: nat): nat {
    if a > b then a - b else 0
  }

  // ---------------------------------------------------------------- what covers an instalment

  function CoversBy(p: Payment, id: InstalmentId): nat {
    if !p.voided && p.instalment == Some(id) then p.amount else 0
  }

  /** The standing payments of an instalment, refunded or not. */
  function Covered(payments: seq<Payment>, id: InstalmentId): nat {
    if payments == [] then 0 else Covered(payments[..|payments| - 1], id) + CoversBy(payments[|payments| - 1], id)
  }

  function At(covered: map<InstalmentId, nat>, id: InstalmentId): nat {
    if id in covered then covered[id] else 0
  }

  ghost predicate Covers(covered: map<InstalmentId, nat>, payments: seq<Payment>) {
    forall id :: At(covered, id) == Covered(payments, id)
  }

  /** byInstalment */
  method ByInstalment(payments: seq<Payment>) returns (covered: map<InstalmentId, nat>)
    ensures Covers(covered, payments)
  {
    covered := map[];
    for k := 0 to |payments|
      invariant Covers(covered, payments[..k])
    {
      assert payments[..k + 1][..k] == payments[..k];
      var p := payments[k];
      if !p.voided && p.instalment.Some? {
        covered := covered[p.instalment.value := At(covered, p.instalment.value) + p.amount];
      }
    }
    assert payments[..|payments|] == payments;
  }

  // ---------------------------------------------------------------- the two pages

  function Max(a: nat, b: nat): nat {
    if a > b then a else b
  }

  /** present: a row of the staff's timeline. */
  function Present(i: Instalment, today: string, covered: map<InstalmentId, nat>): Line {
    var c := At(covered, i.id);
    var paid := if i.paid then Max(i.amount, c) else if i.voided then 0 else c;
    Line(i.id, if i.voided then None else Some(StatusOf(i.paid, i.due, today)), i.amount, i.currency, paid,
         if i.paid || i.voided then 0 else Minus0(i.amount, paid))
  }

  /** A row of the parents' page, which reads no voided instalment. */
  function PresentMine(i: Instalment, today: string, covered: map<InstalmentId, nat>): Line {
    var c := At(covered, i.id);
    var paid := if i.paid then Max(i.amount, c) else c;
    Line(i.id, Some(StatusOf(i.paid, i.due, today)), i.amount, i.currency, paid, if i.paid then 0 else Minus0(i.amount, paid))
  }

  function StaffLines(rows: seq<Instalment>, today: string, covered: map<InstalmentId, nat>): seq<Line> {
    if rows == [] then [] else StaffLines(rows[..|rows| - 1], today, covered) + [Present(rows[|rows| - 1], today, covered)]
  }

  function MyLines(rows: seq<Instalment>, today: string, covered: map<InstalmentId, nat>): seq<Line> {
    if rows == [] then []
    else
      var last := rows[|rows| - 1];
      MyLines(rows[..|rows| - 1], today, covered) + (if last.voided then [] else [PresentMine(last, today, covered)])
  }

  function StaffPayments(payments: seq<Payment>): seq<Shown> {
    if payments == [] then []
    else
      var p := payments[|payments| - 1];
      StaffPayments(payments[..|payments| - 1]) + [Shown(p.amount, p.refunded, p.currency, p.voided && p.voidNamed)]
  }

  function MyPayments(payments: seq<Payment>): seq<Shown> {
    if payments == [] then []
    else
      var p := payments[|payments| - 1];
      MyPayments(payments[..|payments| - 1]) + (if p.voided then [] else [Shown(p.amount, p.refunded, p.currency, false)])
  }

  // ---------------------------------------------------------------- totalsOf

  /** What one line adds to its currency: paid only for the part no payment covers. */
  function OfLine(t: Line, covered: map<InstalmentId, nat>, c: Currency): Total {
    if t.status.None? || t.currency != c then ZERO
    else Total(Minus0(t.paid, At(covered, t.id)), t.remaining, if t.status == Some(Overdue) then t.remaining else 0)
  }

  function OfPayment(p: Shown, c: Currency): Total {
    if p.voided || p.currency != c then ZERO else Total(Minus0(p.amount, p.refunded), 0, 0)
  }

  function OfLines(rows: seq<Line>, covered: map<InstalmentId, nat>, c: Currency): Total {
    if rows == [] then ZERO else Plus(OfLines(rows[..|rows| - 1], covered, c), OfLine(rows[|rows| - 1], covered, c))
  }

  /** The payments, added to what the lines come to. */
  function OfPayments(lines: Total, payments: seq<Shown>, c: Currency): Total {
    if payments == [] then lines else Plus(OfPayments(lines, payments[..|payments| - 1], c), OfPayment(payments[|payments| - 1], c))
  }

  predicate LineNames(rows: seq<Line>, c: Currency) {
    rows != [] && (LineNames(rows[..|rows| - 1], c) || (rows[|rows| - 1].status.Some? && rows[|rows| - 1].currency == c))
  }

  predicate PaymentNames(payments: seq<Shown>, c: Currency) {
    payments != [] && (PaymentNames(payments[..|payments| - 1], c) || (!payments[|payments| - 1].voided && payments[|payments| - 1].currency == c))
  }

  function SumOf(totals: map<Currency, Total>, c: Currency): Total {
    if c in totals then totals[c] else ZERO
  }

  ghost predicate Sums(totals: map<Currency, Total>, rows: seq<Line>, payments: seq<Shown>, covered: map<InstalmentId, nat>) {
    forall c :: SumsAt(totals, rows, payments, covered, c)
  }

  ghost predicate SumsAt(totals: map<Currency, Total>, rows: seq<Line>, payments: seq<Shown>, covered: map<InstalmentId, nat>, c: Currency) {
    && (c in totals <==> LineNames(rows, c) || PaymentNames(payments, c))
    && SumOf(totals, c) == OfPayments(OfLines(rows, covered, c), payments, c)
  }

  ghost predicate LineSums(totals: map<Currency, Total>, rows: seq<Line>, covered: map<InstalmentId, nat>) {
    forall c :: LineSumsAt(totals, rows, covered, c)
  }

  ghost predicate LineSumsAt(totals: map<Currency, Total>, rows: seq<Line>, covered: map<InstalmentId, nat>, c: Currency) {
    (c in totals <==> LineNames(rows, c)) && SumOf(totals, c) == OfLines(rows, covered, c)
  }

  /** totalsOf: a sum for each currency a line or a standing payment names. */
  method TotalsOf(rows: seq<Line>, payments: seq<Shown>, covered: map<InstalmentId, nat>) returns (totals: map<Currency, Total>)
    ensures Sums(totals, rows, payments, covered)
  {
    totals := SumLines(rows, covered);
    NoPaymentsYet(totals, rows, covered, payments[..0]);
    totals := SumPayments(totals, rows, payments, covered);
  }

  lemma NoPaymentsYet(totals: map<Currency, Total>, rows: seq<Line>, covered: map<InstalmentId, nat>, none: seq<Shown>)
    requires LineSums(totals, rows, covered) && |none| == 0
    ensures Sums(totals, rows, none, covered)
  {
    forall c ensures SumsAt(totals, rows, none, covered, c) {
      assert LineSumsAt(totals, rows, covered, c);
      NoPaymentsAt(totals, rows, covered, none, c);
    }
  }

  lemma NoPaymentsAt(totals: map<Currency, Total>, rows: seq<Line>, covered: map<InstalmentId, nat>, none: seq<Shown>, c: Currency)
    requires LineSumsAt(totals, rows, covered, c) && |none| == 0
    ensures SumsAt(totals, rows, none, covered, c)
  {
  }

  method SumLines(rows: seq<Line>, covered: map<InstalmentId, nat>) returns (totals: map<Currency, Total>)
    ensures LineSums(totals, rows, covered)
  {
    totals := map[];
    for k := 0 to |rows|
      invariant LineSums(totals, rows[..k], covered)
    {
      OneLineSummed(totals, rows[..k], rows[k], covered);
      assert rows[..k + 1] == rows[..k] + [rows[k]];
      if rows[k].status.Some? {
        var sum := SumOf(totals, rows[k].currency);
        totals := totals[rows[k].currency := Total(
          sum.paid + Minus0(rows[k].paid, At(covered, rows[k].id)),
          sum.outstanding + rows[k].remaining,
          if rows[k].status == Some(Overdue) then sum.overdue + rows[k].remaining else sum.overdue)];
      }
    }
    assert rows[..|rows|] == rows;
  }

  method SumPayments(before: map<Currency, Total>, rows: seq<Line>, payments: seq<Shown>, covered: map<InstalmentId, nat>) returns (totals: map<Currency, Total>)
    requires Sums(before, rows, payments[..0], covered)
    ensures Sums(totals, rows, payments, covered)
  {
    totals := before;
    for k := 0 to |payments|
      invariant Sums(totals, rows, payments[..k], covered)
    {
      OnePaymentSummed(totals, rows, payments[..k], payments[k], covered);
      assert payments[..k + 1] == payments[..k] + [payments[k]];
      if !payments[k].voided {
        var sum := SumOf(totals, payments[k].currency);
        totals := totals[payments[k].currency := sum.(paid := sum.paid + Minus0(payments[k].amount, payments[k].refunded))];
      }
    }
    assert payments[..|payments|] == payments;
  }

  lemma OneLineSummed(totals: map<Currency, Total>, rows: seq<Line>, t: Line, covered: map<InstalmentId, nat>)
    requires LineSums(totals, rows, covered)
    ensures LineSums(WithLine(totals, t, covered), rows + [t], covered)
  {
    forall c ensures LineSumsAt(WithLine(totals, t, covered), rows + [t], covered, c) {
      assert LineSumsAt(totals, rows, covered, c);
      LineSummedAt(totals, rows, t, covered, c);
    }
  }

  function WithLine(totals: map<Currency, Total>, t: Line, covered: map<InstalmentId, nat>): map<Currency, Total> {
    if t.status.Some? then totals[t.currency := Plus(SumOf(totals, t.currency), OfLine(t, covered, t.currency))] else totals
  }

  lemma LineSummedAt(totals: map<Currency, Total>, rows: seq<Line>, t: Line, covered: map<InstalmentId, nat>, c: Currency)
    requires LineSumsAt(totals, rows, covered, c)
    ensures LineSumsAt(WithLine(totals, t, covered), rows + [t], covered, c)
  {
    LinesAppend(rows, t, covered, c);
    if t.status.Some? {
      Updated(totals, t.currency, OfLine(t, covered, t.currency), c);
    }
    PlusZero(OfLines(rows, covered, c), OfLine(t, covered, c));
  }

  lemma PlusZero(a: Total, z: Total)
    ensures z == ZERO ==> Plus(a, z) == a
  {
  }

  lemma Updated(totals: map<Currency, Total>, at: Currency, more: Total, c: Currency)
    ensures SumOf(totals[at := Plus(SumOf(totals, at), more)], c) == if c == at then Plus(SumOf(totals, c), more) else SumOf(totals, c)
  {
  }

  lemma OnePaymentSummed(totals: map<Currency, Total>, rows: seq<Line>, payments: seq<Shown>, p: Shown, covered: map<InstalmentId, nat>)
    requires Sums(totals, rows, payments, covered)
    ensures Sums(WithPayment(totals, p), rows, payments + [p], covered)
  {
    forall c ensures SumsAt(WithPayment(totals, p), rows, payments + [p], covered, c) {
      assert SumsAt(totals, rows, payments, covered, c);
      PaymentSummedAt(totals, rows, payments, p, covered, c);
    }
  }

  function WithPayment(totals: map<Currency, Total>, p: Shown): map<Currency, Total> {
    if p.voided then totals else totals[p.currency := Plus(SumOf(totals, p.currency), OfPayment(p, p.currency))]
  }

  lemma PaymentSummedAt(totals: map<Currency, Total>, rows: seq<Line>, payments: seq<Shown>, p: Shown, covered: map<InstalmentId, nat>, c: Currency)
    requires SumsAt(totals, rows, payments, covered, c)
    ensures SumsAt(WithPayment(totals, p), rows, payments + [p], covered, c)
  {
    PaymentsAppend(OfLines(rows, covered, c), payments, p, c);
    if !p.voided {
      Updated(totals, p.currency, OfPayment(p, p.currency), c);
    }
    PlusZero(OfPayments(OfLines(rows, covered, c), payments, c), OfPayment(p, c));
  }

  lemma PaymentsAppend(lines: Total, payments: seq<Shown>, p: Shown, c: Currency)
    ensures OfPayments(lines, payments + [p], c) == Plus(OfPayments(lines, payments, c), OfPayment(p, c))
    ensures PaymentNames(payments + [p], c) <==> PaymentNames(payments, c) || (!p.voided && p.currency == c)
  {
    assert (payments + [p])[..|payments|] == payments;
  }

  lemma LinesAppend(lines: seq<Line>, t: Line, covered: map<InstalmentId, nat>, c: Currency)
    ensures OfLines(lines + [t], covered, c) == Plus(OfLines(lines, covered, c), OfLine(t, covered, c))
    ensures LineNames(lines + [t], c) <==> LineNames(lines, c) || (t.status.Some? && t.currency == c)
  {
    assert (lines + [t])[..|lines|] == lines;
  }

  // ---------------------------------------------------------------- conservation

  /** Standing payments, net of refunds. */
  function NetPaid(payments: seq<Payment>, c: Currency): nat {
    if payments == [] then 0
    else
      var p := payments[|payments| - 1];
      NetPaid(payments[..|payments| - 1], c) + (if p.voided || p.currency != c then 0 else Minus0(p.amount, p.refunded))
  }

  /** Of the instalments marked paid, what no payment covers. */
  function Uncovered(rows: seq<Instalment>, payments: seq<Payment>, c: Currency): nat {
    if rows == [] then 0
    else
      var i := rows[|rows| - 1];
      Uncovered(rows[..|rows| - 1], payments, c)
      + (if i.voided || !i.paid || i.currency != c then 0 else Minus0(i.amount, Covered(payments, i.id)))
  }

  /** Of the open instalments, what is still owed; of those due before today if `late`. */
  function Owed(rows: seq<Instalment>, payments: seq<Payment>, c: Currency, today: string, late: bool): nat {
    if rows == [] then 0
    else
      var i := rows[|rows| - 1];
      Owed(rows[..|rows| - 1], payments, c, today, late)
      + (if i.voided || i.paid || i.currency != c || (late && !TextLess(i.due, today)) then 0 else Minus0(i.amount, Covered(payments, i.id)))
  }

  function Expected(rows: seq<Instalment>, payments: seq<Payment>, c: Currency, today: string): Total {
    Total(NetPaid(payments, c) + Uncovered(rows, payments, c), Owed(rows, payments, c, today, false), Owed(rows, payments, c, today, true))
  }

  /** One instalment's part of each sum. */
  function PartOf(i: Instalment, payments: seq<Payment>, c: Currency, today: string): Total {
    var rest := Minus0(i.amount, Covered(payments, i.id));
    if i.voided || i.currency != c then ZERO
    else if i.paid then Total(rest, 0, 0)
    else Total(0, rest, if TextLess(i.due, today) then rest else 0)
  }

  function PartsOf(rows: seq<Instalment>, payments: seq<Payment>, c: Currency, today: string): Total {
    Total(Uncovered(rows, payments, c), Owed(rows, payments, c, today, false), Owed(rows, payments, c, today, true))
  }

  lemma PartsAppend(rows: seq<Instalment>, i: Instalment, payments: seq<Payment>, c: Currency, today: string)
    ensures PartsOf(rows + [i], payments, c, today) == Plus(PartsOf(rows, payments, c, today), PartOf(i, payments, c, today))
  {
    assert (rows + [i])[..|rows|] == rows;
  }

  lemma MyLineAdds(i: Instalment, payments: seq<Payment>, covered: map<InstalmentId, nat>, c: Currency, today: string)
    requires Covers(covered, payments) && !i.voided
    ensures OfLine(PresentMine(i, today, covered), covered, c) == PartOf(i, payments, c, today)
  {
    assert At(covered, i.id) == Covered(payments, i.id);
  }

  lemma {:induction false} MyLinesAdd(rows: seq<Instalment>, payments: seq<Payment>, covered: map<InstalmentId, nat>, c: Currency, today: string)
    requires Covers(covered, payments)
    ensures OfLines(MyLines(rows, today, covered), covered, c) == PartsOf(rows, payments, c, today)
    decreases |rows|
  {
    if rows != [] {
      var front, last := rows[..|rows| - 1], rows[|rows| - 1];
      assert rows == front + [last];
      MyLinesAdd(front, payments, covered, c, today);
      PartsAppend(front, last, payments, c, today);
      OneMoreOfMine(front, last, payments, covered, c, today);
    }
  }

  lemma OneMoreOfMine(front: seq<Instalment>, last: Instalment, payments: seq<Payment>, covered: map<InstalmentId, nat>, c: Currency, today: string)
    requires Covers(covered, payments)
    ensures OfLines(MyLines(front + [last], today, covered), covered, c)
         == Plus(OfLines(MyLines(front, today, covered), covered, c), PartOf(last, payments, c, today))
  {
    assert (front + [last])[..|front|] == front;
    var lines := MyLines(front, today, covered);
    if last.voided {
      assert MyLines(front + [last], today, covered) == lines;
    } else {
      MyLineAdds(last, payments, covered, c, today);
      LinesAppend(lines, PresentMine(last, today, covered), covered, c);
    }
  }

  lemma {:induction false} StaffLinesAdd(rows: seq<Instalment>, payments: seq<Payment>, covered: map<InstalmentId, nat>, c: Currency, today: string)
    requires Covers(covered, payments)
    ensures OfLines(StaffLines(rows, today, covered), covered, c) == PartsOf(rows, payments, c, today)
    decreases |rows|
  {
    if rows != [] {
      var front, last := rows[..|rows| - 1], rows[|rows| - 1];
      assert rows == front + [last];
      StaffLinesAdd(front, payments, covered, c, today);
      PartsAppend(front, last, payments, c, today);
      LinesAppend(StaffLines(front, today, covered), Present(last, today, covered), covered, c);
      StaffLineAdds(last, payments, covered, c, today);
    }
  }

  lemma StaffLineAdds(i: Instalment, payments: seq<Payment>, covered: map<InstalmentId, nat>, c: Currency, today: string)
    requires Covers(covered, payments)
    ensures OfLine(Present(i, today, covered), covered, c) == PartOf(i, payments, c, today)
  {
    assert At(covered, i.id) == Covered(payments, i.id);
  }

  lemma {:induction false} MyPaymentsAdd(lines: Total, payments: seq<Payment>, c: Currency)
    ensures OfPayments(lines, MyPayments(payments), c) == lines.(paid := lines.paid + NetPaid(payments, c))
    decreases |payments|
  {
    if payments != [] {
      var front, last := payments[..|payments| - 1], payments[|payments| - 1];
      MyPaymentsAdd(lines, front, c);
      if !last.voided {
        var shown := MyPayments(front);
        assert (shown + [Shown(last.amount, last.refunded, last.currency, false)])[..|shown|] == shown;
      } else {
        assert MyPayments(payments) == MyPayments(front);
      }
    }
  }

  /** Voided payments that do not say by whom and why: the staff page takes them for standing. */
  function UnnamedVoids(payments: seq<Payment>, c: Currency): nat {
    if payments == [] then 0
    else
      var p := payments[|payments| - 1];
      UnnamedVoids(payments[..|payments| - 1], c) + (if p.voided && !p.voidNamed && p.currency == c then Minus0(p.amount, p.refunded) else 0)
  }

  lemma {:induction false} StaffPaymentsAdd(lines: Total, payments: seq<Payment>, c: Currency)
    ensures OfPayments(lines, StaffPayments(payments), c) == lines.(paid := lines.paid + NetPaid(payments, c) + UnnamedVoids(payments, c))
    decreases |payments|
  {
    if payments != [] {
      var front := payments[..|payments| - 1];
      StaffPaymentsAdd(lines, front, c);
      var shown := StaffPayments(front);
      var p := payments[|payments| - 1];
      assert (shown + [Shown(p.amount, p.refunded, p.currency, p.voided && p.voidNamed)])[..|shown|] == shown;
    }
  }

  lemma MyTotalIs(totals: map<Currency, Total>, rows: seq<Instalment>, payments: seq<Payment>, covered: map<InstalmentId, nat>, c: Currency, today: string)
    requires Covers(covered, payments) && SumsAt(totals, MyLines(rows, today, covered), MyPayments(payments), covered, c)
    ensures SumOf(totals, c) == Expected(rows, payments, c, today)
  {
    MyLinesAdd(rows, payments, covered, c, today);
    MyPaymentsAdd(PartsOf(rows, payments, c, today), payments, c);
  }

  lemma StaffTotalIs(totals: map<Currency, Total>, rows: seq<Instalment>, payments: seq<Payment>, covered: map<InstalmentId, nat>, c: Currency, today: string)
    requires Covers(covered, payments) && SumsAt(totals, StaffLines(rows, today, covered), StaffPayments(payments), covered, c)
    ensures SumOf(totals, c) == Plus(Expected(rows, payments, c, today), Total(UnnamedVoids(payments, c), 0, 0))
  {
    StaffLinesAdd(rows, payments, covered, c, today);
    StaffPaymentsAdd(PartsOf(rows, payments, c, today), payments, c);
  }

  /**
    * The parents' totals: paid is the standing payments net of refunds and, of the
    * instalments marked paid, only what no payment covers.
    */
  method MyTotals(rows: seq<Instalment>, payments: seq<Payment>, today: string) returns (totals: map<Currency, Total>)
    ensures AnswersMine(totals, rows, payments, today)
  {
    var covered := ByInstalment(payments);
    totals := TotalsOf(MyLines(rows, today, covered), MyPayments(payments), covered);
    forall c ensures SumOf(totals, c) == Expected(rows, payments, c, today) {
      assert SumsAt(totals, MyLines(rows, today, covered), MyPayments(payments), covered, c);
      MyTotalIs(totals, rows, payments, covered, c, today);
    }
  }

  /** The staff's totals are the same, but for voided payments that name nobody. */
  method StaffTotals(rows: seq<Instalment>, payments: seq<Payment>, today: string) returns (totals: map<Currency, Total>)
    ensures AnswersStaff(totals, rows, payments, today)
  {
    var covered := ByInstalment(payments);
    totals := TotalsOf(StaffLines(rows, today, covered), StaffPayments(payments), covered);
    forall c ensures SumOf(totals, c) == Plus(Expected(rows, payments, c, today), Total(UnnamedVoids(payments, c), 0, 0)) {
      assert SumsAt(totals, StaffLines(rows, today, covered), StaffPayments(payments), covered, c);
      StaffTotalIs(totals, rows, payments, covered, c, today);
    }
  }

  ghost predicate AnswersMine(totals: map<Currency, Total>, rows: seq<Instalment>, payments: seq<Payment>, today: string) {
    forall c :: SumOf(totals, c) == Expected(rows, payments, c, today)
  }

  ghost predicate AnswersStaff(totals: map<Currency, Total>, rows: seq<Instalment>, payments: seq<Payment>, today: string) {
    forall c :: SumOf(totals, c) == Plus(Expected(rows, payments, c, today), Total(UnnamedVoids(payments, c), 0, 0))
  }

  /** What MyTotals and StaffTotals answer is the same in every currency if and only if every void that still carries money is named. */
  lemma SameTotalsIff(mine: map<Currency, Total>, staff: map<Currency, Total>, rows: seq<Instalment>, payments: seq<Payment>, today: string)
    requires AnswersMine(mine, rows, payments, today) && AnswersStaff(staff, rows, payments, today)
    ensures (forall c :: SumOf(mine, c) == SumOf(staff, c))
            <==> (forall k :: 0 <= k < |payments| && payments[k].voided && payments[k].amount > payments[k].refunded ==> payments[k].voidNamed)
  {
    forall c ensures SumOf(mine, c) == SumOf(staff, c) <==> UnnamedVoids(payments, c) == 0 {}
    if k :| 0 <= k < |payments| && payments[k].voided && payments[k].amount > payments[k].refunded && !payments[k].voidNamed {
      NoUnnamedIff(payments, payments[k].currency);
      assert SumOf(mine, payments[k].currency) != SumOf(staff, payments[k].currency);
    } else {
      forall c ensures SumOf(mine, c) == SumOf(staff, c) {
        NoUnnamedIff(payments, c);
      }
    }
  }

  lemma {:induction false} NoUnnamedIff(payments: seq<Payment>, c: Currency)
    ensures UnnamedVoids(payments, c) == 0
            <==> forall k :: 0 <= k < |payments| && payments[k].voided && payments[k].currency == c && payments[k].amount > payments[k].refunded ==> payments[k].voidNamed
  {
    if payments != [] {
      var front := payments[..|payments| - 1];
      NoUnnamedIff(front, c);
      assert forall k :: 0 <= k < |front| ==> front[k] == payments[k];
    }
  }

  /** What is late is part of what is owed. */
  lemma {:induction false} LateIsOwed(rows: seq<Instalment>, payments: seq<Payment>, c: Currency, today: string)
    ensures Owed(rows, payments, c, today, true) <= Owed(rows, payments, c, today, false)
  {
    if rows != [] {
      LateIsOwed(rows[..|rows| - 1], payments, c, today);
    }
  }

  /** Of every standing instalment, paid and remaining are together its amount, or what covers it if that is more. */
  lemma LineIsWhole(i: Instalment, payments: seq<Payment>, covered: map<InstalmentId, nat>, today: string)
    requires Covers(covered, payments) && !i.voided
    ensures var t := Present(i, today, covered);
            && t == PresentMine(i, today, covered)
            && t.paid + t.remaining == Max(i.amount, Covered(payments, i.id))
            && t.paid >= Covered(payments, i.id)
  {
  }

  /** One payment more covers its own instalment by its amount, refunded or not, unless it is voided. */
  lemma PaymentCovers(payments: seq<Payment>, p: Payment, id: InstalmentId)
    ensures Covered([], id) == 0
    ensures Covered(payments + [p], id) == Covered(payments, id) + (if p.voided then 0 else if p.instalment == Some(id) then p.amount else 0)
  {
    assert (payments + [p])[..|payments|] == payments;
  }

  /** A voided instalment owes nothing, and has no status; nothing is paid on it but what it was marked paid for. */
  lemma VoidedOwesNothing(i: Instalment, covered: map<InstalmentId, nat>, today: string)
    requires i.voided
    ensures var t := Present(i, today, covered);
            t.remaining == 0 && t.status == None && (!i.paid ==> t.paid == 0) && t.amount == i.amount && t.id == i.id && t.currency == i.currency
  {
  }

  /** The status shown is the row's: paid where it is marked so, else by its due date against today. */
  lemma StatusShown(i: Instalment, covered: map<InstalmentId, nat>, today: string)
    requires !i.voided
    ensures var st := Present(i, today, covered).status;
            && (st == Some(Paid) <==> i.paid)
            && (st == Some(Overdue) <==> !i.paid && TextLess(i.due, today))
            && (st == Some(Due) <==> !i.paid && i.due == today)
            && (st == Some(Upcoming) <==> !i.paid && TextLess(today, i.due))
  {
    TextTrichotomy(i.due, today);
  }

  // ---------------------------------------------------------------- no order matters

  lemma TakeOut<T>(a: seq<T>, b: seq<T>) returns (k: nat)
    requires a != [] && multiset(a) == multiset(b)
    ensures k < |b| && b == b[..k] + [a[|a| - 1]] + b[k + 1..]
    ensures multiset(a[..|a| - 1]) == multiset(b[..k] + b[k + 1..])
  {
    var x, front := a[|a| - 1], a[..|a| - 1];
    assert a == front + [x];
    assert x in multiset(b);
    k :| 0 <= k < |b| && b[k] == x;
    assert b == b[..k] + [x] + b[k + 1..];
    assert multiset(b) == multiset(b[..k]) + multiset{x} + multiset(b[k + 1..]);
    assert multiset(front) == multiset(a) - multiset{x};
    assert multiset(b[..k] + b[k + 1..]) == multiset(b) - multiset{x};
  }

  lemma {:induction false} CoveredWithout(a: seq<Payment>, p: Payment, b: seq<Payment>, id: InstalmentId)
    ensures Covered(a + [p] + b, id) == Covered(a + b, id) + CoversBy(p, id)
    decreases |b|
  {
    if b == [] {
      assert (a + [p] + b)[..|a|] == a && a + b == a;
    } else {
      var front := b[..|b| - 1];
      assert (a + [p] + b)[..|a| + |b|] == a + [p] + front && (a + b)[..|a + b| - 1] == a + front;
      CoveredWithout(a, p, front, id);
    }
  }

  lemma {:induction false} NetPaidWithout(a: seq<Payment>, p: Payment, b: seq<Payment>, c: Currency)
    ensures NetPaid(a + [p] + b, c) == NetPaid(a + b, c) + NetPaid([p], c)
    decreases |b|
  {
    assert [p][..0] == [];
    if b == [] {
      assert (a + [p] + b)[..|a|] == a && a + b == a;
    } else {
      var front := b[..|b| - 1];
      assert (a + [p] + b)[..|a| + |b|] == a + [p] + front && (a + b)[..|a + b| - 1] == a + front;
      NetPaidWithout(a, p, front, c);
    }
  }

  lemma {:induction false} PaymentsInAnyOrder(a: seq<Payment>, b: seq<Payment>, c: Currency, id: InstalmentId)
    requires multiset(a) == multiset(b)
    ensures NetPaid(a, c) == NetPaid(b, c) && Covered(a, id) == Covered(b, id)
    decreases |a|
  {
    if a == [] {
      assert |multiset(b)| == 0;
    } else {
      var x, front := a[|a| - 1], a[..|a| - 1];
      assert a == front + [x];
      var k := TakeOut(a, b);
      PaymentsInAnyOrder(front, b[..k] + b[k + 1..], c, id);
      NetPaidWithout(b[..k], x, b[k + 1..], c);
      NetPaidWithout(front, x, [], c);
      CoveredWithout(b[..k], x, b[k + 1..], id);
      assert front + [x] + [] == a && front + [] == front;
    }
  }

  lemma {:induction false} PartsWithout(a: seq<Instalment>, i: Instalment, b: seq<Instalment>, payments: seq<Payment>, c: Currency, today: string)
    ensures PartsOf(a + [i] + b, payments, c, today) == Plus(PartsOf(a + b, payments, c, today), PartOf(i, payments, c, today))
    decreases |b|
  {
    if b == [] {
      assert a + [i] + b == a + [i] && a + b == a;
      PartsAppend(a, i, payments, c, today);
    } else {
      var front, last := b[..|b| - 1], b[|b| - 1];
      assert a + [i] + b == (a + [i] + front) + [last] && a + b == (a + front) + [last];
      PartsWithout(a, i, front, payments, c, today);
      PartsAppend(a + [i] + front, last, payments, c, today);
      PartsAppend(a + front, last, payments, c, today);
    }
  }

  lemma {:induction false} RowsInAnyOrder(a: seq<Instalment>, b: seq<Instalment>, payments: seq<Payment>, c: Currency, today: string)
    requires multiset(a) == multiset(b)
    ensures PartsOf(a, payments, c, today) == PartsOf(b, payments, c, today)
    decreases |a|
  {
    if a == [] {
      assert |multiset(b)| == 0;
    } else {
      var x, front := a[|a| - 1], a[..|a| - 1];
      assert a == front + [x];
      var k := TakeOut(a, b);
      RowsInAnyOrder(front, b[..k] + b[k + 1..], payments, c, today);
      PartsWithout(b[..k], x, b[k + 1..], payments, c, today);
      PartsWithout(front, x, [], payments, c, today);
      assert front + [x] + [] == a && front + [] == front;
    }
  }

  lemma {:induction false} SameCoverSameParts(rows: seq<Instalment>, p: seq<Payment>, q: seq<Payment>, c: Currency, today: string)
    requires forall id :: Covered(p, id) == Covered(q, id)
    ensures PartsOf(rows, p, c, today) == PartsOf(rows, q, c, today)
  {
    if rows != [] {
      SameCoverSameParts(rows[..|rows| - 1], p, q, c, today);
    }
  }

  /** In whatever order the rows and the payments come, the totals are the same. */
  lemma NoOrderMatters(rows: seq<Instalment>, rows': seq<Instalment>, payments: seq<Payment>, payments': seq<Payment>, c: Currency, today: string)
    requires multiset(rows) == multiset(rows') && multiset(payments) == multiset(payments')
    ensures Expected(rows, payments, c, today) == Expected(rows', payments', c, today)
    ensures Expected(rows, payments, c, today).overdue <= Expected(rows, payments, c, today).outstanding
  {
    forall id ensures Covered(payments, id) == Covered(payments', id) {
      PaymentsInAnyOrder(payments, payments', c, id);
    }
    PaymentsInAnyOrder(payments, payments', c, 0);
    SameCoverSameParts(rows, payments, payments', c, today);
    RowsInAnyOrder(rows, rows', payments', c, today);
    LateIsOwed(rows, payments, c, today);
  }
}
