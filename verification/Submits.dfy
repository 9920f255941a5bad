/**
  * Money typed in by hand: staff record a payment on an instalment, a parent sends
  * a bank-transfer receipt. A submit may carry a key, the id of the row it writes,
  * and is sent again with the same key on every retry.
  */
module Submits {
  import opened Options

  type PayId = nat
  type Upload = nat
  type InstalmentId = nat

  // ---------------------------------------------------------------- requests and rows

  /** What a repeat of the same submit must say again. */
  datatype Facts = Facts(recordedBy: Option<nat>, means: nat, paidOn: nat, reference: Option<nat>)

  datatype ReceiptFacts = ReceiptFacts(family: nat, uploadedBy: nat, amount: nat, transferredOn: nat, note: Option<nat>)

  datatype Submit =
    | Payment(id: Option<PayId>, instalment: InstalmentId, facts: Facts)
    | Receipt(upload: Upload, said: ReceiptFacts, request: nat)

  /** `staff` tells a submit's row from the payments that arrive by card or from a receipt. */
  datatype PayRow = PayRow(id: PayId, instalment: InstalmentId, facts: Facts, amount: nat, staff: bool, voided: bool)

  datatype ReceiptRow = ReceiptRow(upload: Upload, said: ReceiptFacts, request: nat)

  /** `closed`: already marked paid, or voided. The amount of an instalment never changes. */
  datatype Instalment = Instalment(amount: nat, closed: bool)

  datatype Data = Data(instalments: map<InstalmentId, Instalment>, payments: seq<PayRow>, receipts: seq<ReceiptRow>)

  datatype Outcome = Recorded(row: nat) | Replayed | KeyTaken | NotOpen | Covered | NotFound | Failed

  /** The name an idempotency lock is taken under. */
  datatype Key = PayKey(id: PayId) | FileKey(upload: Upload)

  function KeyOf(s: Submit): Option<Key> {
    match s
    case Payment(id, _, _) => if id.Some? then Some(PayKey(id.value)) else None
    case Receipt(upload, _, _) => Some(FileKey(upload))
  }

  function FindPayment(rows: seq<PayRow>, id: PayId): (r: Option<nat>)
    ensures r.Some? ==> r.value < |rows| && rows[r.value].id == id
    ensures r.None? ==> forall k :: 0 <= k < |rows| ==> rows[k].id != id
  {
    if rows == [] then None
    else if rows[|rows| - 1].id == id then Some(|rows| - 1)
    else FindPayment(rows[..|rows| - 1], id)
  }

  function FindReceipt(rows: seq<ReceiptRow>, upload: Upload): (r: Option<nat>)
    ensures r.Some? ==> r.value < |rows| && rows[r.value].upload == upload
    ensures r.None? ==> forall k :: 0 <= k < |rows| ==> rows[k].upload != upload
  {
    if rows == [] then None
    else if rows[|rows| - 1].upload == upload then Some(|rows| - 1)
    else FindReceipt(rows[..|rows| - 1], upload)
  }

  /** A row under the submit's key: whether it says the same. A receipt's request is not compared. */
  function Prior(d: Data, s: Submit): Option<bool> {
    match s
    case Payment(id, instalment, facts) =>
      if id.None? then None
      else
        var n := FindPayment(d.payments, id.value);
        if n.None? then None
        else Some(d.payments[n.value].instalment == instalment && d.payments[n.value].facts == facts)
    case Receipt(upload, said, _) =>
      var n := FindReceipt(d.receipts, upload);
      if n.None? then None else Some(d.receipts[n.value].said == said)
  }

  /** assertReplay */
  function ReplayOutcome(same: bool): Outcome {
    if same then Replayed else KeyTaken
  }

  /** The payments of an instalment that stand: all of them, or those of staff submits alone. */
  function Standing(rows: seq<PayRow>, i: InstalmentId, staffOnly: bool): nat {
    if rows == [] then 0
    else
      var row := rows[|rows| - 1];
      Standing(rows[..|rows| - 1], i, staffOnly)
      + (if row.instalment == i && !row.voided && (staffOnly ==> row.staff) then row.amount else 0)
  }

  /** The insert: the primary key, and the upload's unique key, are tested here. */
  function Insert(d: Data, s: Submit, amount: nat, generated: PayId): (Data, Outcome) {
    match s
    case Payment(id, instalment, facts) =>
      var rowId := if id.Some? then id.value else generated;
      if FindPayment(d.payments, rowId).Some? then (d, Failed)
      else (d.(payments := d.payments + [PayRow(rowId, instalment, facts, amount, true, false)]), Recorded(|d.payments|))
    case Receipt(upload, said, request) =>
      if FindReceipt(d.receipts, upload).Some? then (d, Failed)
      else (d.(receipts := d.receipts + [ReceiptRow(upload, said, request)]), Recorded(|d.receipts|))
  }

  // ---------------------------------------------------------------- one submit, undisturbed

  /** What one submit does when nothing else runs. */
  function Alone(d: Data, s: Submit, generated: PayId): (Data, Outcome) {
    if s.Payment? && s.instalment !in d.instalments then (d, NotFound)
    else if Prior(d, s).Some? then (d, ReplayOutcome(Prior(d, s).value))
    else if s.Receipt? then Insert(d, s, s.said.amount, generated)
    else if d.instalments[s.instalment].closed then (d, NotOpen)
    else if d.instalments[s.instalment].amount <= Standing(d.payments, s.instalment, false) then (d, Covered)
    else Insert(d, s, d.instalments[s.instalment].amount - Standing(d.payments, s.instalment, false), generated)
  }

  class Desk {
    var data: Data

    constructor (d: Data)
      ensures data == d
    {
      data := d;
    }

    /** recordPayment */
    method RecordPayment(s: Submit, generated: PayId) returns (o: Outcome)
      requires s.Payment?
      modifies this
      ensures (data, o) == Alone(old(data), s, generated)
    {
      if s.instalment !in data.instalments {
        return NotFound;
      }
      var inv := data.instalments[s.instalment];
      if s.id.Some? {
        var prior := FindPayment(data.payments, s.id.value);
        if prior.Some? {
          var row := data.payments[prior.value];
          return ReplayOutcome(row.instalment == s.instalment && row.facts == s.facts);
        }
      }
      if inv.closed {
        return NotOpen;
      }
      var paid := StandingSum(s.instalment);
      if inv.amount <= paid {
        return Covered;
      }
      var id := if s.id.Some? then s.id.value else generated;
      if FindPayment(data.payments, id).Some? {
        return Failed;
      }
      o := Recorded(|data.payments|);
      data := data.(payments := data.payments + [PayRow(id, s.instalment, s.facts, inv.amount - paid, true, false)]);
    }

    /** standingSum */
    method StandingSum(i: InstalmentId) returns (sum: nat)
      ensures sum == Standing(data.payments, i, false)
    {
      sum := 0;
      var k := 0;
      while k < |data.payments|
        invariant 0 <= k <= |data.payments|
        invariant sum == Standing(data.payments[..k], i, false)
      {
        assert data.payments[..k + 1][..k] == data.payments[..k];
        if data.payments[k].instalment == i && !data.payments[k].voided {
          sum := sum + data.payments[k].amount;
        }
        k := k + 1;
      }
      assert data.payments[..k] == data.payments;
    }

    /** submitReceipt, of a file and a request that pass their own checks */
    method SubmitReceipt(s: Submit, generated: PayId) returns (o: Outcome)
      requires s.Receipt?
      modifies this
      ensures (data, o) == Alone(old(data), s, generated)
    {
      var prior := FindReceipt(data.receipts, s.upload);
      if prior.Some? {
        return ReplayOutcome(data.receipts[prior.value].said == s.said);
      }
      o := Recorded(|data.receipts|);
      data := data.(receipts := data.receipts + [ReceiptRow(s.upload, s.said, s.request)]);
    }
  }

  // ---------------------------------------------------------------- the same, cut where others may come between

  /**
    * Before its transaction a submit reads its instalment and looks for its key;
    * inside it, it takes the key's lock, looks again, takes the instalment's row
    * lock, reads what stands, and writes. A commit or a rollback gives both back.
    */
  datatype Task =
    | Arrived(s: Submit)
    | Seen(s: Submit, closed: bool)
    | WantsKey(s: Submit)
    | HasKey(s: Submit)
    | WantsRow(s: Submit)
    | HasRow(s: Submit)
    | Writes(s: Submit, amount: nat)
    | Ended(s: Submit, outcome: Outcome)

  function Next(d: Data, t: Task, generated: PayId): (Data, Task) {
    match t
    case Arrived(s) =>
      if s.Receipt? then (d, Seen(s, false))
      else if s.instalment in d.instalments then (d, Seen(s, d.instalments[s.instalment].closed))
      else (d, Ended(s, NotFound))
    case Seen(s, closed) =>
      if Prior(d, s).Some? then (d, Ended(s, ReplayOutcome(Prior(d, s).value)))
      else if closed then (d, Ended(s, NotOpen))
      else (d, if KeyOf(s).Some? then WantsKey(s) else WantsRow(s))
    case WantsKey(s) => (d, HasKey(s))
    case HasKey(s) =>
      if Prior(d, s).Some? then (d, Ended(s, ReplayOutcome(Prior(d, s).value)))
      else (d, if s.Payment? then WantsRow(s) else Writes(s, s.said.amount))
    case WantsRow(s) => (d, HasRow(s))
    case HasRow(s) =>
      if s.Receipt? || s.instalment !in d.instalments then (d, Ended(s, NotFound))
      else
        var paid := Standing(d.payments, s.instalment, false);
        if d.instalments[s.instalment].amount <= paid then (d, Ended(s, Covered))
        else (d, Writes(s, d.instalments[s.instalment].amount - paid))
    case Writes(s, amount) =>
      var (d1, o) := Insert(d, s, amount, generated);
      (d1, Ended(s, o))
    case Ended(_, _) => (d, t)
  }

  function Undisturbed(d: Data, t: Task, generated: PayId, steps: nat): (Data, Task)
    decreases steps
  {
    if steps == 0 then (d, t)
    else
      var (d1, t1) := Next(d, t, generated);
      Undisturbed(d1, t1, generated, steps - 1)
  }

  /** Seven cuts lose nothing: undisturbed, the cut submit is the whole one. */
  lemma CutIsWhole(d: Data, s: Submit, generated: PayId)
    ensures var (d1, o) := Alone(d, s, generated); Undisturbed(d, Arrived(s), generated, 7) == (d1, Ended(s, o))
  {
    var (d1, t1) := Next(d, Arrived(s), generated);
    var (d2, t2) := Next(d1, t1, generated);
    var (d3, t3) := Next(d2, t2, generated);
    var (d4, t4) := Next(d3, t3, generated);
    var (d5, t5) := Next(d4, t4, generated);
    var (d6, t6) := Next(d5, t5, generated);
    var (d7, t7) := Next(d6, t6, generated);
    assert Undisturbed(d6, t6, generated, 1) == (d7, t7);
    assert Undisturbed(d4, t4, generated, 3) == (d7, t7);
    assert Undisturbed(d2, t2, generated, 5) == (d7, t7);
  }

  /** A payment under this key is there. */
  ghost predicate IsKept(d: Data, id: Option<PayId>) {
    id.Some? && exists k :: 0 <= k < |d.payments| && d.payments[k].id == id.value
  }

  /** What stands is the amounts of the instalment's payments that are not voided, whoever made them. */
  lemma StandingOfOneMore(rows: seq<PayRow>, row: PayRow, i: InstalmentId)
    ensures Standing([], i, false) == 0
    ensures Standing(rows + [row], i, false) == Standing(rows, i, false) + (if row.voided then 0 else if row.instalment == i then row.amount else 0)
  {
    assert (rows + [row])[..|rows|] == rows;
  }

  /**
    * What an undisturbed staff submit is answered: not found without its instalment; a
    * replay or a refusal where its key has a row; not open on a closed instalment; covered
    * where what stands reaches the amount; else it writes one row that brings what stands to
    * the amount.
    */
  lemma PaymentAnswers(d: Data, s: Submit, generated: PayId)
    requires s.Payment?
    ensures var (d1, o) := Alone(d, s, generated); var i := s.instalment;
            && (o == NotFound <==> i !in d.instalments)
            && (o == Replayed || o == KeyTaken <==> i in d.instalments && IsKept(d, s.id))
            && (o == NotOpen <==> i in d.instalments && !IsKept(d, s.id) && d.instalments[i].closed)
            && (o == Covered <==> i in d.instalments && !IsKept(d, s.id) && !d.instalments[i].closed
                                  && Standing(d.payments, i, false) >= d.instalments[i].amount)
            && (o == Failed ==> s.id == None && IsKept(d, Some(generated)))
            && (!o.Recorded? ==> d1 == d)
            && (o.Recorded? ==>
                  && i in d.instalments && !d.instalments[i].closed && !IsKept(d, s.id)
                  && |d1.payments| == |d.payments| + 1 && d1 == d.(payments := d1.payments) && d1.payments[..|d.payments|] == d.payments
                  && var row := d1.payments[|d.payments|];
                     row.instalment == i && row.facts == s.facts && row.staff && !row.voided && row.amount > 0
                     && row.id == (if s.id == None then generated else s.id.value)
                     && Standing(d1.payments, i, false) == d.instalments[i].amount)
  {
    var (d1, o) := Alone(d, s, generated);
    if o.Recorded? {
      StandingOfOneMore(d.payments, d1.payments[|d.payments|], s.instalment);
    }
  }

  /** What an undisturbed receipt is answered, and the row it writes. */
  lemma ReceiptAnswers(d: Data, s: Submit, generated: PayId)
    requires s.Receipt?
    ensures var (d1, o) := Alone(d, s, generated); var isKept := exists k :: 0 <= k < |d.receipts| && d.receipts[k].upload == s.upload;
            && (o == Replayed || o == KeyTaken <==> isKept) && (isKept ==> d1 == d)
            && (!isKept ==> o == Recorded(|d.receipts|) && d1 == d.(receipts := d.receipts + [ReceiptRow(s.upload, s.said, s.request)]))
  {
  }

  /** What the source compares: of a receipt the figures said, not the request. */
  predicate SaysTheSame(s: Submit, t: Submit)
    requires KeyOf(s).Some? && KeyOf(t) == KeyOf(s)
  {
    if s.Payment? then t.instalment == s.instalment && t.facts == s.facts else t.said == s.said
  }

  /** Once a submit is recorded, a second under its key writes nothing: a replay if and only if it says the same, else refused. */
  lemma RepeatIsRefusedIff(d: Data, s: Submit, t: Submit, generated: PayId, again: PayId)
    requires KeyOf(s).Some? && KeyOf(t) == KeyOf(s) && Alone(d, s, generated).1.Recorded?
    requires t.Payment? ==> t.instalment in d.instalments
    ensures var (d1, _) := Alone(d, s, generated); var (d2, o) := Alone(d1, t, again);
            && d2 == d1 && (o == Replayed <==> SaysTheSame(s, t)) && (o == KeyTaken <==> !SaysTheSame(s, t))
  {
    var (d1, _) := Alone(d, s, generated);
    if s.Receipt? {
      assert FindReceipt(d1.receipts, s.upload) == Some(|d.receipts|);
    } else {
      assert FindPayment(d1.payments, s.id.value) == Some(|d.payments|);
    }
  }

  /** The request a receipt is for is not compared: the same file for another request is answered as a replay. */
  lemma ReceiptForAnotherRequestIsAReplay(d: Data, s: Submit, other: nat, generated: PayId, again: PayId)
    requires s.Receipt? && Alone(d, s, generated).1.Recorded?
    ensures var (d1, _) := Alone(d, s, generated); Alone(d1, s.(request := other), again) == (d1, Replayed)
  {
    assert FindReceipt(d.receipts + [ReceiptRow(s.upload, s.said, s.request)], s.upload) == Some(|d.receipts|);
  }
}
