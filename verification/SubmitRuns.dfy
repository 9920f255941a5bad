/**
  * Any number of submits at once: on one instalment or many, with the same key,
  * other keys or none, cut off anywhere, while payments arrive by other ways, are
  * voided, and instalments are closed.
  */
module SubmitRuns {
  import opened Options
  import opened Submits

  /** `lockOf` hashes a key to its advisory lock; two keys may share one. */
  datatype World = World(lockOf: Key -> nat, data: Data, tasks: seq<Task>)

  function KeyLock(lockOf: Key -> nat, t: Task): Option<nat> {
    if (t.HasKey? || t.WantsRow? || t.HasRow? || t.Writes?) && KeyOf(t.s).Some? then Some(lockOf(KeyOf(t.s).value)) else None
  }

  function RowLock(t: Task): Option<InstalmentId> {
    if (t.HasRow? || t.Writes?) && t.s.Payment? then Some(t.s.instalment) else None
  }

  // ---------------------------------------------------------------- the steps

  ghost predicate KeyLockFree(w: World, lock: nat) {
    forall j :: 0 <= j < |w.tasks| ==> KeyLock(w.lockOf, w.tasks[j]) != Some(lock)
  }

  ghost predicate RowLockFree(w: World, i: InstalmentId) {
    forall j :: 0 <= j < |w.tasks| ==> RowLock(w.tasks[j]) != Some(i)
  }

  /** A random id is no stored row's, and no running submit's key. */
  ghost predicate IsNew(w: World, id: PayId) {
    && (forall n :: 0 <= n < |w.data.payments| ==> w.data.payments[n].id != id)
    && (forall j :: 0 <= j < |w.tasks| ==> KeyOf(w.tasks[j].s) != Some(PayKey(id)))
  }

  /** Only the two lock statements wait. */
  ghost predicate MayProceed(w: World, t: Task) {
    && !t.Ended?
    && (t.WantsKey? ==> KeyOf(t.s).Some? && KeyLockFree(w, w.lockOf(KeyOf(t.s).value)))
    && (t.WantsRow? ==> t.s.Payment? && RowLockFree(w, t.s.instalment))
  }

  ghost predicate Proceeds(w: World, w': World, k: nat, generated: PayId) {
    && k < |w.tasks| && MayProceed(w, w.tasks[k]) && IsNew(w, generated)
    && var (d1, t1) := Next(w.data, w.tasks[k], generated);
       w' == w.(data := d1, tasks := w.tasks[k := t1])
  }

  ghost predicate Arrives(w: World, w': World, s: Submit) {
    w' == w.(tasks := w.tasks + [Arrived(s)])
  }

  /** A refusal of its own checks, a crash, a lost connection: rolled back. */
  ghost predicate Fails(w: World, w': World, k: nat) {
    k < |w.tasks| && !w.tasks[k].Ended? && w' == w.(tasks := w.tasks[k := Ended(w.tasks[k].s, Failed)])
  }

  ghost predicate Voids(w: World, w': World, n: nat) {
    n < |w.data.payments| && w' == w.(data := w.data.(payments := w.data.payments[n := w.data.payments[n].(voided := true)]))
  }

  /** A card payment or an approved receipt: under the instalment's row lock, and the lock of its key if it has one. */
  ghost predicate PaysOtherwise(w: World, w': World, row: PayRow) {
    && !row.staff && RowLockFree(w, row.instalment)
    && FindPayment(w.data.payments, row.id).None?
    && (IsNew(w, row.id) || KeyLockFree(w, w.lockOf(PayKey(row.id))))
    && w' == w.(data := w.data.(payments := w.data.payments + [row]))
  }

  /** An instalment is made, or marked paid or void. */
  ghost predicate Plans(w: World, w': World, i: InstalmentId, inst: Instalment) {
    && (i in w.data.instalments ==> inst.amount == w.data.instalments[i].amount)
    && w' == w.(data := w.data.(instalments := w.data.instalments[i := inst]))
  }

  ghost predicate Step(w: World, w': World) {
    || (exists k: nat, generated: PayId :: Proceeds(w, w', k, generated))
    || (exists s: Submit :: Arrives(w, w', s))
    || (exists k: nat :: Fails(w, w', k))
    || (exists n: nat :: Voids(w, w', n))
    || (exists row: PayRow :: PaysOtherwise(w, w', row))
    || (exists i: InstalmentId, inst: Instalment :: Plans(w, w', i, inst))
  }

  ghost predicate Follows(run: seq<World>, k: int)
    requires 1 <= k < |run|
  {
    Step(run[k - 1], run[k])
  }

  ghost predicate IsRun(run: seq<World>) {
    && |run| > 0 && |run[0].data.instalments| == 0 && |run[0].data.payments| == 0 && |run[0].data.receipts| == 0 && |run[0].tasks| == 0
    && forall k :: 1 <= k < |run| ==> Follows(run, k)
  }

  // ---------------------------------------------------------------- what is kept

  ghost predicate RowsAreUnique(d: Data) {
    && (forall j, k :: 0 <= j < k < |d.payments| ==> d.payments[j].id != d.payments[k].id)
    && (forall j, k :: 0 <= j < k < |d.receipts| ==> d.receipts[j].upload != d.receipts[k].upload)
  }

  ghost predicate LocksAreExclusive(w: World) {
    && (forall j, k :: 0 <= j < k < |w.tasks| && KeyLock(w.lockOf, w.tasks[j]).Some? ==>
          KeyLock(w.lockOf, w.tasks[j]) != KeyLock(w.lockOf, w.tasks[k]))
    && (forall j, k :: 0 <= j < k < |w.tasks| && RowLock(w.tasks[j]).Some? ==> RowLock(w.tasks[j]) != RowLock(w.tasks[k]))
  }

  /** Past its second look a submit knows that its key has no row. */
  ghost predicate KeyIsUnused(d: Data, t: Task) {
    t.WantsRow? || t.HasRow? || t.Writes? ==> Prior(d, t.s).None?
  }

  /** What a submit is about to write still fits. */
  ghost predicate AmountFits(d: Data, t: Task) {
    && (!t.Arrived? && !t.Ended? && t.s.Payment? ==> t.s.instalment in d.instalments)
    && (t.Writes? && t.s.Payment? ==>
          0 < t.amount && t.amount + Standing(d.payments, t.s.instalment, false) <= d.instalments[t.s.instalment].amount)
    && (t.WantsRow? || t.HasRow? ==> t.s.Payment?)
    && (t.WantsKey? || t.HasKey? ==> KeyOf(t.s).Some?)
  }

  /** What every answer given says of the tables, for good. */
  ghost predicate AnswerHolds(d: Data, t: Task) {
    && (t.Ended? && t.outcome.Recorded? && t.s.Payment? ==>
          t.outcome.row < |d.payments| && IsRowOf(d.payments[t.outcome.row], t.s))
    && (t.Ended? && t.outcome.Recorded? && t.s.Receipt? ==>
          t.outcome.row < |d.receipts| && d.receipts[t.outcome.row] == ReceiptRow(t.s.upload, t.s.said, t.s.request))
    && (t.Ended? && t.outcome.Replayed? ==> Prior(d, t.s) == Some(true))
    && (t.Ended? && t.outcome.KeyTaken? ==> Prior(d, t.s) == Some(false))
  }

  ghost predicate IsRowOf(row: PayRow, s: Submit)
    requires s.Payment?
  {
    row.staff && row.amount > 0 && row.instalment == s.instalment && row.facts == s.facts && (s.id.Some? ==> row.id == s.id.value)
  }

  ghost predicate TaskHolds(d: Data, t: Task) {
    KeyIsUnused(d, t) && AmountFits(d, t) && AnswerHolds(d, t)
  }

  ghost predicate TasksHold(w: World) {
    forall k :: 0 <= k < |w.tasks| ==> TaskHolds(w.data, w.tasks[k])
  }

  ghost predicate IsRecorderOf(t: Task, kind: bool, n: nat) {
    t.Ended? && t.outcome == Recorded(n) && t.s.Payment? == kind
  }

  ghost predicate HasRecorder(tasks: seq<Task>, kind: bool, n: nat) {
    exists k :: 0 <= k < |tasks| && IsRecorderOf(tasks[k], kind, n)
  }

  /** Each staff row and each receipt was written by one submit, and each submit wrote one row at most. */
  ghost predicate OneWriterEach(w: World) {
    && (forall n :: 0 <= n < |w.data.payments| && w.data.payments[n].staff ==> HasRecorder(w.tasks, true, n))
    && (forall n :: 0 <= n < |w.data.receipts| ==> HasRecorder(w.tasks, false, n))
    && (forall j, k, n, kind :: 0 <= j < |w.tasks| && 0 <= k < |w.tasks| && IsRecorderOf(w.tasks[j], kind, n) && IsRecorderOf(w.tasks[k], kind, n) ==> j == k)
  }

  /** Staff submits never record more than an instalment's amount. */
  ghost predicate NeverMoreThanOwed(d: Data) {
    forall i :: i in d.instalments ==> Standing(d.payments, i, true) <= d.instalments[i].amount
  }

  /** Staff rows belong to instalments that were there. */
  ghost predicate RowsAreAtHome(d: Data) {
    forall n :: 0 <= n < |d.payments| && d.payments[n].staff ==> d.payments[n].instalment in d.instalments
  }

  ghost predicate Inv(w: World) {
    RowsAreUnique(w.data) && LocksAreExclusive(w) && TasksHold(w) && OneWriterEach(w) && NeverMoreThanOwed(w.data) && RowsAreAtHome(w.data)
  }

  // ---------------------------------------------------------------- what stands

  lemma {:induction false} StaffIsPart(rows: seq<PayRow>, i: InstalmentId)
    ensures Standing(rows, i, true) <= Standing(rows, i, false)
  {
    if rows != [] {
      StaffIsPart(rows[..|rows| - 1], i);
    }
  }

  lemma {:induction false} VoidingLowers(rows: seq<PayRow>, n: nat, i: InstalmentId, staffOnly: bool)
    requires n < |rows|
    ensures Standing(rows[n := rows[n].(voided := true)], i, staffOnly) <= Standing(rows, i, staffOnly)
  {
    var after := rows[n := rows[n].(voided := true)];
    var last := |rows| - 1;
    if n < last {
      assert after[..last] == rows[..last][n := rows[n].(voided := true)];
      VoidingLowers(rows[..last], n, i, staffOnly);
    } else {
      assert after[..last] == rows[..last];
    }
  }

  lemma {:induction false} NoneOfOurs(rows: seq<PayRow>, i: InstalmentId)
    requires forall n :: 0 <= n < |rows| && rows[n].staff ==> rows[n].instalment != i
    ensures Standing(rows, i, true) == 0
  {
    if rows != [] {
      NoneOfOurs(rows[..|rows| - 1], i);
    }
  }

  lemma Appended(rows: seq<PayRow>, row: PayRow, i: InstalmentId, staffOnly: bool)
    ensures Standing(rows + [row], i, staffOnly)
            == Standing(rows, i, staffOnly) + (if row.instalment == i && !row.voided && (staffOnly ==> row.staff) then row.amount else 0)
  {
    assert (rows + [row])[..|rows|] == rows;
  }

  // ---------------------------------------------------------------- looking for a key

  /** A stored row keeps answering for its key; another key's row changes nothing. */
  lemma PriorIsStable(d: Data, d': Data, s: Submit)
    requires RowsAreUnique(d) && RowsAreUnique(d')
    requires |d.payments| <= |d'.payments| && |d.receipts| <= |d'.receipts|
    requires forall n :: 0 <= n < |d.payments| ==> d'.payments[n].(voided := d.payments[n].voided) == d.payments[n]
    requires forall n :: 0 <= n < |d.receipts| ==> d'.receipts[n] == d.receipts[n]
    requires forall n :: |d.payments| <= n < |d'.payments| ==> KeyOf(s) != Some(PayKey(d'.payments[n].id)) || Prior(d, s).Some?
    requires forall n :: |d.receipts| <= n < |d'.receipts| ==> KeyOf(s) != Some(FileKey(d'.receipts[n].upload)) || Prior(d, s).Some?
    ensures Prior(d', s) == Prior(d, s)
  {
    if KeyOf(s).Some? {
      if s.Payment? {
        var m, n := FindPayment(d.payments, s.id.value), FindPayment(d'.payments, s.id.value);
        if m.Some? {
          assert d'.payments[m.value].id == s.id.value;
          assert n == m;
        } else if n.Some? {
          assert n.value >= |d.payments|;
        }
      } else {
        var m, n := FindReceipt(d.receipts, s.upload), FindReceipt(d'.receipts, s.upload);
        if m.Some? {
          assert d'.receipts[m.value].upload == s.upload;
          assert n == m;
        } else if n.Some? {
          assert n.value >= |d.receipts|;
        }
      }
    }
  }

  // ---------------------------------------------------------------- what the rows' changes leave of a submit

  lemma PaymentAppendedKeeps(d: Data, row: PayRow, t: Task)
    requires RowsAreUnique(d) && FindPayment(d.payments, row.id).None? && TaskHolds(d, t)
    requires t.WantsRow? || t.HasRow? || t.Writes? ==> KeyOf(t.s) != Some(PayKey(row.id))
    requires t.Writes? && t.s.Payment? ==> t.s.instalment != row.instalment
    ensures TaskHolds(d.(payments := d.payments + [row]), t)
  {
    var d' := d.(payments := d.payments + [row]);
    if t.s.Payment? {
      Appended(d.payments, row, t.s.instalment, false);
    }
    if Prior(d, t.s).Some? || KeyOf(t.s) != Some(PayKey(row.id)) {
      PriorIsStable(d, d', t.s);
    }
  }

  lemma ReceiptAppendedKeeps(d: Data, row: ReceiptRow, t: Task)
    requires RowsAreUnique(d) && FindReceipt(d.receipts, row.upload).None? && TaskHolds(d, t)
    requires t.WantsRow? || t.HasRow? || t.Writes? ==> KeyOf(t.s) != Some(FileKey(row.upload))
    ensures TaskHolds(d.(receipts := d.receipts + [row]), t)
  {
    var d' := d.(receipts := d.receipts + [row]);
    if Prior(d, t.s).Some? || KeyOf(t.s) != Some(FileKey(row.upload)) {
      PriorIsStable(d, d', t.s);
    }
  }

  lemma VoidingKeeps(d: Data, n: nat, t: Task)
    requires RowsAreUnique(d) && n < |d.payments| && TaskHolds(d, t)
    ensures TaskHolds(d.(payments := d.payments[n := d.payments[n].(voided := true)]), t)
  {
    PriorIsStable(d, d.(payments := d.payments[n := d.payments[n].(voided := true)]), t.s);
    if t.s.Payment? {
      VoidingLowers(d.payments, n, t.s.instalment, false);
    }
  }

  lemma PlanningKeeps(d: Data, i: InstalmentId, inst: Instalment, t: Task)
    requires (i in d.instalments ==> inst.amount == d.instalments[i].amount) && TaskHolds(d, t)
    ensures TaskHolds(d.(instalments := d.instalments[i := inst]), t)
  {
  }

  // ---------------------------------------------------------------- the steps of a submit

  /** Locks alone: whoever proceeds takes only what is free. */
  lemma ProceedingKeepsLocks(w: World, w': World, k: nat, generated: PayId)
    requires Inv(w) && Proceeds(w, w', k, generated)
    ensures LocksAreExclusive(w')
  {
    var t, t' := w.tasks[k], w'.tasks[k];
    assert TaskHolds(w.data, t);
    assert KeyLock(w.lockOf, t') == None || KeyLock(w.lockOf, t') == KeyLock(w.lockOf, t) || KeyLockFree(w, KeyLock(w.lockOf, t').value);
    assert RowLock(t') == None || RowLock(t') == RowLock(t) || RowLockFree(w, RowLock(t').value);
  }

  /** A step that writes nothing. */
  lemma QuietStepHolds(d: Data, t: Task, generated: PayId)
    requires TaskHolds(d, t) && !t.Writes?
    ensures Next(d, t, generated).0 == d && TaskHolds(d, Next(d, t, generated).1)
    ensures Next(d, t, generated).1.Ended? && !t.Ended? ==> !Next(d, t, generated).1.outcome.Recorded?
  {
  }

  lemma QuietlyKeeps(w: World, w': World, k: nat, t: Task)
    requires Inv(w) && k < |w.tasks| && w' == w.(tasks := w.tasks[k := t]) && TaskHolds(w.data, t) && LocksAreExclusive(w')
    requires !w.tasks[k].Ended? && (t.Ended? ==> !t.outcome.Recorded?)
    ensures Inv(w')
  {
    forall n: nat, kind | HasRecorder(w.tasks, kind, n) ensures HasRecorder(w'.tasks, kind, n) {
      var j :| 0 <= j < |w.tasks| && IsRecorderOf(w.tasks[j], kind, n);
      assert IsRecorderOf(w'.tasks[j], kind, n);
    }
  }

  /** The insert of a submit that holds its locks always succeeds: neither unique key can be hit. */
  lemma InsertSucceeds(w: World, k: nat, generated: PayId)
    requires Inv(w) && k < |w.tasks| && w.tasks[k].Writes? && IsNew(w, generated)
    ensures Insert(w.data, w.tasks[k].s, w.tasks[k].amount, generated).1.Recorded?
  {
    assert TaskHolds(w.data, w.tasks[k]);
  }

  lemma WritingTheRow(w: World, w': World, k: nat, generated: PayId)
    requires Inv(w) && Proceeds(w, w', k, generated) && w.tasks[k].Writes? && w.tasks[k].s.Payment?
    ensures TasksHold(w') && RowsAreUnique(w'.data) && NeverMoreThanOwed(w'.data) && RowsAreAtHome(w'.data)
    ensures exists row :: w'.data == w.data.(payments := w.data.payments + [row]) && row.staff
              && w'.tasks[k] == Ended(w.tasks[k].s, Recorded(|w.data.payments|))
  {
    var t := w.tasks[k];
    assert TaskHolds(w.data, t);
    InsertSucceeds(w, k, generated);
    var row := PayRow(if t.s.id.Some? then t.s.id.value else generated, t.s.instalment, t.s.facts, t.amount, true, false);
    assert w'.data == w.data.(payments := w.data.payments + [row]);
    forall j | 0 <= j < |w.tasks| && j != k ensures TaskHolds(w'.data, w'.tasks[j]) {
      OthersUntouched(w, k, j, row.id, generated);
      PaymentAppendedKeeps(w.data, row, w.tasks[j]);
    }
    RowFits(w.data, row);
  }

  lemma OthersUntouched(w: World, k: nat, j: nat, id: PayId, generated: PayId)
    requires Inv(w) && k < |w.tasks| && j < |w.tasks| && j != k && w.tasks[k].Writes? && w.tasks[k].s.Payment? && IsNew(w, generated)
    requires id == (if w.tasks[k].s.id.Some? then w.tasks[k].s.id.value else generated)
    ensures var t := w.tasks[j];
            && TaskHolds(w.data, t)
            && (t.WantsRow? || t.HasRow? || t.Writes? ==> KeyOf(t.s) != Some(PayKey(id)))
            && (t.Writes? && t.s.Payment? ==> t.s.instalment != w.tasks[k].s.instalment)
  {
    assert RowLock(w.tasks[j]) != RowLock(w.tasks[k]);
    if w.tasks[k].s.id.Some? {
      assert KeyLock(w.lockOf, w.tasks[j]) != KeyLock(w.lockOf, w.tasks[k]);
    }
  }

  lemma RowFits(d: Data, row: PayRow)
    requires NeverMoreThanOwed(d) && row.instalment in d.instalments
    requires row.amount + Standing(d.payments, row.instalment, false) <= d.instalments[row.instalment].amount
    ensures NeverMoreThanOwed(d.(payments := d.payments + [row]))
  {
    StaffIsPart(d.payments, row.instalment);
    forall i | i in d.instalments ensures Standing(d.payments + [row], i, true) <= d.instalments[i].amount {
      Appended(d.payments, row, i, true);
    }
  }

  lemma WritingTheReceipt(w: World, w': World, k: nat, generated: PayId)
    requires Inv(w) && Proceeds(w, w', k, generated) && w.tasks[k].Writes? && w.tasks[k].s.Receipt?
    ensures TasksHold(w') && RowsAreUnique(w'.data) && NeverMoreThanOwed(w'.data) && RowsAreAtHome(w'.data)
    ensures exists row :: w'.data == w.data.(receipts := w.data.receipts + [row])
              && w'.tasks[k] == Ended(w.tasks[k].s, Recorded(|w.data.receipts|))
  {
    var t := w.tasks[k];
    assert TaskHolds(w.data, t);
    InsertSucceeds(w, k, generated);
    var row := ReceiptRow(t.s.upload, t.s.said, t.s.request);
    assert w'.data == w.data.(receipts := w.data.receipts + [row]);
    forall j | 0 <= j < |w.tasks| && j != k ensures TaskHolds(w'.data, w'.tasks[j]) {
      assert TaskHolds(w.data, w.tasks[j]);
      assert KeyLock(w.lockOf, w.tasks[j]) != KeyLock(w.lockOf, w.tasks[k]);
      ReceiptAppendedKeeps(w.data, row, w.tasks[j]);
    }
  }

  lemma OneMoreWriter(w: World, w': World, k: nat, kind: bool)
    requires Inv(w) && k < |w.tasks| && |w'.tasks| == |w.tasks| && !w.tasks[k].Ended?
    requires forall j :: 0 <= j < |w.tasks| && j != k ==> w'.tasks[j] == w.tasks[j]
    requires kind ==> |w'.data.payments| == |w.data.payments| + 1 && w.data.payments <= w'.data.payments && w'.data.receipts == w.data.receipts
    requires !kind ==> |w'.data.receipts| == |w.data.receipts| + 1 && w'.data.payments == w.data.payments
    requires IsRecorderOf(w'.tasks[k], kind, if kind then |w.data.payments| else |w.data.receipts|)
    ensures OneWriterEach(w')
  {
    forall n: nat, which | HasRecorder(w.tasks, which, n) ensures HasRecorder(w'.tasks, which, n) {
      var j :| 0 <= j < |w.tasks| && IsRecorderOf(w.tasks[j], which, n);
      assert IsRecorderOf(w'.tasks[j], which, n);
    }
    forall j, n: nat | 0 <= j < |w.tasks| && IsRecorderOf(w.tasks[j], kind, n) ensures n < if kind then |w.data.payments| else |w.data.receipts| {
      assert TaskHolds(w.data, w.tasks[j]);
    }
    assert HasRecorder(w'.tasks, kind, if kind then |w.data.payments| else |w.data.receipts|);
  }

  lemma ProceedingKeeps(w: World, w': World, k: nat, generated: PayId)
    requires Inv(w) && Proceeds(w, w', k, generated)
    ensures Inv(w')
  {
    assert TaskHolds(w.data, w.tasks[k]);
    ProceedingKeepsLocks(w, w', k, generated);
    if !w.tasks[k].Writes? {
      QuietStepHolds(w.data, w.tasks[k], generated);
      QuietlyKeeps(w, w', k, w'.tasks[k]);
    } else if w.tasks[k].s.Payment? {
      WritingTheRow(w, w', k, generated);
      OneMoreWriter(w, w', k, true);
    } else {
      WritingTheReceipt(w, w', k, generated);
      OneMoreWriter(w, w', k, false);
    }
  }

  // ---------------------------------------------------------------- the other steps

  lemma ArrivingKeeps(w: World, w': World, s: Submit)
    requires Inv(w) && Arrives(w, w', s)
    ensures Inv(w')
  {
    forall n: nat, kind | HasRecorder(w.tasks, kind, n) ensures HasRecorder(w'.tasks, kind, n) {
      var j :| 0 <= j < |w.tasks| && IsRecorderOf(w.tasks[j], kind, n);
      assert IsRecorderOf(w'.tasks[j], kind, n);
    }
  }

  lemma FailingKeeps(w: World, w': World, k: nat)
    requires Inv(w) && Fails(w, w', k)
    ensures Inv(w')
  {
    QuietlyKeeps(w, w', k, w'.tasks[k]);
  }

  lemma VoidingStepKeeps(w: World, w': World, n: nat)
    requires Inv(w) && Voids(w, w', n)
    ensures Inv(w')
  {
    forall k | 0 <= k < |w.tasks| ensures TaskHolds(w'.data, w'.tasks[k]) {
      assert TaskHolds(w.data, w.tasks[k]);
      VoidingKeeps(w.data, n, w.tasks[k]);
    }
    forall i | i in w'.data.instalments ensures Standing(w'.data.payments, i, true) <= w'.data.instalments[i].amount {
      VoidingLowers(w.data.payments, n, i, true);
    }
  }

  lemma PayingOtherwiseKeeps(w: World, w': World, row: PayRow)
    requires Inv(w) && PaysOtherwise(w, w', row)
    ensures Inv(w')
  {
    forall k | 0 <= k < |w.tasks| ensures TaskHolds(w'.data, w'.tasks[k]) {
      var t := w.tasks[k];
      assert TaskHolds(w.data, t) && RowLock(t) != Some(row.instalment);
      assert KeyLock(w.lockOf, t) != Some(w.lockOf(PayKey(row.id))) || KeyOf(t.s) != Some(PayKey(row.id));
      PaymentAppendedKeeps(w.data, row, t);
    }
    forall i | i in w'.data.instalments ensures Standing(w'.data.payments, i, true) <= w'.data.instalments[i].amount {
      Appended(w.data.payments, row, i, true);
    }
  }

  lemma PlanningStepKeeps(w: World, w': World, i: InstalmentId, inst: Instalment)
    requires Inv(w) && Plans(w, w', i, inst)
    ensures Inv(w')
  {
    forall k | 0 <= k < |w.tasks| ensures TaskHolds(w'.data, w'.tasks[k]) {
      assert TaskHolds(w.data, w.tasks[k]);
      PlanningKeeps(w.data, i, inst, w.tasks[k]);
    }
    if i !in w.data.instalments {
      NoneOfOurs(w.data.payments, i);
    }
  }

  lemma StepKeeps(w: World, w': World)
    requires Inv(w) && Step(w, w')
    ensures Inv(w')
  {
    if k: nat, generated: PayId :| Proceeds(w, w', k, generated) {
      ProceedingKeeps(w, w', k, generated);
    } else if s: Submit :| Arrives(w, w', s) {
      ArrivingKeeps(w, w', s);
    } else if k: nat :| Fails(w, w', k) {
      FailingKeeps(w, w', k);
    } else if n: nat :| Voids(w, w', n) {
      VoidingStepKeeps(w, w', n);
    } else if row: PayRow :| PaysOtherwise(w, w', row) {
      PayingOtherwiseKeeps(w, w', row);
    } else {
      var i: InstalmentId, inst: Instalment :| Plans(w, w', i, inst);
      PlanningStepKeeps(w, w', i, inst);
    }
  }

  /** In every run: what staff record never passes what is owed, each key has one row, each answer is true. */
  lemma {:induction false} RunsAreSafe(run: seq<World>, k: nat)
    requires IsRun(run) && k < |run|
    ensures Inv(run[k])
  {
    if k > 0 {
      RunsAreSafe(run, k - 1);
      assert Follows(run, k);
      StepKeeps(run[k - 1], run[k]);
    }
  }

  /** Two submits recorded under one key are the same submit. */
  lemma OneRecorderPerKey(run: seq<World>, at: nat, j: nat, k: nat)
    requires IsRun(run) && at < |run| && j < |run[at].tasks| && k < |run[at].tasks|
    requires run[at].tasks[j].Ended? && run[at].tasks[j].outcome.Recorded?
    requires run[at].tasks[k].Ended? && run[at].tasks[k].outcome.Recorded?
    requires KeyOf(run[at].tasks[j].s).Some? && KeyOf(run[at].tasks[k].s) == KeyOf(run[at].tasks[j].s)
    ensures j == k
  {
    RunsAreSafe(run, at);
    var w := run[at];
    var a, b := w.tasks[j], w.tasks[k];
    assert TaskHolds(w.data, a) && TaskHolds(w.data, b);
    assert a.outcome.row == b.outcome.row;
    assert IsRecorderOf(a, a.s.Payment?, a.outcome.row) && IsRecorderOf(b, a.s.Payment?, a.outcome.row);
  }

  // ---------------------------------------------------------------- what a submit is answered

  /**
    * Whatever runs beside it, a submit whose key has a row is answered by that row and
    * writes nothing; recorded is answered only by the insert, and only where no row was.
    */
  lemma AnswersAreExact(run: seq<World>, at: nat, w': World, k: nat, generated: PayId)
    requires IsRun(run) && at < |run| && Proceeds(run[at], w', k, generated) && w'.tasks[k].Ended?
    ensures var d := run[at].data; var s := w'.tasks[k].s; var o := w'.tasks[k].outcome;
            && (o == NotFound <==> s.Payment? && s.instalment !in d.instalments)
            && (o == Replayed <==> o != NotFound && Prior(d, s) == Some(true))
            && (o == KeyTaken <==> o != NotFound && Prior(d, s) == Some(false))
            && (o.Recorded? <==> run[at].tasks[k].Writes?)
            && (!o.Recorded? ==> w'.data == d)
            && (o.Recorded? ==> Prior(d, s).None?)
            && (o == Covered ==> s.Payment? && s.instalment in d.instalments
                                 && d.instalments[s.instalment].amount <= Standing(d.payments, s.instalment, false))
            && o != Failed
  {
    var w := run[at];
    RunsAreSafe(run, at);
    assert TaskHolds(w.data, w.tasks[k]);
    if w.tasks[k].Writes? {
      InsertSucceeds(w, k, generated);
    } else {
      QuietStepHolds(w.data, w.tasks[k], generated);
    }
  }
}
