/**
  * Submits that wait for each other always come to an end, and each commit is what
  * the undisturbed submit would have written at that moment.
  */
module SubmitLive {
  import opened Options
  import opened Submits
  import opened SubmitRuns

  /** The steps a submit still has before it. */
  function Left(t: Task): nat {
    match t
    case Arrived(_) => 7
    case Seen(_, _) => 6
    case WantsKey(_) => 5
    case HasKey(_) => 4
    case WantsRow(_) => 3
    case HasRow(_) => 2
    case Writes(_, _) => 1
    case Ended(_, _) => 0
  }

  function Work(tasks: seq<Task>): nat {
    if tasks == [] then 0 else Work(tasks[..|tasks| - 1]) + Left(tasks[|tasks| - 1])
  }

  lemma {:induction false} WorkFalls(tasks: seq<Task>, k: nat, t: Task)
    requires k < |tasks|
    ensures Work(tasks[k := t]) == Work(tasks) - Left(tasks[k]) + Left(t)
  {
    var last := |tasks| - 1;
    if k == last {
      assert tasks[k := t][..last] == tasks[..last];
    } else {
      assert tasks[k := t][..last] == tasks[..last][k := t];
      WorkFalls(tasks[..last], k, t);
    }
  }

  lemma {:induction false} NoWorkIsAllEnded(tasks: seq<Task>)
    requires Work(tasks) == 0
    ensures forall k :: 0 <= k < |tasks| ==> tasks[k].Ended?
  {
    if tasks != [] {
      NoWorkIsAllEnded(tasks[..|tasks| - 1]);
    }
  }

  /** The key's lock is taken before the row's, so the wait ends within two holders. */
  lemma SomeoneMayProceed(w: World, k: nat) returns (j: nat)
    requires Inv(w) && k < |w.tasks| && !w.tasks[k].Ended?
    ensures j < |w.tasks| && MayProceed(w, w.tasks[j])
  {
    j := k;
    assert TaskHolds(w.data, w.tasks[j]);
    if w.tasks[j].WantsKey? && !KeyLockFree(w, w.lockOf(KeyOf(w.tasks[j].s).value)) {
      j :| 0 <= j < |w.tasks| && KeyLock(w.lockOf, w.tasks[j]) == Some(w.lockOf(KeyOf(w.tasks[k].s).value));
      assert TaskHolds(w.data, w.tasks[j]);
    }
    if w.tasks[j].WantsRow? && !RowLockFree(w, w.tasks[j].s.instalment) {
      var i := w.tasks[j].s.instalment;
      j :| 0 <= j < |w.tasks| && RowLock(w.tasks[j]) == Some(i);
    }
  }

  lemma {:induction false} AboveAll(ids: seq<nat>) returns (id: nat)
    ensures forall k :: 0 <= k < |ids| ==> ids[k] < id
  {
    id := 0;
    if ids != [] {
      var below := AboveAll(ids[..|ids| - 1]);
      id := if below > ids[|ids| - 1] then below else ids[|ids| - 1] + 1;
    }
  }

  lemma SomeNewId(w: World) returns (id: PayId)
    ensures IsNew(w, id)
  {
    var rows := seq(|w.data.payments|, n requires 0 <= n < |w.data.payments| => w.data.payments[n].id);
    var keys := seq(|w.tasks|, n requires 0 <= n < |w.tasks| => match KeyOf(w.tasks[n].s) case Some(PayKey(k)) => k case _ => 0);
    var a := AboveAll(rows);
    var b := AboveAll(keys);
    id := a + b;
    forall n | 0 <= n < |w.data.payments| ensures w.data.payments[n].id != id {
      assert rows[n] < a;
    }
    forall n | 0 <= n < |w.tasks| ensures KeyOf(w.tasks[n].s) != Some(PayKey(id)) {
      assert keys[n] < b;
    }
  }

  lemma ProceedingWorks(w: World, w': World, k: nat, generated: PayId)
    requires Proceeds(w, w', k, generated)
    ensures Work(w'.tasks) < Work(w.tasks)
  {
    WorkFalls(w.tasks, k, w'.tasks[k]);
  }

  ghost predicate AllEnded(w: World) {
    forall k :: 0 <= k < |w.tasks| ==> w.tasks[k].Ended?
  }

  lemma OneStepOn(w: World) returns (w': World)
    requires Inv(w) && !AllEnded(w)
    ensures Step(w, w') && Work(w'.tasks) < Work(w.tasks)
  {
    var k: nat :| k < |w.tasks| && !w.tasks[k].Ended?;
    var j := SomeoneMayProceed(w, k);
    var id := SomeNewId(w);
    var (d1, t1) := Next(w.data, w.tasks[j], id);
    w' := w.(data := d1, tasks := w.tasks[j := t1]);
    assert Proceeds(w, w', j, id);
    ProceedingWorks(w, w', j, id);
  }

  ghost function Extended(run: seq<World>, w: World): (longer: seq<World>)
    requires IsRun(run) && Step(run[|run| - 1], w)
    ensures IsRun(longer) && longer == run + [w]
  {
    var longer := run + [w];
    assert forall k :: 1 <= k < |run| ==> Follows(run, k) && Follows(longer, k);
    longer
  }

  /**
    * No deadlock, and no endless wait: from every reachable state the submits alone,
    * without a crash, can all be run to their ends, and every step brings that nearer.
    */
  lemma AllCanEnd(run: seq<World>) returns (longer: seq<World>)
    requires IsRun(run)
    ensures IsRun(longer) && run <= longer && |longer| - |run| <= Work(run[|run| - 1].tasks)
    ensures AllEnded(longer[|longer| - 1])
    decreases Work(run[|run| - 1].tasks)
  {
    var w := run[|run| - 1];
    longer := run;
    if !AllEnded(w) {
      RunsAreSafe(run, |run| - 1);
      var w' := OneStepOn(w);
      var next := Extended(run, w');
      longer := AllCanEnd(next);
    }
  }

  /** Nobody waits for a submit that waits, in turn, for as long: whoever holds a lock another wants is further on. */
  lemma HoldersAreAhead(w: World, j: nat, k: nat)
    requires Inv(w) && j < |w.tasks| && k < |w.tasks|
    requires || (w.tasks[k].WantsKey? && KeyLock(w.lockOf, w.tasks[j]) == Some(w.lockOf(KeyOf(w.tasks[k].s).value)))
             || (w.tasks[k].WantsRow? && RowLock(w.tasks[j]) == Some(w.tasks[k].s.instalment))
    ensures 0 < Left(w.tasks[j]) < Left(w.tasks[k])
  {
  }

  /**
    * A staff commit, whatever ran beside it, writes exactly what the undisturbed submit
    * would write at that moment if and only if, since it read them, the instalment was
    * not closed and none of the payments it counted was voided.
    */
  lemma CommitIsAlone(run: seq<World>, at: nat, w': World, k: nat, generated: PayId)
    requires IsRun(run) && at < |run| && Proceeds(run[at], w', k, generated)
    requires run[at].tasks[k].Writes? && run[at].tasks[k].s.Payment?
    ensures var d := run[at].data; var t := run[at].tasks[k];
            && t.s.instalment in d.instalments
            && ((w'.data, w'.tasks[k]) == (Alone(d, t.s, generated).0, Ended(t.s, Alone(d, t.s, generated).1))
                <==> !d.instalments[t.s.instalment].closed
                     && d.instalments[t.s.instalment].amount == Standing(d.payments, t.s.instalment, false) + t.amount)
  {
    var w := run[at];
    var t := w.tasks[k];
    RunsAreSafe(run, at);
    assert TaskHolds(w.data, t);
    InsertSucceeds(w, k, generated);
    var before, after := w.data.payments, w'.data.payments;
    assert after[|before|].amount == t.amount;
    if (w'.data, w'.tasks[k]) == (Alone(w.data, t.s, generated).0, Ended(t.s, Alone(w.data, t.s, generated).1)) {
      assert Alone(w.data, t.s, generated).0.payments[|before|].amount == t.amount;
    }
  }

  /** A receipt's commit always is what the undisturbed submit would write. */
  lemma ReceiptCommitIsAlone(run: seq<World>, at: nat, w': World, k: nat, generated: PayId)
    requires IsRun(run) && at < |run| && Proceeds(run[at], w', k, generated)
    requires run[at].tasks[k].Writes? && run[at].tasks[k].s.Receipt?
    ensures var d := run[at].data; var s := run[at].tasks[k].s;
            (w'.data, w'.tasks[k]) == (Alone(d, s, generated).0, Ended(s, Alone(d, s, generated).1))
  {
    RunsAreSafe(run, at);
    assert TaskHolds(run[at].data, run[at].tasks[k]);
    InsertSucceeds(run[at], k, generated);
  }
}
