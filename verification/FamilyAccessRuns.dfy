/**
  * Grants, revokes and sweeps in any order, sweeps overlapping and cut off anywhere, and
  * revokes that commit later than they began: a grant that ended stays ended, and when
  * exactly it can end twice.
  */
module FamilyAccessRuns {
  import opened Options
  import opened FamilyAccess

  /** A sweep read the clock when it began, and still has these rows to go through. */
  datatype Sweep = Sweep(now: Time, due: seq<GrantId>)

  datatype World = World(clock: Time, db: Db, sweeps: seq<Sweep>)

  // ---------------------------------------------------------------- the steps

  ghost predicate Ticks(w: World, w': World) {
    w'.clock >= w.clock && w' == w.(clock := w'.clock)
  }

  ghost predicate Grants(w: World, w': World, grantee: nat, family: nat, hours: int) {
    1 <= hours <= MAX_HOURS && w' == w.(db := TxGrant(w.db, w.clock, grantee, family, hours))
  }

  /** A revoke whose transaction began at `began`; the database's now() is that time until it commits. */
  ghost predicate Revokes(w: World, w': World, g: GrantId, began: Time) {
    began <= w.clock && g < |w.db.grants| && w' == w.(db := TxRevoke(w.db, began, g).0)
  }

  ghost predicate BeginsSweep(w: World, w': World, now: Time, due: seq<GrantId>) {
    IsDueList(due, w.db.grants, now) && w' == w.(sweeps := w.sweeps + [Sweep(now, due)])
  }

  ghost predicate SweepsOne(w: World, w': World, k: nat) {
    && k < |w.sweeps| && w.sweeps[k].due != [] && w.sweeps[k].due[0] < |w.db.grants|
    && w' == w.(db := TxExpire(w.db, w.sweeps[k].now, w.sweeps[k].due[0]).0,
                sweeps := w.sweeps[k := w.sweeps[k].(due := w.sweeps[k].due[1..])])
  }

  ghost predicate CutsOff(w: World, w': World, k: nat) {
    k < |w.sweeps| && w' == w.(sweeps := w.sweeps[k := w.sweeps[k].(due := [])])
  }

  /** One clock, never going back: a sweep's time is the clock's when it begins. */
  ghost predicate Step(w: World, w': World) {
    || OtherStep(w, w')
    || (exists g: GrantId, began :: Revokes(w, w', g, began))
  }

  /** The same, each revoke at the clock's own time. */
  ghost predicate StepOnTheClock(w: World, w': World) {
    || OtherStep(w, w')
    || (exists g: GrantId :: Revokes(w, w', g, w.clock))
  }

  ghost predicate OtherStep(w: World, w': World) {
    || Ticks(w, w')
    || (exists grantee, family, hours :: Grants(w, w', grantee, family, hours))
    || (exists due :: BeginsSweep(w, w', w.clock, due))
    || (exists k: nat :: SweepsOne(w, w', k))
    || (exists k: nat :: CutsOff(w, w', k))
  }

  ghost predicate Follows(run: seq<World>, k: int)
    requires 1 <= k < |run|
  {
    Step(run[k - 1], run[k])
  }

  ghost predicate IsRun(run: seq<World>) {
    && |run| > 0 && |run[0].db.grants| == 0 && |run[0].db.log| == 0 && |run[0].sweeps| == 0
    && forall k :: 1 <= k < |run| ==> Follows(run, k)
  }

  // ---------------------------------------------------------------- what is kept

  /** Each end within its time. */
  ghost predicate EndsInTime(g: Grant, clock: Time) {
    && g.startsAt <= clock && g.startsAt < g.endsAt
    && (g.revokedAt.Some? ==> g.revokedAt.value < g.endsAt && g.revokedAt.value <= clock)
    && (g.expiredAt.Some? ==> g.endsAt <= g.expiredAt.value <= clock)
  }

  ghost predicate EndsTwice(g: Grant) {
    g.revokedAt.Some? && g.expiredAt.Some?
  }

  function RevokedIn(log: seq<Record>, g: GrantId): nat {
    if log == [] then 0
    else RevokedIn(log[..|log| - 1], g) + (if log[|log| - 1].Revoked? && log[|log| - 1].g == g then 1 else 0)
  }

  function ExpiredIn(log: seq<Record>, g: GrantId): nat {
    if log == [] then 0
    else ExpiredIn(log[..|log| - 1], g) + (if log[|log| - 1].Expired? && log[|log| - 1].g == g then 1 else 0)
  }

  /** The log has one record of an end, of its kind, exactly when the row has. */
  ghost predicate IsLoggedOnce(db: Db, g: GrantId) {
    && RevokedIn(db.log, g) == (if g < |db.grants| && db.grants[g].revokedAt.Some? then 1 else 0)
    && ExpiredIn(db.log, g) == (if g < |db.grants| && db.grants[g].expiredAt.Some? then 1 else 0)
  }

  /** What a sweep still has to do had run out when it began. */
  ghost predicate SweepIsTrue(s: Sweep, db: Db, clock: Time) {
    s.now <= clock && forall j :: 0 <= j < |s.due| ==> s.due[j] < |db.grants| && db.grants[s.due[j]].endsAt <= s.now
  }

  ghost predicate Inv(w: World) {
    && (forall g :: 0 <= g < |w.db.grants| ==> EndsInTime(w.db.grants[g], w.clock))
    && (forall g: GrantId :: IsLoggedOnce(w.db, g))
    && (forall k :: 0 <= k < |w.sweeps| ==> SweepIsTrue(w.sweeps[k], w.db, w.clock))
  }

  lemma Logged(log: seq<Record>, r: Record, g: GrantId)
    ensures RevokedIn(log + [r], g) == RevokedIn(log, g) + (if r.Revoked? && r.g == g then 1 else 0)
    ensures ExpiredIn(log + [r], g) == ExpiredIn(log, g) + (if r.Expired? && r.g == g then 1 else 0)
  {
    assert (log + [r])[..|log|] == log;
  }

  lemma GrantingKeeps(w: World, w': World, grantee: nat, family: nat, hours: int)
    requires Inv(w) && Grants(w, w', grantee, family, hours)
    ensures Inv(w')
  {
    forall g: GrantId ensures IsLoggedOnce(w'.db, g) {
      assert IsLoggedOnce(w.db, g);
      Logged(w.db.log, Granted(|w.db.grants|), g);
    }
    forall k | 0 <= k < |w'.sweeps| ensures SweepIsTrue(w'.sweeps[k], w'.db, w'.clock) {
      assert SweepIsTrue(w.sweeps[k], w.db, w.clock);
    }
  }

  lemma RevokingKeeps(w: World, w': World, g: GrantId, began: Time)
    requires Inv(w) && Revokes(w, w', g, began)
    ensures Inv(w')
  {
    assert EndsInTime(w.db.grants[g], w.clock);
    forall h: GrantId ensures IsLoggedOnce(w'.db, h) {
      assert IsLoggedOnce(w.db, h);
      Logged(w.db.log, Revoked(g, began), h);
    }
    forall k | 0 <= k < |w'.sweeps| ensures SweepIsTrue(w'.sweeps[k], w'.db, w'.clock) {
      assert SweepIsTrue(w.sweeps[k], w.db, w.clock);
    }
  }

  lemma SweepingKeeps(w: World, w': World, k: nat)
    requires Inv(w) && SweepsOne(w, w', k)
    ensures Inv(w')
  {
    var g, now := w.sweeps[k].due[0], w.sweeps[k].now;
    assert SweepIsTrue(w.sweeps[k], w.db, w.clock);
    assert EndsInTime(w.db.grants[g], w.clock);
    forall h: GrantId ensures IsLoggedOnce(w'.db, h) {
      assert IsLoggedOnce(w.db, h);
      Logged(w.db.log, Expired(g, w.db.grants[g].endsAt), h);
    }
    forall j | 0 <= j < |w'.sweeps| ensures SweepIsTrue(w'.sweeps[j], w'.db, w'.clock) {
      assert SweepIsTrue(w.sweeps[j], w.db, w.clock);
    }
  }

  lemma BeginningKeeps(w: World, w': World, due: seq<GrantId>)
    requires Inv(w) && BeginsSweep(w, w', w.clock, due)
    ensures Inv(w')
  {
    forall j | 0 <= j < |w'.sweeps| ensures SweepIsTrue(w'.sweeps[j], w'.db, w'.clock) {
      assert j < |w.sweeps| ==> SweepIsTrue(w.sweeps[j], w.db, w.clock);
    }
  }

  lemma QuietKeeps(w: World, w': World)
    requires Inv(w) && (Ticks(w, w') || exists k: nat :: CutsOff(w, w', k))
    ensures Inv(w')
  {
    forall g | 0 <= g < |w'.db.grants| ensures EndsInTime(w'.db.grants[g], w'.clock) {
      assert EndsInTime(w.db.grants[g], w.clock);
    }
    forall g: GrantId ensures IsLoggedOnce(w'.db, g) {
      assert IsLoggedOnce(w.db, g);
    }
    forall j | 0 <= j < |w'.sweeps| ensures SweepIsTrue(w'.sweeps[j], w'.db, w'.clock) {
      assert SweepIsTrue(w.sweeps[j], w.db, w.clock);
    }
  }

  lemma StepKeeps(w: World, w': World)
    requires Inv(w) && Step(w, w')
    ensures Inv(w')
  {
    if grantee, family, hours :| Grants(w, w', grantee, family, hours) {
      GrantingKeeps(w, w', grantee, family, hours);
    } else if g: GrantId, began :| Revokes(w, w', g, began) {
      RevokingKeeps(w, w', g, began);
    } else if due :| BeginsSweep(w, w', w.clock, due) {
      BeginningKeeps(w, w', due);
    } else if k: nat :| SweepsOne(w, w', k) {
      SweepingKeeps(w, w', k);
    } else {
      QuietKeeps(w, w');
    }
  }

  /** In every run each end is within its time, and the log has one record of it. */
  lemma {:induction false} RunsAreKept(run: seq<World>, k: nat)
    requires IsRun(run) && k < |run|
    ensures Inv(run[k])
  {
    if k > 0 {
      RunsAreKept(run, k - 1);
      assert Follows(run, k);
      StepKeeps(run[k - 1], run[k]);
    }
  }

  // ---------------------------------------------------------------- when a grant ends twice

  /** A revoke takes a grant that a sweep has marked: revoke does not look at the mark, only at its own time. */
  ghost predicate TakesASwept(w: World, w': World, g: GrantId) {
    && g < |w.db.grants| && w.db.grants[g].expiredAt.Some? && w.db.grants[g].revokedAt.None?
    && exists began :: Revokes(w, w', g, began) && began < w.db.grants[g].endsAt
  }

  lemma TwiceByOneStep(w: World, w': World, g: GrantId)
    requires Step(w, w')
    ensures |w.db.grants| <= |w'.db.grants|
    ensures (g < |w'.db.grants| && EndsTwice(w'.db.grants[g])) <==> (g < |w.db.grants| && EndsTwice(w.db.grants[g])) || TakesASwept(w, w', g)
  {
  }

  /** Over every run a grant has both ends if and only if some revoke took it when it was swept, having begun before its end. */
  lemma {:induction false} EndsTwiceIff(run: seq<World>, k: nat, g: GrantId)
    requires IsRun(run) && k < |run|
    ensures (g < |run[k].db.grants| && EndsTwice(run[k].db.grants[g]))
            <==> exists j | 0 < j <= k :: TakesASwept(run[j - 1], run[j], g)
  {
    if k > 0 {
      EndsTwiceIff(run, k - 1, g);
      assert Follows(run, k);
      TwiceByOneStep(run[k - 1], run[k], g);
    }
  }

  ghost predicate IsOnTheClock(run: seq<World>) {
    forall k | 1 <= k < |run| :: StepOnTheClock(run[k - 1], run[k])
  }

  lemma TakenIsRevoked(w: World, w': World, g: GrantId)
    requires TakesASwept(w, w', g)
    ensures g < |w'.db.grants| && w'.db.grants[g].revokedAt.Some?
  {
  }

  lemma SweptIsLeftOnTheClock(w: World, w': World, g: GrantId)
    requires Inv(w) && StepOnTheClock(w, w') && g < |w.db.grants| && w.db.grants[g].expiredAt.Some? && w.db.grants[g].revokedAt.None?
    ensures g < |w'.db.grants| && w'.db.grants[g].revokedAt.None?
  {
    assert EndsInTime(w.db.grants[g], w.clock);
  }

  lemma NoneTakenOnTheClock(w: World, w': World, g: GrantId)
    requires Inv(w) && StepOnTheClock(w, w')
    ensures !TakesASwept(w, w', g)
  {
    if TakesASwept(w, w', g) {
      TakenIsRevoked(w, w', g);
      SweptIsLeftOnTheClock(w, w', g);
    }
  }

  /** Where every revoke is at the clock's own time, a grant is revoked or swept, never both. */
  lemma RunsEndOnce(run: seq<World>, k: nat)
    requires IsRun(run) && IsOnTheClock(run) && k < |run|
    ensures forall g :: 0 <= g < |run[k].db.grants| ==> !EndsTwice(run[k].db.grants[g])
  {
    forall g: GrantId | g < |run[k].db.grants| ensures !EndsTwice(run[k].db.grants[g]) {
      EndsTwiceIff(run, k, g);
      forall j | 0 < j <= k ensures !TakesASwept(run[j - 1], run[j], g) {
        RunsAreKept(run, j - 1);
        NoneTakenOnTheClock(run[j - 1], run[j], g);
      }
    }
  }

  // ---------------------------------------------------------------- an end is for good

  /** Later on the grant has the same window, and what had ended it still has. */
  ghost predicate IsLater(w: World, w': World, g: GrantId)
    requires g < |w.db.grants|
  {
    && w'.clock >= w.clock && g < |w'.db.grants|
    && var a, b := w.db.grants[g], w'.db.grants[g];
       && b.startsAt == a.startsAt && b.endsAt == a.endsAt && b.grantee == a.grantee && b.family == a.family
       && (a.revokedAt.Some? ==> b.revokedAt == a.revokedAt) && (a.expiredAt.Some? ==> b.expiredAt == a.expiredAt)
  }

  lemma OneStepOn(w: World, w': World, g: GrantId)
    requires Inv(w) && Step(w, w') && g < |w.db.grants|
    ensures IsLater(w, w', g)
  {
    assert EndsInTime(w.db.grants[g], w.clock);
  }

  lemma {:induction false} LaterInTheRun(run: seq<World>, j: nat, k: nat, g: GrantId)
    requires IsRun(run) && j <= k < |run| && g < |run[j].db.grants|
    ensures IsLater(run[j], run[k], g)
    decreases k
  {
    if j < k {
      LaterInTheRun(run, j, k - 1, g);
      RunsAreKept(run, k - 1);
      assert Follows(run, k);
      OneStepOn(run[k - 1], run[k], g);
    }
  }

  /** Once a grant is not active it never is again, and how it ended never changes. */
  lemma EndedStaysEnded(run: seq<World>, j: nat, k: nat, g: GrantId)
    requires IsRun(run) && j <= k < |run| && g < |run[j].db.grants| && !IsActive(run[j].db.grants[g], run[j].clock)
    ensures IsLater(run[j], run[k], g) && !IsActive(run[k].db.grants[g], run[k].clock)
  {
    RunsAreKept(run, j);
    assert EndsInTime(run[j].db.grants[g], run[j].clock);
    LaterInTheRun(run, j, k, g);
  }

  // ---------------------------------------------------------------- what it rests on

  /** Revoke does not look at the sweep's mark: it takes a swept grant exactly when its own time is before the end. */
  lemma RevokeOfSweptIff(w: World, g: GrantId, began: Time)
    requires Inv(w) && g < |w.db.grants| && w.db.grants[g].expiredAt.Some? && w.db.grants[g].revokedAt.None?
    ensures TxRevoke(w.db, began, g).1 <==> began < w.db.grants[g].endsAt
    ensures TxRevoke(w.db, began, g).1 ==> began < w.clock
  {
    assert EndsInTime(w.db.grants[g], w.clock);
  }

  lemma Longer(run: seq<World>, w: World) returns (longer: seq<World>)
    requires IsRun(run) && Step(run[|run| - 1], w)
    ensures IsRun(longer) && longer[|longer| - 1] == w
  {
    longer := run + [w];
    forall k | 1 <= k < |longer| ensures Follows(longer, k) {
      if k < |run| {
        assert Follows(run, k);
      }
    }
  }

  function OneGrant(start: Time): Grant {
    Grant(1, 2, start, start + HOUR, None, None)
  }

  lemma OneGrantIsDue(start: Time)
    ensures IsDueList([0], [OneGrant(start)], start + HOUR)
  {
    assert DueSet([OneGrant(start)], start + HOUR) == {0};
  }

  /** A run to the end of an hour's grant: granted, its time over, and swept. */
  lemma SweptInTime(start: Time) returns (run: seq<World>)
    ensures IsRun(run) && run[|run| - 1].clock == start + HOUR
    ensures run[|run| - 1].db == Db([OneGrant(start).(expiredAt := Some(start + HOUR))], [Granted(0), Expired(0, start + HOUR)])
  {
    var w0 := World(start, Db([], []), []);
    run := [w0];
    var w1 := World(start, TxGrant(w0.db, start, 1, 2, 1), []);
    assert Grants(w0, w1, 1, 2, 1);
    run := Longer(run, w1);
    var w2 := w1.(clock := start + HOUR);
    assert Ticks(w1, w2);
    run := Longer(run, w2);
    OneGrantIsDue(start);
    assert w2.db.grants == [OneGrant(start)];
    var w3 := w2.(sweeps := [Sweep(start + HOUR, [0])]);
    assert BeginsSweep(w2, w3, w2.clock, [0]);
    run := Longer(run, w3);
    var w4 := World(w3.clock, TxExpire(w3.db, start + HOUR, 0).0, [Sweep(start + HOUR, [])]);
    assert w3.sweeps[0].due[1..] == [] && w3.sweeps[0 := Sweep(start + HOUR, [])] == w4.sweeps;
    assert SweepsOne(w3, w4, 0);
    run := Longer(run, w4);
  }

  /**
    * So a revoke that began before the end and commits after a sweep leaves both ends:
    * its now() is the time its transaction began.
    */
  lemma ALateRevokeEndsItTwice(start: Time) returns (run: seq<World>)
    ensures IsRun(run)
    ensures var w := run[|run| - 1]; |w.db.grants| == 1 && w.db.grants[0] == OneGrant(start).(revokedAt := Some(start), expiredAt := Some(start + HOUR))
  {
    run := SweptInTime(start);
    var w := run[|run| - 1];
    var w' := w.(db := TxRevoke(w.db, start, 0).0);
    assert Revokes(w, w', 0, start);
    run := Longer(run, w');
  }

  /** A sweep told a time ahead of the clock does the same to a grant still active. */
  lemma ASweepAheadEndsItTwice(start: Time)
    ensures var db0 := TxGrant(Db([], []), start, 1, 2, 1);
            var db1 := TxExpire(db0, start + HOUR, 0).0;
            var db2 := TxRevoke(db1, start + 1, 0).0;
            && IsDue(db0.grants[0], start + HOUR) && IsActive(db1.grants[0], start + 1)
            && db2.grants[0].expiredAt.Some? && db2.grants[0].revokedAt.Some?
  {
  }
}
