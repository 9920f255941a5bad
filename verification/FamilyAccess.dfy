/**
  * A grant of access over one family, from its start to its one end: revoked by a
  * person, or run out and swept into the audit log.
  */
module FamilyAccess {
  import opened Options

  type Time = int
  type GrantId = nat

  const HOUR: int := 3_600_000
  const MAX_HOURS: int := 168
  const BATCH: nat := 200

  datatype Grant = Grant(grantee: nat, family: nat, startsAt: Time, endsAt: Time, revokedAt: Option<Time>, expiredAt: Option<Time>)

  datatype Record = Granted(g: GrantId) | Revoked(g: GrantId, at: Time) | Expired(g: GrantId, at: Time)

  /** The rows, by id, and the audit log. */
  datatype Db = Db(grants: seq<Grant>, log: seq<Record>)

  // ---------------------------------------------------------------- the transactions

  function TxGrant(db: Db, now: Time, grantee: nat, family: nat, hours: int): Db {
    Db(db.grants + [Grant(grantee, family, now, now + hours * HOUR, None, None)], db.log + [Granted(|db.grants|)])
  }

  /** UPDATE ... WHERE revoked_at IS NULL AND ends_at > now() */
  predicate MayRevoke(g: Grant, now: Time) {
    g.revokedAt.None? && g.endsAt > now
  }

  function TxRevoke(db: Db, now: Time, g: GrantId): (Db, bool)
    requires g < |db.grants|
  {
    if MayRevoke(db.grants[g], now) then
      (Db(db.grants[g := db.grants[g].(revokedAt := Some(now))], db.log + [Revoked(g, now)]), true)
    else (db, false)
  }

  /** updateMany where expiryAuditedAt and revokedAt are both null */
  predicate MayExpire(g: Grant) {
    g.expiredAt.None? && g.revokedAt.None?
  }

  function TxExpire(db: Db, now: Time, g: GrantId): (Db, bool)
    requires g < |db.grants|
  {
    if MayExpire(db.grants[g]) then
      (Db(db.grants[g := db.grants[g].(expiredAt := Some(now))], db.log + [Expired(g, db.grants[g].endsAt)]), true)
    else (db, false)
  }

  predicate IsDue(g: Grant, now: Time) {
    MayExpire(g) && g.endsAt <= now
  }

  ghost function DueSet(grants: seq<Grant>, now: Time): set<GrantId> {
    set g | 0 <= g < |grants| && IsDue(grants[g], now)
  }

  /** findMany: the due grants, the earliest end first, at most 200 of them. */
  ghost predicate IsDueList(list: seq<GrantId>, grants: seq<Grant>, now: Time) {
    && (forall j :: 0 <= j < |list| ==> list[j] in DueSet(grants, now))
    && (forall j, k :: 0 <= j < k < |list| ==> list[j] != list[k] && grants[list[j]].endsAt <= grants[list[k]].endsAt)
    && |list| == (if |DueSet(grants, now)| < BATCH then |DueSet(grants, now)| else BATCH)
  }

  predicate IsActive(g: Grant, now: Time) {
    g.revokedAt.None? && g.startsAt <= now < g.endsAt
  }

  datatype Status = IsRevoked | HasEnded | Live

  /** dtos: the status shown. */
  function StatusOf(g: Grant, now: Time): Status {
    if g.revokedAt.Some? then IsRevoked else if g.endsAt <= now then HasEnded else Live
  }

  /** What a grant's page shows is the rule every reader uses. */
  lemma StatusIsTheRule(g: Grant, now: Time)
    requires g.startsAt <= now
    ensures StatusOf(g, now) == Live <==> IsActive(g, now)
    ensures StatusOf(g, now) == IsRevoked <==> g.revokedAt.Some?
  {
  }

  /** A grant is one more row, of that person and family, active from its own time for so many hours, and logged once. */
  lemma GrantIsActiveIff(db: Db, now: Time, grantee: nat, family: nat, hours: nat, t: Time)
    ensures var d := TxGrant(db, now, grantee, family, hours); var n := |db.grants|;
            && |d.grants| == n + 1 && d.grants[..n] == db.grants && d.log == db.log + [Granted(n)]
            && d.grants[n].grantee == grantee && d.grants[n].family == family
            && (IsActive(d.grants[n], t) <==> now <= t < now + 3_600_000 * hours)
  {
  }

  /** A sweep counts the records it writes. */
  lemma {:induction false} SweepCountsItsRecords(db: Db, now: Time, list: seq<GrantId>)
    requires forall j :: 0 <= j < |list| ==> list[j] < |db.grants|
    ensures var (d, n) := Expire(db, now, list); |d.log| == |db.log| + n && db.log == d.log[..|db.log|]
    decreases |list|
  {
    if list != [] {
      SweepCountsItsRecords(db, now, list[..|list| - 1]);
    }
  }

  /** A sweep takes the 200 that ended first, or all there are. */
  lemma ABatchIs200(list: seq<GrantId>, grants: seq<Grant>, now: Time)
    requires IsDueList(list, grants, now)
    ensures |list| <= 200 && (|list| < 200 ==> forall g :: 0 <= g < |grants| && IsDue(grants[g], now) ==> g in list)
  {
    if |list| < 200 {
      ListedOnce(list);
      forall g | g in Listed(list) ensures g in DueSet(grants, now) {
        var j :| 0 <= j < |list| && list[j] == g;
      }
      SameSize(Listed(list), DueSet(grants, now));
      forall g | 0 <= g < |grants| && IsDue(grants[g], now) ensures g in list {
        assert g in DueSet(grants, now);
        assert g in Listed(list);
      }
    }
  }

  ghost function Listed(list: seq<GrantId>): set<GrantId> {
    set g | g in list
  }

  lemma {:induction false} ListedOnce(list: seq<GrantId>)
    requires forall j, k :: 0 <= j < k < |list| ==> list[j] != list[k]
    ensures |Listed(list)| == |list|
    decreases |list|
  {
    if list != [] {
      var front, last := list[..|list| - 1], list[|list| - 1];
      ListedOnce(front);
      assert list == front + [last];
      assert last !in front;
      assert Listed(list) == Listed(front) + {last};
    }
  }

  lemma SameSize(a: set<GrantId>, b: set<GrantId>)
    requires a <= b && |a| == |b|
    ensures a == b
  {
    assert |b - a| == 0;
    assert b == a + (b - a);
  }

  // ---------------------------------------------------------------- the service

  ghost function Expire(db: Db, now: Time, list: seq<GrantId>): (Db, nat)
    requires forall j :: 0 <= j < |list| ==> list[j] < |db.grants|
    ensures |Expire(db, now, list).0.grants| == |db.grants|
    decreases |list|
  {
    if list == [] then (db, 0)
    else
      var (before, n) := Expire(db, now, list[..|list| - 1]);
      var (after, done) := TxExpire(before, now, list[|list| - 1]);
      (after, if done then n + 1 else n)
  }

  class Service {
    var db: Db

    constructor (d: Db)
      ensures db == d
    {
      db := d;
    }

    /** grant; None where the hours are refused. */
    method GrantAccess(now: Time, grantee: nat, family: nat, grantedBy: nat, hours: Option<int>) returns (id: Option<GrantId>)
      modifies this
      ensures var h := if hours.None? then 24 else hours.value;
              if h < 1 || h > 168 || grantee == grantedBy then id.None? && db == old(db)
              else id == Some(|old(db).grants|) && db == TxGrant(old(db), now, grantee, family, h)
    {
      var h := if hours.None? then 24 else hours.value;
      if h < 1 || h > MAX_HOURS || grantee == grantedBy {
        return None;
      }
      id := Some(|db.grants|);
      db := Db(db.grants + [Grant(grantee, family, now, now + h * HOUR, None, None)], db.log + [Granted(|db.grants|)]);
    }

    /** revoke; false is the 409 of a grant that has already ended. */
    method Revoke(now: Time, g: GrantId) returns (done: bool)
      requires g < |db.grants|
      modifies this
      ensures (db, done) == TxRevoke(old(db), now, g)
    {
      var row := db.grants[g];
      done := row.revokedAt.None? && row.endsAt > now;
      if done {
        db := Db(db.grants[g := row.(revokedAt := Some(now))], db.log + [Record.Revoked(g, now)]);
      }
    }

    /** sweepExpired over the grants findMany answered. */
    method SweepExpired(now: Time, due: seq<GrantId>) returns (written: nat)
      requires IsDueList(due, db.grants, now)
      modifies this
      ensures (db, written) == Expire(old(db), now, due)
    {
      written := 0;
      var k := 0;
      while k < |due|
        invariant 0 <= k <= |due| && |db.grants| == |old(db).grants|
        invariant (db, written) == Expire(old(db), now, due[..k])
      {
        assert due[..k + 1][..k] == due[..k];
        var row := db.grants[due[k]];
        if row.expiredAt.None? && row.revokedAt.None? {
          db := Db(db.grants[due[k] := row.(expiredAt := Some(now))], db.log + [Record.Expired(due[k], row.endsAt)]);
          written := written + 1;
        }
        k := k + 1;
      }
      assert due[..k] == due;
    }

    /** activeGrant: of the active ones, one that ends last. */
    method ActiveGrant(now: Time, grantee: nat, family: nat) returns (g: Option<GrantId>)
      ensures g.None? <==> forall k :: 0 <= k < |db.grants| ==> !LetsIn(db.grants[k], now, grantee, family)
      ensures g.Some? ==> g.value < |db.grants| && LetsIn(db.grants[g.value], now, grantee, family)
                          && forall k :: 0 <= k < |db.grants| && LetsIn(db.grants[k], now, grantee, family) ==> db.grants[k].endsAt <= db.grants[g.value].endsAt
    {
      g := None;
      for k := 0 to |db.grants|
        invariant g.None? <==> forall j :: 0 <= j < k ==> !IsFor(db.grants[j], now, grantee, family)
        invariant g.Some? ==> g.value < k && IsFor(db.grants[g.value], now, grantee, family)
                              && forall j :: 0 <= j < k && IsFor(db.grants[j], now, grantee, family) ==> db.grants[j].endsAt <= db.grants[g.value].endsAt
      {
        if IsFor(db.grants[k], now, grantee, family) && (g.None? || db.grants[k].endsAt > db.grants[g.value].endsAt) {
          g := Some(k);
        }
      }
    }
  }

  /** Of this person and this family, begun, not ended and not revoked. */
  ghost predicate LetsIn(g: Grant, now: Time, grantee: nat, family: nat) {
    g.grantee == grantee && g.family == family && g.startsAt <= now && now < g.endsAt && g.revokedAt == None
  }

  predicate IsFor(g: Grant, now: Time, grantee: nat, family: nat) {
    g.grantee == grantee && g.family == family && IsActive(g, now)
  }

  // ---------------------------------------------------------------- one sweep alone

  ghost predicate OnlyExpired(before: seq<Grant>, after: seq<Grant>, now: Time, list: seq<GrantId>) {
    && |after| == |before|
    && forall g :: 0 <= g < |before| ==> after[g] == if g in list then before[g].(expiredAt := Some(now)) else before[g]
  }

  lemma {:induction false} SweepWrites(db: Db, now: Time, list: seq<GrantId>)
    requires forall j :: 0 <= j < |list| ==> list[j] < |db.grants| && MayExpire(db.grants[list[j]])
    requires forall j, k :: 0 <= j < k < |list| ==> list[j] != list[k]
    ensures Expire(db, now, list).1 == |list| && OnlyExpired(db.grants, Expire(db, now, list).0.grants, now, list)
    decreases |list|
  {
    if list != [] {
      var front, last := list[..|list| - 1], list[|list| - 1];
      SweepWrites(db, now, front);
      assert last !in front;
      assert list == front + [last];
    }
  }

  ghost function BatchOf(list: seq<GrantId>): set<GrantId> {
    set g | g in list
  }

  lemma {:induction false} BatchSize(list: seq<GrantId>)
    requires forall j, k :: 0 <= j < k < |list| ==> list[j] != list[k]
    ensures |BatchOf(list)| == |list|
  {
    if list != [] {
      var front, last := list[..|list| - 1], list[|list| - 1];
      BatchSize(front);
      assert list == front + [last];
      assert BatchOf(list) == BatchOf(front) + {last};
      assert last !in front;
    }
  }

  /** Undisturbed, a sweep writes each grant of its batch once, and what was due less the batch is due after it. */
  lemma SweepShrinksTheDue(db: Db, now: Time, list: seq<GrantId>)
    requires IsDueList(list, db.grants, now)
    ensures var (after, written) := Expire(db, now, list);
            && written == |list|
            && DueSet(after.grants, now) == DueSet(db.grants, now) - BatchOf(list)
            && |DueSet(after.grants, now)| == |DueSet(db.grants, now)| - |list|
  {
    SweepWrites(db, now, list);
    DueAfter(db.grants, Expire(db, now, list).0.grants, now, list);
    BatchSize(list);
    assert BatchOf(list) <= DueSet(db.grants, now);
  }

  lemma DueAfter(before: seq<Grant>, after: seq<Grant>, now: Time, list: seq<GrantId>)
    requires OnlyExpired(before, after, now, list)
    ensures DueSet(after, now) == DueSet(before, now) - BatchOf(list)
  {
  }

  ghost predicate IsSweepSequence(dbs: seq<Db>, now: Time, lists: seq<seq<GrantId>>) {
    && |dbs| == |lists| + 1
    && forall k :: 0 <= k < |lists| ==> IsDueList(lists[k], dbs[k].grants, now) && dbs[k + 1] == Expire(dbs[k], now, lists[k]).0
  }

  /** After n sweeps of 200 rows all that was due is written, if there were at most 200 n. */
  lemma {:induction false} SweepsFinish(dbs: seq<Db>, now: Time, lists: seq<seq<GrantId>>)
    requires IsSweepSequence(dbs, now, lists)
    ensures var due, left := |DueSet(dbs[0].grants, now)|, |DueSet(dbs[|lists|].grants, now)|;
            left == if due <= BATCH * |lists| then 0 else due - BATCH * |lists|
    decreases |lists|
  {
    if lists != [] {
      var n := |lists| - 1;
      assert IsSweepSequence(dbs[..n + 1], now, lists[..n]);
      SweepsFinish(dbs[..n + 1], now, lists[..n]);
      SweepShrinksTheDue(dbs[n], now, lists[n]);
    }
  }
}
