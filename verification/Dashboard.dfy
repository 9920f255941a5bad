/**
  * The Dashboard's instalment tiles, counted by one statement, and the counts of the
  * Instalments page, counted by a loop over what it read.
  */
module Dashboard {
  import opened Options
  import opened Numerals
  import opened Calendar
  import opened Instalments

  type FamilyId = nat
  type LearnerId = nat
  type StaffId = nat
  type OrgId = nat

  /** `inScope`: the reader may see this family. */
  datatype Family = Family(org: OrgId, inScope: bool, supervisor: Option<StaffId>)

  datatype Learner = Learner(family: FamilyId, supervisor: Option<StaffId>)

  datatype Row = Row(family: FamilyId, learner: Option<LearnerId>, org: OrgId, due: Date, paid: bool, voided: bool)

  datatype Db = Db(families: map<FamilyId, Family>, learners: map<LearnerId, Learner>, rows: seq<Row>)

  ghost predicate HasDates(db: Db) {
    forall k :: 0 <= k < |db.rows| ==> IsDate(db.rows[k].due)
  }

  predicate IsMine(db: Db, org: OrgId, f: FamilyId) {
    f in db.families && db.families[f].org == org && db.families[f].inScope
  }

  // ---------------------------------------------------------------- the page

  datatype Counts = Counts(overdue: int, due: int, upcoming: int, paid: int, unassigned: int)

  const NONE := Counts(0, 0, 0, 0, 0)

  /** The rows the page reads. */
  predicate IsRead(db: Db, org: OrgId, r: Row, includePaid: bool) {
    IsMine(db, org, r.family) && r.org == org && !r.voided && (includePaid || !r.paid)
  }

  /** The children the page reads: those of every family in scope. */
  predicate ChildIsRead(db: Db, org: OrgId, l: LearnerId) {
    l in db.learners && IsMine(db, org, db.learners[l].family)
  }

  function PageResponsible(db: Db, org: OrgId, r: Row): Option<StaffId>
    requires r.family in db.families
  {
    if r.learner.Some? then
      if ChildIsRead(db, org, r.learner.value) then db.learners[r.learner.value].supervisor else None
    else db.families[r.family].supervisor
  }

  function StatusOfRow(r: Row, today: Date): Status
    requires IsDate(r.due) && IsDate(today)
  {
    StatusOf(r.paid, Iso(r.due), Iso(today))
  }

  /** What one row adds to the page's counts. */
  function PageAdds(db: Db, org: OrgId, today: Date, r: Row, includePaid: bool, c: Counts): Counts
    requires IsDate(r.due) && IsDate(today)
  {
    if !IsRead(db, org, r, includePaid) then c
    else
      var status := StatusOfRow(r, today);
      Counts(
        c.overdue + (if status == Overdue then 1 else 0),
        c.due + (if status == Due then 1 else 0),
        c.upcoming + (if status == Upcoming then 1 else 0),
        c.paid + (if status == Paid then 1 else 0),
        c.unassigned + (if PageResponsible(db, org, r).None? && status != Paid then 1 else 0))
  }

  function PageCounts(db: Db, org: OrgId, today: Date, includePaid: bool, n: nat): Counts
    requires n <= |db.rows| && HasDates(db) && IsDate(today)
  {
    if n == 0 then NONE else PageAdds(db, org, today, db.rows[n - 1], includePaid, PageCounts(db, org, today, includePaid, n - 1))
  }

  /** list: its counts, taken before any filter. */
  method ListCounts(db: Db, org: OrgId, today: Date, includePaid: bool) returns (c: Counts)
    requires HasDates(db) && IsDate(today)
    ensures c == PageCounts(db, org, today, includePaid, |db.rows|)
  {
    c := NONE;
    for k := 0 to |db.rows|
      invariant c == PageCounts(db, org, today, includePaid, k)
    {
      var r := db.rows[k];
      if IsRead(db, org, r, includePaid) {
        var responsible :=
          if r.learner.Some? then
            if r.learner.value in db.learners && IsMine(db, org, db.learners[r.learner.value].family)
            then db.learners[r.learner.value].supervisor else None
          else db.families[r.family].supervisor;
        var status := StatusOf(r.paid, Iso(r.due), Iso(today));
        match status {
          case Overdue => c := c.(overdue := c.overdue + 1);
          case Due => c := c.(due := c.due + 1);
          case Upcoming => c := c.(upcoming := c.upcoming + 1);
          case Paid => c := c.(paid := c.paid + 1);
        }
        if responsible.None? && status != Paid {
          c := c.(unassigned := c.unassigned + 1);
        }
      }
    }
  }

  // ---------------------------------------------------------------- the Dashboard

  predicate IsCounted(db: Db, org: OrgId, r: Row) {
    IsMine(db, org, r.family) && r.org == org && !r.voided && !r.paid
  }

  /** LEFT JOIN learner on its id and on the row's own family. */
  function TileResponsible(db: Db, r: Row): Option<StaffId>
    requires r.family in db.families
  {
    if r.learner.Some? then
      if r.learner.value in db.learners && db.learners[r.learner.value].family == r.family then db.learners[r.learner.value].supervisor else None
    else db.families[r.family].supervisor
  }

  function CountOverdue(db: Db, org: OrgId, today: Date, n: nat): int
    requires n <= |db.rows|
  {
    if n == 0 then 0
    else CountOverdue(db, org, today, n - 1) + (if IsCounted(db, org, db.rows[n - 1]) && Before(db.rows[n - 1].due, today) then 1 else 0)
  }

  function CountDue(db: Db, org: OrgId, today: Date, n: nat): int
    requires n <= |db.rows|
  {
    if n == 0 then 0
    else CountDue(db, org, today, n - 1) + (if IsCounted(db, org, db.rows[n - 1]) && db.rows[n - 1].due == today then 1 else 0)
  }

  function CountUnassigned(db: Db, org: OrgId, n: nat): int
    requires n <= |db.rows|
  {
    if n == 0 then 0
    else CountUnassigned(db, org, n - 1) + (if IsCounted(db, org, db.rows[n - 1]) && TileResponsible(db, db.rows[n - 1]).None? then 1 else 0)
  }

  // ---------------------------------------------------------------- when they agree

  /** An open row about a child who sits in another family in scope, and has a supervisor there. */
  predicate IsAstray(db: Db, org: OrgId, r: Row) {
    && IsCounted(db, org, r) && r.learner.Some? && ChildIsRead(db, org, r.learner.value)
    && db.learners[r.learner.value].family != r.family && db.learners[r.learner.value].supervisor.Some?
  }

  function CountAstray(db: Db, org: OrgId, n: nat): int
    requires n <= |db.rows|
  {
    if n == 0 then 0 else CountAstray(db, org, n - 1) + (if IsAstray(db, org, db.rows[n - 1]) then 1 else 0)
  }

  lemma OneRow(db: Db, org: OrgId, today: Date, r: Row, includePaid: bool, c: Counts)
    requires IsDate(r.due) && IsDate(today)
    ensures var d := PageAdds(db, org, today, r, includePaid, c);
            && d.overdue == c.overdue + (if IsCounted(db, org, r) && Before(r.due, today) then 1 else 0)
            && d.due == c.due + (if IsCounted(db, org, r) && r.due == today then 1 else 0)
            && d.unassigned == c.unassigned + (if IsCounted(db, org, r) && TileResponsible(db, r).None? && !IsAstray(db, org, r) then 1 else 0)
  {
    IsoOrder(r.due, today);
  }

  lemma AstrayIsUnassigned(db: Db, org: OrgId, r: Row)
    requires IsAstray(db, org, r)
    ensures IsCounted(db, org, r) && TileResponsible(db, r).None?
  {
  }

  /** Overdue and due are the page's always; unassigned is the page's and one more for each row astray. */
  lemma {:induction false} TilesAgainstPage(db: Db, org: OrgId, today: Date, includePaid: bool, n: nat)
    requires n <= |db.rows| && HasDates(db) && IsDate(today)
    ensures var c := PageCounts(db, org, today, includePaid, n);
            && CountOverdue(db, org, today, n) == c.overdue
            && CountDue(db, org, today, n) == c.due
            && CountUnassigned(db, org, n) == c.unassigned + CountAstray(db, org, n)
  {
    if n > 0 {
      TilesAgainstPage(db, org, today, includePaid, n - 1);
      OneRow(db, org, today, db.rows[n - 1], includePaid, PageCounts(db, org, today, includePaid, n - 1));
      if IsAstray(db, org, db.rows[n - 1]) {
        AstrayIsUnassigned(db, org, db.rows[n - 1]);
      }
    }
  }

  lemma {:induction false} NoneAstrayIff(db: Db, org: OrgId, n: nat)
    requires n <= |db.rows|
    ensures CountAstray(db, org, n) >= 0
    ensures CountAstray(db, org, n) == 0 <==> forall k :: 0 <= k < n ==> !IsAstray(db, org, db.rows[k])
  {
    if n > 0 {
      NoneAstrayIff(db, org, n - 1);
    }
  }

  /** The tiles are the page's counts if and only if no open row is about a child of another family in scope who has a supervisor. */
  lemma TilesAreThePageIff(db: Db, org: OrgId, today: Date, includePaid: bool)
    requires HasDates(db) && IsDate(today)
    ensures var n := |db.rows|; var c := PageCounts(db, org, today, includePaid, n);
            && CountOverdue(db, org, today, n) == c.overdue && CountDue(db, org, today, n) == c.due
            && (CountUnassigned(db, org, n) == c.unassigned <==> forall k :: 0 <= k < n ==> !IsAstray(db, org, db.rows[k]))
  {
    TilesAgainstPage(db, org, today, includePaid, |db.rows|);
    NoneAstrayIff(db, org, |db.rows|);
  }

  /** Where every child is in its row's family, they always are. */
  lemma ChildrenAtHome(db: Db, org: OrgId, today: Date, includePaid: bool)
    requires HasDates(db) && IsDate(today)
    requires forall k :: 0 <= k < |db.rows| && db.rows[k].learner.Some? && db.rows[k].learner.value in db.learners ==>
               db.learners[db.rows[k].learner.value].family == db.rows[k].family
    ensures CountUnassigned(db, org, |db.rows|) == PageCounts(db, org, today, includePaid, |db.rows|).unassigned
  {
    TilesAreThePageIff(db, org, today, includePaid);
  }

  // ---------------------------------------------------------------- the counts, by their rows

  ghost function Hits(p: nat -> bool, n: nat): set<nat> {
    set k: nat | k < n && p(k)
  }

  lemma OneMoreHit(p: nat -> bool, n: nat)
    ensures |Hits(p, n + 1)| == |Hits(p, n)| + (if p(n) then 1 else 0) && |Hits(p, 0)| == 0
  {
    assert Hits(p, n + 1) == if p(n) then Hits(p, n) + {n} else Hits(p, n);
    assert Hits(p, 0) == {};
  }

  /** A standing row of a family of this organisation that the reader may see. */
  predicate IsShown(db: Db, org: OrgId, r: Row) {
    r.family in db.families && db.families[r.family].org == org && db.families[r.family].inScope && r.org == org && !r.voided
  }

  /** A child of a family of this organisation that the reader may see, and whoever supervises it. */
  predicate IsSupervisedChild(db: Db, org: OrgId, l: LearnerId) {
    && l in db.learners && db.learners[l].family in db.families
    && db.families[db.learners[l].family].org == org && db.families[db.learners[l].family].inScope
    && db.learners[l].supervisor.Some?
  }

  /** Nobody is responsible: for a child's row its supervisor, for a family's row the family's. */
  predicate IsUnassigned(db: Db, org: OrgId, r: Row)
    requires r.family in db.families
  {
    if r.learner.Some? then !IsSupervisedChild(db, org, r.learner.value) else db.families[r.family].supervisor.None?
  }

  ghost predicate OverdueAt(db: Db, org: OrgId, today: Date, k: nat) {
    k < |db.rows| && IsShown(db, org, db.rows[k]) && !db.rows[k].paid && Before(db.rows[k].due, today)
  }

  ghost predicate DueAt(db: Db, org: OrgId, today: Date, k: nat) {
    k < |db.rows| && IsShown(db, org, db.rows[k]) && !db.rows[k].paid && db.rows[k].due == today
  }

  ghost predicate UpcomingAt(db: Db, org: OrgId, today: Date, k: nat) {
    k < |db.rows| && IsShown(db, org, db.rows[k]) && !db.rows[k].paid && Before(today, db.rows[k].due)
  }

  ghost predicate PaidAt(db: Db, org: OrgId, includePaid: bool, k: nat) {
    k < |db.rows| && IsShown(db, org, db.rows[k]) && db.rows[k].paid && includePaid
  }

  ghost predicate UnassignedAt(db: Db, org: OrgId, k: nat) {
    k < |db.rows| && IsShown(db, org, db.rows[k]) && !db.rows[k].paid && IsUnassigned(db, org, db.rows[k])
  }

  ghost function Overdues(db: Db, org: OrgId, today: Date): nat -> bool {
    (k: nat) => OverdueAt(db, org, today, k)
  }

  ghost function Dues(db: Db, org: OrgId, today: Date): nat -> bool {
    (k: nat) => DueAt(db, org, today, k)
  }

  ghost function Upcomings(db: Db, org: OrgId, today: Date): nat -> bool {
    (k: nat) => UpcomingAt(db, org, today, k)
  }

  ghost function Paids(db: Db, org: OrgId, includePaid: bool): nat -> bool {
    (k: nat) => PaidAt(db, org, includePaid, k)
  }

  ghost function Unassigneds(db: Db, org: OrgId): nat -> bool {
    (k: nat) => UnassignedAt(db, org, k)
  }

  lemma RowIsCounted(db: Db, org: OrgId, today: Date, includePaid: bool, k: nat, c: Counts)
    requires k < |db.rows| && HasDates(db) && IsDate(today)
    ensures PageAdds(db, org, today, db.rows[k], includePaid, c)
         == Counts(c.overdue + (if OverdueAt(db, org, today, k) then 1 else 0),
                   c.due + (if DueAt(db, org, today, k) then 1 else 0),
                   c.upcoming + (if UpcomingAt(db, org, today, k) then 1 else 0),
                   c.paid + (if PaidAt(db, org, includePaid, k) then 1 else 0),
                   c.unassigned + (if UnassignedAt(db, org, k) then 1 else 0))
  {
    var r := db.rows[k];
    IsoOrder(r.due, today);
    IsoOrder(today, r.due);
    TextTrichotomy(Iso(r.due), Iso(today));
  }

  /** Each count is the number of shown rows it is about. */
  lemma {:induction false} CountsAreRows(db: Db, org: OrgId, today: Date, includePaid: bool, n: nat)
    requires n <= |db.rows| && HasDates(db) && IsDate(today)
    ensures var c := PageCounts(db, org, today, includePaid, n);
            && c.overdue == |Hits(Overdues(db, org, today), n)|
            && c.due == |Hits(Dues(db, org, today), n)|
            && c.upcoming == |Hits(Upcomings(db, org, today), n)|
            && c.paid == |Hits(Paids(db, org, includePaid), n)|
            && c.unassigned == |Hits(Unassigneds(db, org), n)|
  {
    var m := if n == 0 then 0 else n - 1;
    OneMoreHit(Overdues(db, org, today), m);
    OneMoreHit(Dues(db, org, today), m);
    OneMoreHit(Upcomings(db, org, today), m);
    OneMoreHit(Paids(db, org, includePaid), m);
    OneMoreHit(Unassigneds(db, org), m);
    if n > 0 {
      CountsAreRows(db, org, today, includePaid, m);
      RowIsCounted(db, org, today, includePaid, m, PageCounts(db, org, today, includePaid, m));
    }
  }
}
