/**
  * Following the cursors from the first page: what is listed, and when the log can be
  * read to its end at all.
  */
module ActionLogPages {
  import opened Options
  import opened Numerals
  import opened ActionLog

  predicate IsHexDigit(c: char) {
    c in "0123456789abcdef"
  }

  /** Section 4 of RFC 9562, in lower case. */
  ghost predicate IsUuid(s: string) {
    |s| == 36 && forall i :: 0 <= i < 36 ==> if i == 8 || i == 13 || i == 18 || i == 23 then s[i] == '-' else IsHexDigit(s[i])
  }

  ghost predicate IsRow(r: Row) {
    if r.source.Audit? then r.source.id < Power(WIDTH) else IsUuid(r.source.uuid)
  }

  /** The lines of one staff member between two times: each line is a row of its own. */
  ghost predicate IsLog(log: seq<Row>) {
    && (forall i :: 0 <= i < |log| ==> IsRow(log[i]))
    && (forall i, j :: 0 <= i < j < |log| ==> log[i] != log[j])
  }

  lemma UuidIsKeyText(s: string)
    requires IsUuid(s)
    ensures IsKeyText(s)
  {
  }

  /** A cursor is read exactly of an audit or a case line whose key has 1 to 40 hex digits and dashes. */
  lemma DecodeIff(k: Key)
    ensures Decode(Some(Token(k))) == Some(Some(k))
            <==> (k.source == "audit" || k.source == "case") && 0 < |k.k| < 41 && forall c :: c in k.k ==> IsHexDigit(c) || c == '-'
    ensures Decode(Some(Token(k))) == Some(Some(k)) || Decode(Some(Token(k))).None?
    ensures Decode(None) == Some(None)
  {
    forall c ensures IsKeyChar(c) <==> IsHexDigit(c) || c == '-' {}
  }

  ghost predicate Descending(s: seq<Row>) {
    forall i, j :: 0 <= i < j < |s| ==> Less(KeyOf(s[j]), KeyOf(s[i]))
  }

  lemma KeysNameRows(a: Row, b: Row)
    requires IsRow(a) && IsRow(b) && KeyOf(a) == KeyOf(b)
    ensures a == b
  {
    assert "audit" != "case" && "audit" != "task" && "case" != "task" by {
      assert "audit"[0] != "case"[0] && "audit"[0] != "task"[0] && "case"[0] != "task"[0];
    }
    if a.source.Audit? && b.source.Audit? {
      PaddedOrderIsNumeric(a.source.id, b.source.id);
    }
  }

  // ---------------------------------------------------------------- newest first, in the lines' own fields

  /** Of two uuids of one length, the one that is greater where they first differ. */
  ghost predicate IsGreaterText(a: string, b: string) {
    exists k :: 0 <= k < |a| && k < |b| && a[..k] == b[..k] && a[k] > b[k]
  }

  /** A task's line before a case's before an audit line's: the source names, descending. */
  function SourceRank(s: Source): nat {
    match s
    case Task(_) => 2
    case Case(_) => 1
    case Audit(_) => 0
  }

  /** Listed earlier: later in time; at one time by source; of one source by number or uuid, descending. */
  ghost predicate ComesBefore(a: Row, b: Row) {
    || a.at > b.at
    || (a.at == b.at && SourceRank(a.source) > SourceRank(b.source))
    || (a.at == b.at && SourceRank(a.source) == SourceRank(b.source)
        && if a.source.Audit? && b.source.Audit? then a.source.id > b.source.id
           else !a.source.Audit? && !b.source.Audit? && IsGreaterText(a.source.uuid, b.source.uuid))
  }

  ghost predicate NewestFirst(s: seq<Row>) {
    forall i, j :: 0 <= i < j < |s| ==> ComesBefore(s[i], s[j])
  }

  lemma SourceNameOrder(a: Source, b: Source)
    ensures TextLess(SourceName(a), SourceName(b)) <==> SourceRank(a) < SourceRank(b)
    ensures SourceName(a) == SourceName(b) <==> SourceRank(a) == SourceRank(b)
  {
    assert "audit"[0] == 'a' && "case"[0] == 'c' && "task"[0] == 't';
    TextTrichotomy("audit", "audit");
    TextTrichotomy("case", "case");
    TextTrichotomy("task", "task");
  }

  lemma UuidOrder(a: string, b: string)
    requires |a| == |b|
    ensures TextLess(a, b) <==> IsGreaterText(b, a)
  {
    TextLessIff(a, b);
    if k :| 0 <= k < |b| && k < |a| && b[..k] == a[..k] && b[k] > a[k] {
      assert a[..k] == b[..k];
    }
    if k :| 0 <= k <= |a| && k < |b| && a[..k] == b[..k] && (k == |a| || a[k] < b[k]) {
      assert b[..k] == a[..k] && b[k] > a[k];
    }
  }

  /** The key order is that order. */
  lemma LessIff(a: Row, b: Row)
    requires IsRow(a) && IsRow(b)
    ensures Less(KeyOf(a), KeyOf(b)) <==> ComesBefore(b, a)
  {
    SourceNameOrder(a.source, b.source);
    if a.source.Audit? && b.source.Audit? {
      PaddedOrderIsNumeric(a.source.id, b.source.id);
    } else if !a.source.Audit? && !b.source.Audit? {
      UuidOrder(a.source.uuid, b.source.uuid);
    }
  }

  lemma DescendingIsNewestFirst(s: seq<Row>)
    requires Descending(s) && forall i :: 0 <= i < |s| ==> IsRow(s[i])
    ensures NewestFirst(s)
  {
    forall i, j | 0 <= i < j < |s| ensures ComesBefore(s[i], s[j]) {
      LessIff(s[j], s[i]);
    }
  }

  lemma SortedAreRows(log: seq<Row>)
    requires IsLog(log)
    ensures forall i :: 0 <= i < |Sorted(log)| ==> IsRow(Sorted(log)[i])
  {
    SortKeeps(log);
    forall i | 0 <= i < |Sorted(log)| ensures IsRow(Sorted(log)[i]) {
      assert Sorted(log)[i] in multiset(Sorted(log));
      assert Sorted(log)[i] in log;
    }
  }

  lemma {:induction false} BelowIsALog(log: seq<Row>, c: Option<Key>)
    requires IsLog(log)
    ensures IsLog(Below(log, c)) && forall r :: r in Below(log, c) ==> r in log
    decreases |log|
  {
    if log != [] {
      var rest := Below(log[1..], c);
      BelowIsALog(log[1..], c);
      forall j | 0 <= j < |rest| ensures rest[j] != log[0] && IsRow(rest[j]) {
        assert rest[j] in log[1..];
        var m :| 0 <= m < |log[1..]| && log[1..][m] == rest[j];
        assert log[m + 1] == rest[j];
      }
    }
  }

  /** Every page, whatever the cursor, is newest first, and of lines below the cursor alone. */
  lemma EveryPageIsNewestFirst(log: seq<Row>, t: Option<Token>)
    requires IsLog(log) && List(log, t).Some?
    ensures NewestFirst(List(log, t).value.entries) && |List(log, t).value.entries| <= LIMIT
    ensures forall r :: r in List(log, t).value.entries ==> r in log
  {
    var below := Below(log, Decode(t).value);
    BelowIsALog(log, Decode(t).value);
    SortSorts(below);
    SortedAreRows(below);
    DescendingIsNewestFirst(Sorted(below));
    SortKeeps(below);
    forall r | r in List(log, t).value.entries ensures r in log {
      assert r in multiset(Sorted(below));
    }
  }

  // ---------------------------------------------------------------- sorting

  lemma {:induction false} InsertKeeps(r: Row, s: seq<Row>)
    ensures multiset(Insert(r, s)) == multiset(s) + multiset{r}
  {
    if !(s == [] || Less(KeyOf(s[0]), KeyOf(r))) {
      InsertKeeps(r, s[1..]);
      assert s == [s[0]] + s[1..];
    }
  }

  lemma {:induction false} SortKeeps(rows: seq<Row>)
    ensures multiset(Sorted(rows)) == multiset(rows)
  {
    if rows != [] {
      SortKeeps(rows[1..]);
      InsertKeeps(rows[0], Sorted(rows[1..]));
      assert rows == [rows[0]] + rows[1..];
    }
  }

  /** Below every line of `s`. */
  ghost predicate AllAbove(s: seq<Row>, k: Key) {
    forall i :: 0 <= i < |s| ==> Less(k, KeyOf(s[i]))
  }

  lemma {:induction false} InsertSorts(r: Row, s: seq<Row>)
    requires Descending(s) && forall i :: 0 <= i < |s| ==> KeyOf(s[i]) != KeyOf(r)
    ensures Descending(Insert(r, s))
    ensures forall k: Key :: Less(k, KeyOf(r)) && AllAbove(s, k) ==> AllAbove(Insert(r, s), k)
  {
    if s == [] {
    } else if Less(KeyOf(s[0]), KeyOf(r)) {
      forall i | 0 <= i < |s| ensures Less(KeyOf(s[i]), KeyOf(r)) {
        if i > 0 {
          Transitive(KeyOf(s[i]), KeyOf(s[0]), KeyOf(r));
        }
      }
    } else {
      Trichotomy(KeyOf(s[0]), KeyOf(r));
      InsertSorts(r, s[1..]);
      TailOfInsert(r, s);
    }
  }

  lemma TailOfInsert(r: Row, s: seq<Row>)
    requires Descending(s) && s != [] && Less(KeyOf(r), KeyOf(s[0])) && Descending(Insert(r, s[1..]))
    ensures Descending([s[0]] + Insert(r, s[1..]))
  {
    var t := Insert(r, s[1..]);
    InsertKeeps(r, s[1..]);
    forall i | 0 <= i < |t| ensures Less(KeyOf(t[i]), KeyOf(s[0])) {
      assert t[i] in multiset(t);
      if t[i] != r {
        assert t[i] in s[1..];
        var j :| 0 <= j < |s[1..]| && s[1..][j] == t[i];
        assert s[j + 1] == t[i];
      }
    }
  }

  lemma FirstIsNew(log: seq<Row>)
    requires IsLog(log) && log != []
    ensures forall i :: 0 <= i < |Sorted(log[1..])| ==> KeyOf(Sorted(log[1..])[i]) != KeyOf(log[0])
  {
    var s := Sorted(log[1..]);
    SortKeeps(log[1..]);
    forall i | 0 <= i < |s| ensures KeyOf(s[i]) != KeyOf(log[0]) {
      assert s[i] in multiset(s);
      assert s[i] in log[1..];
      var j :| 0 <= j < |log[1..]| && log[1..][j] == s[i];
      assert log[j + 1] == s[i];
      if KeyOf(s[i]) == KeyOf(log[0]) {
        KeysNameRows(log[j + 1], log[0]);
      }
    }
  }

  lemma {:induction false} SortSorts(log: seq<Row>)
    requires IsLog(log)
    ensures Descending(Sorted(log))
  {
    if log != [] {
      SortSorts(log[1..]);
      FirstIsNew(log);
      InsertSorts(log[0], Sorted(log[1..]));
    }
  }

  // ---------------------------------------------------------------- the lines below a cursor

  lemma {:induction false} BelowNone(s: seq<Row>)
    ensures Below(s, None) == s
  {
    if s != [] {
      BelowNone(s[1..]);
    }
  }

  lemma {:induction false} NoneBelow(s: seq<Row>, c: Key)
    requires forall i :: 0 <= i < |s| ==> !Less(KeyOf(s[i]), c)
    ensures Below(s, Some(c)) == []
  {
    if s != [] {
      NoneBelow(s[1..], c);
    }
  }

  lemma {:induction false} AllBelow(s: seq<Row>, c: Key)
    requires forall i :: 0 <= i < |s| ==> Less(KeyOf(s[i]), c)
    ensures Below(s, Some(c)) == s
  {
    if s != [] {
      AllBelow(s[1..], c);
    }
  }

  lemma {:induction false} BelowInsert(r: Row, s: seq<Row>, c: Key)
    requires Descending(s) && forall i :: 0 <= i < |s| ==> KeyOf(s[i]) != KeyOf(r)
    ensures Below(Insert(r, s), Some(c)) == if Less(KeyOf(r), c) then Insert(r, Below(s, Some(c))) else Below(s, Some(c))
  {
    if s == [] {
      assert [r][1..] == [];
    } else if Less(KeyOf(s[0]), KeyOf(r)) {
      assert ([r] + s)[1..] == s;
      if Less(KeyOf(r), c) {
        forall i | 0 <= i < |s| ensures Less(KeyOf(s[i]), c) {
          if i > 0 {
            Transitive(KeyOf(s[i]), KeyOf(s[0]), KeyOf(r));
          }
          Transitive(KeyOf(s[i]), KeyOf(r), c);
        }
        AllBelow(s, c);
      }
    } else {
      Trichotomy(KeyOf(s[0]), KeyOf(r));
      BelowInsert(r, s[1..], c);
      var below := Below(s[1..], Some(c));
      assert ([s[0]] + Insert(r, s[1..]))[1..] == Insert(r, s[1..]);
      if !Less(KeyOf(s[0]), c) {
        assert Below(s, Some(c)) == [] + below == below;
        assert Below(Insert(r, s), Some(c)) == [] + Below(Insert(r, s[1..]), Some(c));
      } else {
        Transitive(KeyOf(r), KeyOf(s[0]), c);
        assert ([s[0]] + below)[1..] == below;
      }
    }
  }

  lemma SortedFilter(r: Row, rest: seq<Row>, c: Key)
    ensures Sorted(Below([r] + rest, Some(c))) == if Less(KeyOf(r), c) then Insert(r, Sorted(Below(rest, Some(c)))) else Sorted(Below(rest, Some(c)))
  {
    var b := Below(rest, Some(c));
    assert ([r] + rest)[1..] == rest;
    assert ([r] + b)[1..] == b;
    assert [] + b == b;
  }

  /** Filtering then sorting is sorting then filtering. */
  lemma {:induction false} BelowSorted(log: seq<Row>, c: Key)
    requires IsLog(log)
    ensures Sorted(Below(log, Some(c))) == Below(Sorted(log), Some(c))
  {
    if log != [] {
      BelowSorted(log[1..], c);
      SortSorts(log[1..]);
      FirstIsNew(log);
      BelowInsert(log[0], Sorted(log[1..]), c);
      assert log == [log[0]] + log[1..];
      SortedFilter(log[0], log[1..], c);
    }
  }

  /** The lines below one of the lines are the lines after it. */
  lemma {:induction false} BelowOneOfThem(s: seq<Row>, i: nat)
    requires Descending(s) && i < |s|
    ensures Below(s, Some(KeyOf(s[i]))) == s[i + 1..]
    decreases i
  {
    Trichotomy(KeyOf(s[0]), KeyOf(s[i]));
    if i == 0 {
      AllBelow(s[1..], KeyOf(s[0]));
    } else {
      assert s[1..][i - 1] == s[i] && s[1..][i..] == s[i + 1..];
      BelowOneOfThem(s[1..], i - 1);
    }
  }

  // ---------------------------------------------------------------- following the cursors

  /** The cursor that comes after the first `j` lines of the sorted log. */
  ghost predicate StandsAt(log: seq<Row>, t: Option<Token>, j: nat) {
    && j <= |Sorted(log)|
    && (if j == 0 then t == None else t == Some(Encode(KeyOf(Sorted(log)[j - 1]))) && !Sorted(log)[j - 1].source.Task?)
  }

  lemma CursorIsRead(log: seq<Row>, j: nat)
    requires IsLog(log) && 0 < j <= |Sorted(log)|
    ensures var r := Sorted(log)[j - 1]; Decode(Some(Encode(KeyOf(r)))) == if r.source.Task? then None else Some(Some(KeyOf(r)))
  {
    var r := Sorted(log)[j - 1];
    SortKeeps(log);
    assert r in multiset(Sorted(log));
    assert IsRow(r);
    if r.source.Audit? {
      PaddedOrderIsNumeric(r.source.id, r.source.id);
    } else if r.source.Case? {
      UuidIsKeyText(r.source.uuid);
    } else {
      assert "task"[0] != "audit"[0] && "task"[0] != "case"[0];
    }
  }

  /** One page: the next lines, at most 200, and a cursor exactly while lines are left. */
  lemma PageAt(log: seq<Row>, t: Option<Token>, j: nat)
    requires IsLog(log) && StandsAt(log, t, j)
    ensures var s := Sorted(log); var n := if |s| - j <= LIMIT then |s| else j + LIMIT;
            List(log, t) == Some(Page(s[j..n], if n < |s| then Some(Encode(KeyOf(s[n - 1]))) else None))
  {
    var s := Sorted(log);
    RowsLeftAt(log, t, j);
    TwoCuts(s[j..]);
    var n := if |s| - j <= LIMIT then |s| else j + LIMIT;
    var page := Take(s[j..], LIMIT);
    assert page == s[j..n];
    assert page != [] ==> page[|page| - 1] == s[n - 1];
  }

  lemma RowsLeftAt(log: seq<Row>, t: Option<Token>, j: nat)
    requires IsLog(log) && StandsAt(log, t, j)
    ensures Decode(t).Some? && Sorted(Below(log, Decode(t).value)) == Sorted(log)[j..]
  {
    if j == 0 {
      BelowNone(log);
      assert Sorted(log)[0..] == Sorted(log);
    } else {
      CursorIsRead(log, j);
      RowsAfter(log, j);
    }
  }

  lemma RowsAfter(log: seq<Row>, j: nat)
    requires IsLog(log) && 0 < j <= |Sorted(log)|
    ensures Sorted(Below(log, Some(KeyOf(Sorted(log)[j - 1])))) == Sorted(log)[j..]
  {
    var c := KeyOf(Sorted(log)[j - 1]);
    BelowSorted(log, c);
    SortSorts(log);
    BelowOneOfThem(Sorted(log), j - 1);
  }

  lemma TwoCuts(rows: seq<Row>)
    ensures Take(Take(rows, LIMIT + 1), LIMIT) == Take(rows, LIMIT)
    ensures |Take(rows, LIMIT + 1)| > LIMIT <==> |rows| > LIMIT
  {
  }

  /** Asking for page after page until no cursor comes; None where one is refused. */
  ghost function Follow(log: seq<Row>, t: Option<Token>, j: nat): Option<seq<seq<Row>>>
    requires IsLog(log) && StandsAt(log, t, j)
    decreases |Sorted(log)| - j
  {
    PageAt(log, t, j);
    var page := List(log, t).value;
    if page.next.None? then Some([page.entries])
    else
      CursorIsRead(log, j + LIMIT);
      if List(log, page.next).None? then None
      else
        var rest := Follow(log, page.next, j + LIMIT);
        if rest.None? then None else Some([page.entries] + rest.value)
  }

  ghost function Flat(pages: seq<seq<Row>>): seq<Row> {
    if pages == [] then [] else pages[0] + Flat(pages[1..])
  }

  /** A page that is not the last ends on a task's line. */
  ghost predicate EndsOnATask(s: seq<Row>, j: nat, m: int) {
    m >= 1 && j + LIMIT * m < |s| && s[j + LIMIT * m - 1].source.Task?
  }

  lemma {:induction false} FollowFrom(log: seq<Row>, t: Option<Token>, j: nat)
    requires IsLog(log) && StandsAt(log, t, j)
    ensures Follow(log, t, j).Some? <==> !exists m :: EndsOnATask(Sorted(log), j, m)
    ensures Follow(log, t, j).Some? ==> Flat(Follow(log, t, j).value) == Sorted(log)[j..]
    ensures Follow(log, t, j).Some? ==> forall p :: 0 <= p < |Follow(log, t, j).value| ==> |Follow(log, t, j).value[p]| <= LIMIT
    decreases |Sorted(log)| - j
  {
    var s := Sorted(log);
    PageAt(log, t, j);
    var page := List(log, t).value;
    if page.next.None? {
      OnePage(page.entries);
    } else {
      CursorIsRead(log, j + LIMIT);
      if s[j + LIMIT - 1].source.Task? {
        assert EndsOnATask(s, j, 1);
      } else {
        PageAt(log, page.next, j + LIMIT);
        FollowFrom(log, page.next, j + LIMIT);
        BoundariesShift(s, j, j + LIMIT);
        var rest := Follow(log, page.next, j + LIMIT);
        if rest.Some? {
          OnePageMore(page.entries, rest.value, s, j);
        }
      }
    }
  }

  lemma OnePage(page: seq<Row>)
    ensures Flat([page]) == page
  {
    var none := [page][1..];
    assert Flat(none) == [];
  }

  lemma OnePageMore(page: seq<Row>, rest: seq<seq<Row>>, s: seq<Row>, j: nat)
    requires j + LIMIT <= |s| && page == s[j..j + LIMIT] && Flat(rest) == s[j + LIMIT..]
    ensures Flat([page] + rest) == s[j..]
  {
    assert ([page] + rest)[1..] == rest;
  }

  lemma BoundariesShift(s: seq<Row>, j: nat, next: nat)
    requires next == j + LIMIT < |s| && !s[j + LIMIT - 1].source.Task?
    ensures (exists m :: EndsOnATask(s, j, m)) <==> (exists m :: EndsOnATask(s, next, m))
  {
    if m :| EndsOnATask(s, j, m) {
      assert m > 1;
      assert EndsOnATask(s, next, m - 1);
    }
    if m :| EndsOnATask(s, next, m) {
      assert EndsOnATask(s, j, m + 1);
    }
  }

  /**
    * Following the cursors lists every line exactly once, newest first, in pages of at
    * most 200, if and only if no page but the last ends on a task's line: the cursor of
    * such a page is refused by the next call.
    */
  lemma CursorsListEverythingIff(log: seq<Row>)
    requires IsLog(log)
    ensures var pages := Follow(log, None, 0);
            && (pages.Some? <==> !exists m :: EndsOnATask(Sorted(log), 0, m))
            && (pages.Some? ==> multiset(Flat(pages.value)) == multiset(log) && NewestFirst(Flat(pages.value)))
            && (pages.Some? ==> forall p :: 0 <= p < |pages.value| ==> |pages.value[p]| <= LIMIT)
  {
    FollowFrom(log, None, 0);
    SortKeeps(log);
    SortSorts(log);
    SortedAreRows(log);
    DescendingIsNewestFirst(Sorted(log));
    assert Sorted(log)[0..] == Sorted(log);
  }

  /** 201 lines, the 200th a task's: the second page cannot be asked for. */
  lemma ATaskAtTheEndStopsIt(log: seq<Row>, t: Token)
    requires IsLog(log) && |Sorted(log)| == LIMIT + 1 && Sorted(log)[LIMIT - 1].source.Task?
    requires List(log, None).value.next == Some(t)
    ensures List(log, Some(t)).None?
  {
    PageAt(log, None, 0);
    CursorIsRead(log, LIMIT);
  }
}
