/**
  * An instalment's status, the order of the queue, and the due dates of a plan. Dates
  * are ISO text throughout, as the service keeps them.
  */
module Instalments {
  import opened Options
  import opened Numerals
  import opened Calendar

  datatype Status = Overdue | Due | Upcoming | Paid

  /** statusOf */
  function StatusOf(paid: bool, due: string, today: string): Status {
    if paid then Paid else if TextLess(due, today) then Overdue else if due == today then Due else Upcoming
  }

  /** daysFrom: the difference of the two midnights, in days. */
  function DaysFrom(today: string, due: string): int
    requires ParseIso(today).Some? && ParseIso(due).Some?
  {
    DayNumber(ParseIso(due).value) - DayNumber(ParseIso(today).value)
  }

  /** What the page shows as `days`. */
  function DaysShown(status: Status, today: string, due: string): int
    requires ParseIso(today).Some? && ParseIso(due).Some?
  {
    if status == Overdue then -DaysFrom(today, due) else if DaysFrom(today, due) > 0 then DaysFrom(today, due) else 0
  }

  lemma ParsedIsIso(s: string)
    requires ParseIso(s).Some?
    ensures IsDate(ParseIso(s).value) && s == Iso(ParseIso(s).value)
  {
    var d := ParseIso(s).value;
    NumberIsFixed(s[..4]);
    NumberIsFixed(s[5..7]);
    NumberIsFixed(s[8..]);
    assert s == s[..4] + "-" + s[5..7] + "-" + s[8..];
  }

  lemma {:induction false} NumberIsFixed(s: string)
    requires forall k :: 0 <= k < |s| ==> IsDigit(s[k])
    ensures Fixed(Number(s), |s|) == s
    decreases |s|
  {
    if s != "" {
      var front, last := s[..|s| - 1], s[|s| - 1];
      NumberIsFixed(front);
      var n := Number(front) * 10 + DigitOf(last);
      assert n / 10 == Number(front) && n % 10 == DigitOf(last);
      assert DigitChar(DigitOf(last)) == last;
      assert s == front + [last];
    }
  }

  /** Comparing the texts is counting the days: each status is one sign of daysFrom. */
  lemma StatusIsTheSignOfDays(due: string, today: string)
    requires ParseIso(due).Some? && ParseIso(today).Some?
    ensures StatusOf(false, due, today) == Overdue <==> DaysFrom(today, due) < 0
    ensures StatusOf(false, due, today) == Due <==> DaysFrom(today, due) == 0
    ensures StatusOf(false, due, today) == Upcoming <==> DaysFrom(today, due) > 0
  {
    var d, t := ParseIso(due).value, ParseIso(today).value;
    ParsedIsIso(due);
    ParsedIsIso(today);
    IsoOrder(d, t);
    DayNumberOrder(d, t);
    DayNumberOrder(t, d);
  }

  /** The days shown are never negative, and of an open row zero on its due day alone. */
  lemma DaysShownIsHonest(paid: bool, due: string, today: string)
    requires ParseIso(due).Some? && ParseIso(today).Some?
    ensures var days := DaysShown(StatusOf(paid, due, today), today, due);
            && days >= 0
            && (!paid ==> (days == 0 <==> due == today) && (days == DaysFrom(today, due) || days == -DaysFrom(today, due)))
  {
    StatusIsTheSignOfDays(due, today);
    ParsedIsIso(due);
    ParsedIsIso(today);
    DayNumberOrder(ParseIso(due).value, ParseIso(today).value);
  }

  // ---------------------------------------------------------------- the order of the queue

  datatype Item = Item(status: Status, due: string, id: string)

  function Rank(s: Status): int {
    match s
    case Overdue => 0
    case Due => 1
    case Upcoming => 2
    case Paid => 3
  }

  /** localeCompare, on texts for which it is the order of their characters. */
  function CompareText(a: string, b: string): int {
    if TextLess(a, b) then -1 else if a == b then 0 else 1
  }

  /** compareInstalments */
  function Compare(a: Item, b: Item): int {
    if Rank(a.status) != Rank(b.status) then Rank(a.status) - Rank(b.status)
    else
      var byDate := if a.status == Paid then CompareText(b.due, a.due) else CompareText(a.due, b.due);
      if byDate != 0 then byDate else CompareText(a.id, b.id)
  }

  /** What is late first, then what is due today, then what is to come, by due date; what is paid last, the latest due first. */
  ghost predicate StandsBefore(a: Item, b: Item) {
    || (a.status == Overdue && b.status != Overdue)
    || (a.status == Due && (b.status == Upcoming || b.status == Paid))
    || (a.status == Upcoming && b.status == Paid)
    || (a.status == b.status && a.status != Paid && TextLess(a.due, b.due))
    || (a.status == Paid && b.status == Paid && TextLess(b.due, a.due))
    || (a.status == b.status && a.due == b.due && TextLess(a.id, b.id))
  }

  lemma CompareIff(a: Item, b: Item)
    ensures Compare(a, b) < 0 <==> StandsBefore(a, b)
  {
    TextTrichotomy(a.due, b.due);
    TextTrichotomy(a.id, b.id);
    TextTrichotomy(b.due, a.due);
  }

  /** So in the queue every overdue row stands before every due one, that before every one to come, and that before every paid one. */
  lemma QueueStandsInOrder(items: seq<Item>)
    ensures IsQueue(items) <==> forall j, k :: 0 <= j < k < |items| ==> StandsBefore(items[j], items[k])
  {
    forall j, k | 0 <= j < k < |items| ensures Compare(items[j], items[k]) < 0 <==> StandsBefore(items[j], items[k]) {
      CompareIff(items[j], items[k]);
    }
  }

  lemma CompareIsTotal(a: Item, b: Item)
    ensures Compare(a, b) < 0 <==> Compare(b, a) > 0
    ensures Compare(a, b) == 0 <==> a == b
  {
    TextTrichotomy(a.due, b.due);
    TextTrichotomy(a.id, b.id);
    TextTrichotomy(b.due, a.due);
    TextTrichotomy(b.id, a.id);
    TextTrichotomy(a.due, a.due);
    TextTrichotomy(a.id, a.id);
  }

  lemma CompareIsTransitive(a: Item, b: Item, c: Item)
    requires Compare(a, b) < 0 && Compare(b, c) < 0
    ensures Compare(a, c) < 0
  {
    if Rank(a.status) == Rank(b.status) == Rank(c.status) {
      ChainOfTexts(a.due, b.due, c.due);
      ChainOfTexts(c.due, b.due, a.due);
      ChainOfTexts(a.id, b.id, c.id);
      TextTrichotomy(a.due, c.due);
      TextTrichotomy(a.due, b.due);
      TextTrichotomy(b.due, c.due);
    }
  }

  lemma ChainOfTexts(a: string, b: string, c: string)
    ensures TextLess(a, b) && TextLess(b, c) ==> TextLess(a, c)
  {
    if TextLess(a, b) && TextLess(b, c) {
      TextTransitive(a, b, c);
    }
  }

  ghost predicate IsQueue(items: seq<Item>) {
    forall j, k :: 0 <= j < k < |items| ==> Compare(items[j], items[k]) < 0
  }

  /** Rows with ids of their own have one sorted queue, whatever order they came in. */
  lemma {:induction false} QueueIsUnique(a: seq<Item>, b: seq<Item>)
    requires IsQueue(a) && IsQueue(b) && multiset(a) == multiset(b)
    ensures a == b
    decreases |a|
  {
    if a == [] {
      assert |multiset(b)| == 0;
    } else {
      assert |multiset(b)| == |multiset(a)| > 0;
      FirstOfQueues(a, b);
      RestsMatch(a, b);
      QueueIsUnique(a[1..], b[1..]);
      assert a == [a[0]] + a[1..] && b == [b[0]] + b[1..];
    }
  }

  lemma RestsMatch(a: seq<Item>, b: seq<Item>)
    requires a != [] && b != [] && a[0] == b[0] && multiset(a) == multiset(b)
    ensures multiset(a[1..]) == multiset(b[1..])
  {
    assert a == [a[0]] + a[1..] && b == [b[0]] + b[1..];
    assert multiset(a[1..]) == multiset(a) - multiset{a[0]};
    assert multiset(b[1..]) == multiset(b) - multiset{a[0]};
  }

  lemma FirstOfQueues(a: seq<Item>, b: seq<Item>)
    requires IsQueue(a) && IsQueue(b) && a != [] && b != [] && multiset(a) == multiset(b)
    ensures a[0] == b[0]
  {
    assert a[0] in multiset(b) && b[0] in multiset(a);
    var j :| 0 <= j < |b| && b[j] == a[0];
    var k :| 0 <= k < |a| && a[k] == b[0];
    assert j > 0 ==> Compare(b[0], b[j]) < 0;
    assert k > 0 ==> Compare(a[0], a[k]) < 0;
    CompareIsTotal(a[0], b[0]);
  }

  /** Sorting never leaves two rows tied: the queue the sort answers is that one. */
  lemma SortedIsAQueue(items: seq<Item>)
    requires forall j, k :: 0 <= j < k < |items| ==> Compare(items[j], items[k]) <= 0
    requires forall j, k :: 0 <= j < k < |items| ==> items[j].id != items[k].id
    ensures IsQueue(items)
  {
    forall j, k | 0 <= j < k < |items| ensures Compare(items[j], items[k]) < 0 {
      CompareIsTotal(items[j], items[k]);
    }
  }

  // ---------------------------------------------------------------- addMonths

  /** Section 21.4.3.4 of ECMA-262: a year from 0 to 99 means 1900 to 1999. */
  function UtcYear(y: int): int {
    if 0 <= y <= 99 then 1900 + y else y
  }

  function Max0(n: int): nat {
    if n < 0 then 0 else n
  }

  /** The first ten characters of toISOString. */
  function IsoSlice(d: Date): string
    requires 1 <= d.month <= 12 && 1 <= d.day <= 31
  {
    if 0 <= d.year <= 9999 then Iso(d)
    else (if d.year < 0 then "-" else "+") + Fixed(Max0(if d.year < 0 then -d.year else d.year), 6) + "-" + Fixed(d.month, 2)
  }

  function MonthCount(y: int, m: int): int {
    12 * y + m - 1
  }

  function Clamped(y: int, m: int, day: int): int {
    if day < DaysIn(y, m) then day else DaysIn(y, m)
  }

  /** addMonths */
  function AddMonths(date: string, months: int): string
    requires ParseIso(date).Some?
  {
    var d := ParseIso(date).value;
    var count := MonthCount(UtcYear(d.year), d.month) + months;
    var y, m := count / 12, count % 12 + 1;
    IsoSlice(Date(y, m, Clamped(UtcYear(y), m, d.day)))
  }

  /** `d` moved by whole months, its day kept where the month has it. */
  function Moved(d: Date, months: int): Date {
    var count := MonthCount(d.year, d.month) + months;
    Date(count / 12, count % 12 + 1, Clamped(count / 12, count % 12 + 1, d.day))
  }

  /** The years in which Date.UTC takes a year as it is and text has four digits. */
  predicate IsPlain(d: Date, months: int) {
    IsDate(d) && 100 <= d.year && 100 <= Moved(d, months).year <= 9999
  }

  lemma AddMonthsMoves(date: string, d: Date, months: int)
    requires ParseIso(date) == Some(d) && IsPlain(d, months)
    ensures IsDate(Moved(d, months)) && AddMonths(date, months) == Iso(Moved(d, months)) && ParseIso(AddMonths(date, months)) == Some(Moved(d, months))
    ensures MonthCount(Moved(d, months).year, Moved(d, months).month) == MonthCount(d.year, d.month) + months
  {
    IsoReads(Moved(d, months));
  }

  /** From the year 100 on the months are added; before it 1900 years are added with them. */
  lemma AddMonthsIff(date: string, d: Date, months: nat)
    requires ParseIso(date) == Some(d) && IsDate(d) && Moved(d, months).year <= 9999
    ensures Moved(d, months).year >= 0
    ensures AddMonths(date, months) == Iso(Moved(d, months)) <==> 100 <= d.year
  {
    if d.year < 100 {
      LaterYears(date, d, months);
    } else {
      AddMonthsMoves(date, d, months);
    }
  }

  lemma LaterYears(date: string, d: Date, months: nat)
    requires ParseIso(date) == Some(d) && IsDate(d) && d.year < 100 && Moved(d, months).year <= 9999
    ensures Moved(d, months).year >= 0 && AddMonths(date, months) != Iso(Moved(d, months))
  {
    var m := Moved(d, months);
    var count := MonthCount(1900 + d.year, d.month) + months;
    assert count == MonthCount(d.year, d.month) + months + 12 * 1900;
    var y := count / 12;
    assert y == m.year + 1900;
    if y <= 9999 {
      var r := Date(y, count % 12 + 1, Clamped(UtcYear(y), count % 12 + 1, d.day));
      assert IsDate(r) && IsDate(m);
      IsoOrder(r, m);
    } else {
      assert AddMonths(date, months)[0] == '+';
      FixedIsDigits(m.year, 4);
      assert Iso(m)[0] == Fixed(m.year, 4)[0];
    }
  }

  /** A real date, exactly that many months on, on its day or the month's last. */
  lemma MovedIsRight(d: Date, months: int)
    requires IsPlain(d, months)
    ensures var m := Moved(d, months);
            && IsDate(m) && MonthCount(m.year, m.month) == MonthCount(d.year, d.month) + months
            && (m.day == d.day || (m.day < d.day && m.day == DaysIn(m.year, m.month)))
  {
  }

  lemma OrderByMonth(a: Date, b: Date)
    requires 1 <= a.month <= 12 && 1 <= b.month <= 12
    ensures MonthCount(a.year, a.month) < MonthCount(b.year, b.month) ==> Before(a, b)
    ensures MonthCount(a.year, a.month) == MonthCount(b.year, b.month) ==> a.year == b.year && a.month == b.month
  {
  }

  /** Strictly later for each month more. */
  lemma MoreMonthsIsLater(date: string, d: Date, m: int, n: int)
    requires ParseIso(date) == Some(d) && IsPlain(d, m) && IsPlain(d, n) && m < n
    ensures TextLess(AddMonths(date, m), AddMonths(date, n))
  {
    AddMonthsMoves(date, d, m);
    AddMonthsMoves(date, d, n);
    OrderByMonth(Moved(d, m), Moved(d, n));
    IsoOrder(Moved(d, m), Moved(d, n));
  }

  /** Never earlier for a later date. */
  lemma LaterDateIsNotEarlier(first: string, a: Date, second: string, b: Date, months: int)
    requires ParseIso(first) == Some(a) && ParseIso(second) == Some(b)
    requires IsPlain(a, months) && IsPlain(b, months) && Before(a, b)
    ensures !TextLess(AddMonths(second, months), AddMonths(first, months))
  {
    AddMonthsMoves(first, a, months);
    AddMonthsMoves(second, b, months);
    OrderByMonth(Moved(a, months), Moved(b, months));
    IsoOrder(Moved(b, months), Moved(a, months));
  }

  /** Moving twice and moving once, on dates. */
  lemma MovedTwice(d: Date, a: int, b: int)
    requires IsPlain(d, a) && IsPlain(d, a + b) && IsPlain(Moved(d, a), b)
    ensures var once, twice := Moved(d, a + b), Moved(Moved(d, a), b);
            && twice.year == once.year && twice.month == once.month && twice.day <= once.day
            && (d.day <= 28 ==> twice == once)
            && (twice == once <==> Moved(d, a).day >= once.day)
  {
    var m := Moved(d, a);
    assert MonthCount(m.year, m.month) + b == MonthCount(d.year, d.month) + (a + b);
  }

  lemma TwiceTexts(date: string, d: Date, a: int, b: int) returns (first: string, twice: string)
    requires ParseIso(date) == Some(d) && IsPlain(d, a) && IsPlain(Moved(d, a), b)
    ensures first == AddMonths(date, a) && ParseIso(first).Some? && twice == AddMonths(first, b)
    ensures IsDate(Moved(Moved(d, a), b)) && twice == Iso(Moved(Moved(d, a), b))
  {
    var m := Moved(d, a);
    AddMonthsTo(date, d, a, m);
    first := Iso(m);
    AddMonthsTo(first, m, b, Moved(m, b));
    twice := Iso(Moved(m, b));
  }

  /**
    * Twice is never later than once for both together, and the same exactly when the
    * first move loses no day the second would have kept.
    */
  lemma MovingTwice(date: string, d: Date, a: int, b: int) returns (first: string, once: string, twice: string)
    requires ParseIso(date) == Some(d) && IsPlain(d, a) && IsPlain(d, a + b) && IsPlain(Moved(d, a), b)
    ensures first == AddMonths(date, a) && ParseIso(first).Some? && twice == AddMonths(first, b) && once == AddMonths(date, a + b)
    ensures !TextLess(once, twice) && (d.day <= 28 ==> twice == once)
    ensures twice == once <==> Moved(d, a).day >= Moved(d, a + b).day
  {
    first, twice := TwiceTexts(date, d, a, b);
    var x, y := Moved(d, a + b), Moved(Moved(d, a), b);
    AddMonthsTo(date, d, a + b, x);
    once := Iso(x);
    MovedTwice(d, a, b);
    NotLater(x, y);
  }

  lemma AddMonthsTo(date: string, d: Date, months: int, m: Date)
    requires ParseIso(date) == Some(d) && IsPlain(d, months) && m == Moved(d, months)
    ensures IsDate(m) && AddMonths(date, months) == Iso(m) && ParseIso(Iso(m)) == Some(m)
  {
    AddMonthsMoves(date, d, months);
  }

  lemma NotLater(x: Date, y: Date)
    requires IsDate(x) && IsDate(y) && y.year == x.year && y.month == x.month && y.day <= x.day
    ensures !TextLess(Iso(x), Iso(y)) && (Iso(y) == Iso(x) <==> y == x)
  {
    IsoOrder(x, y);
  }

  // ---------------------------------------------------------------- a plan's due dates

  const MAX_PLAN := 24

  datatype Plan = Custom(dues: seq<string>) | Generated(first: string, count: int, everyMonths: int)

  ghost predicate InDueOrder(dues: seq<string>) {
    forall j, k :: 0 <= j < k < |dues| ==> !TextLess(dues[k], dues[j])
  }

  predicate HasDates(p: Plan) {
    match p
    case Custom(dues) => forall k :: 0 <= k < |dues| ==> ParseIso(dues[k]).Some?
    case Generated(first, _, _) => ParseIso(first).Some?
  }

  predicate IsWithinLimits(p: Plan) {
    match p
    case Custom(dues) => 1 <= |dues| <= MAX_PLAN
    case Generated(_, count, every) => 1 <= count <= MAX_PLAN && 1 <= every <= 12
  }

  lemma NotLessIsTransitive(a: string, b: string, c: string)
    requires !TextLess(b, a) && !TextLess(c, b)
    ensures !TextLess(c, a)
  {
    TextTrichotomy(a, b);
    TextTrichotomy(b, c);
    TextTrichotomy(c, a);
    ChainOfTexts(a, b, c);
    ChainOfTexts(c, a, b);
    ChainOfTexts(b, c, a);
  }

  /** createInstalments' schedule: its due dates, or a refusal. */
  method Schedule(p: Plan) returns (dues: Option<seq<string>>)
    requires HasDates(p)
    ensures dues.None? <==> !IsWithinLimits(p) || (p.Custom? && !InDueOrder(p.dues))
    ensures dues.Some? && p.Custom? ==> dues.value == p.dues
    ensures dues.Some? && p.Generated? ==>
              |dues.value| == p.count && forall k :: 0 <= k < p.count ==> dues.value[k] == AddMonths(p.first, k * p.everyMonths)
  {
    if !IsWithinLimits(p) {
      return None;
    }
    if p.Custom? {
      for k := 1 to |p.dues|
        invariant InDueOrder(p.dues[..k])
      {
        if TextLess(p.dues[k], p.dues[k - 1]) {
          assert !InDueOrder(p.dues);
          return None;
        }
        forall j | 0 <= j < k ensures !TextLess(p.dues[k], p.dues[j]) {
          if j < k - 1 {
            assert !TextLess(p.dues[..k][k - 1], p.dues[..k][j]);
            NotLessIsTransitive(p.dues[j], p.dues[k - 1], p.dues[k]);
          }
        }
      }
      assert p.dues[..|p.dues|] == p.dues;
      return Some(p.dues);
    }
    var out := seq(p.count, k requires 0 <= k < p.count => AddMonths(p.first, k * p.everyMonths));
    return Some(out);
  }

  /** A generated plan is in due order, a day never drifts, and no two dues are the same. */
  lemma GeneratedIsInOrder(first: string, d: Date, count: nat, everyMonths: nat, dues: seq<string>)
    requires ParseIso(first) == Some(d) && everyMonths > 0 && |dues| == count
    requires forall k :: 0 <= k < count ==> dues[k] == AddMonths(first, k * everyMonths)
    requires forall k :: 0 <= k < count ==> IsPlain(d, k * everyMonths)
    ensures forall j, k :: 0 <= j < k < count ==> TextLess(dues[j], dues[k])
    ensures forall k :: 0 <= k < count ==> ParseIso(dues[k]) == Some(Moved(d, k * everyMonths))
    ensures InDueOrder(dues)
  {
    forall j, k | 0 <= j < k < count ensures TextLess(dues[j], dues[k]) && !TextLess(dues[k], dues[j]) {
      assert k * everyMonths == j * everyMonths + (k - j) * everyMonths;
      assert (k - j) * everyMonths >= 1 by {
        assert k - j >= 1 && everyMonths >= 1;
        MulIsPositive(k - j, everyMonths);
      }
      MoreMonthsIsLater(first, d, j * everyMonths, k * everyMonths);
      TextTrichotomy(dues[j], dues[k]);
    }
    forall k | 0 <= k < count ensures ParseIso(dues[k]) == Some(Moved(d, k * everyMonths)) {
      AddMonthsMoves(first, d, k * everyMonths);
    }
  }

  lemma MulIsPositive(a: int, b: int)
    requires a >= 1 && b >= 1
    ensures a * b >= 1
  {
  }
}
