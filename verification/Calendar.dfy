/** The proleptic Gregorian calendar of ECMA-262, dates as ISO text, and days as numbers. */
module Calendar {
  import opened Options
  import opened Numerals

  datatype Date = Date(year: int, month: int, day: int)

  predicate IsLeap(y: int) {
    y % 4 == 0 && (y % 100 != 0 || y % 400 == 0)
  }

  function DaysIn(y: int, m: int): int {
    if m == 2 then (if IsLeap(y) then 29 else 28) else if m == 4 || m == 6 || m == 9 || m == 11 then 30 else 31
  }

  predicate IsDate(d: Date) {
    0 <= d.year <= 9999 && 1 <= d.month <= 12 && 1 <= d.day <= DaysIn(d.year, d.month)
  }

  predicate Before(a: Date, b: Date) {
    a.year < b.year || (a.year == b.year && (a.month < b.month || (a.month == b.month && a.day < b.day)))
  }

  // ---------------------------------------------------------------- days

  /** DayFromYear, section 21.4.1.3 of ECMA-262. */
  function DayFromYear(y: int): int {
    365 * (y - 1970) + (y - 1969) / 4 - (y - 1901) / 100 + (y - 1601) / 400
  }

  function DaysBefore(y: int, m: int): int
    requires m >= 1
  {
    if m == 1 then 0 else DaysBefore(y, m - 1) + DaysIn(y, m - 1)
  }

  /** Days since 1970-01-01. */
  function DayNumber(d: Date): int
    requires d.month >= 1
  {
    DayFromYear(d.year) + DaysBefore(d.year, d.month) + d.day - 1
  }

  lemma YearStep(y: int)
    ensures DayFromYear(y + 1) - DayFromYear(y) == if IsLeap(y) then 366 else 365
  {
    QuotientStep(y - 1969, 4);
    QuotientStep(y - 1901, 100);
    QuotientStep(y - 1601, 400);
    Divides(y, 4, 492);
    Divides(y, 100, 19);
    Divides(y, 400, 4);
  }

  lemma Divides(y: int, k: int, n: int)
    requires k > 1
    ensures (y - k * n) % k == 0 <==> y % k == 0
  {
    var q, r := y / k, y % k;
    assert y - k * n == k * (q - n) + r;
    QuotientIs(y - k * n, k, q - n, r);
  }

  lemma QuotientStep(n: int, k: int)
    requires k > 1
    ensures (n + 1) / k - n / k == if (n + 1) % k == 0 then 1 else 0
  {
    var q, r := n / k, n % k;
    assert n == k * q + r;
    if r + 1 < k {
      QuotientIs(n + 1, k, q, r + 1);
    } else {
      assert n + 1 == k * (q + 1);
      QuotientIs(n + 1, k, q + 1, 0);
    }
  }

  lemma QuotientIs(n: int, k: int, q: int, r: int)
    requires k > 0 && n == k * q + r && 0 <= r < k
    ensures n / k == q && n % k == r
  {
    var d := n / k - q;
    assert n == k * (n / k) + n % k;
    assert k * d == r - n % k;
    assert d >= 1 ==> k * d >= k;
    assert d <= -1 ==> k * d <= -k;
  }

  lemma YearHas(y: int)
    ensures DaysBefore(y, 13) == if IsLeap(y) then 366 else 365
  {
    assert DaysBefore(y, 2) == 31;
    assert DaysBefore(y, 4) == DaysBefore(y, 3) + 31 == DaysIn(y, 2) + 62;
    assert DaysBefore(y, 6) == DaysBefore(y, 5) + 31 == DaysIn(y, 2) + 123;
    assert DaysBefore(y, 8) == DaysBefore(y, 7) + 31 == DaysIn(y, 2) + 184;
    assert DaysBefore(y, 10) == DaysBefore(y, 9) + 30 == DaysIn(y, 2) + 245;
    assert DaysBefore(y, 12) == DaysBefore(y, 11) + 30 == DaysIn(y, 2) + 306;
  }

  lemma {:induction false} MonthsGrow(y: int, m: int, n: int)
    requires 1 <= m < n
    ensures DaysBefore(y, m) + DaysIn(y, m) <= DaysBefore(y, n)
    decreases n
  {
    if m < n - 1 {
      MonthsGrow(y, m, n - 1);
    }
  }

  lemma {:induction false} YearsGrow(y: int, z: int)
    requires y < z
    ensures DayFromYear(y) + DaysBefore(y, 13) <= DayFromYear(z)
    decreases z - y
  {
    YearStep(z - 1);
    YearHas(y);
    if y < z - 1 {
      YearsGrow(y, z - 1);
    }
  }

  /** Days count in the order of dates. */
  lemma DayNumberOrder(a: Date, b: Date)
    requires IsDate(a) && IsDate(b)
    ensures DayNumber(a) < DayNumber(b) <==> Before(a, b)
    ensures DayNumber(a) == DayNumber(b) <==> a == b
  {
    LaterIsMore(a, b);
    LaterIsMore(b, a);
  }

  lemma LaterIsMore(a: Date, b: Date)
    requires IsDate(a) && IsDate(b)
    ensures Before(a, b) ==> DayNumber(a) < DayNumber(b)
  {
    if a.year < b.year {
      MonthsGrow(a.year, a.month, 13);
      YearsGrow(a.year, b.year);
      DaysBeforeIsNat(b.year, b.month);
    } else if a.year == b.year && a.month < b.month {
      MonthsGrow(a.year, a.month, b.month);
    }
  }

  lemma {:induction false} DaysBeforeIsNat(y: int, m: int)
    requires m >= 1
    ensures DaysBefore(y, m) >= 0
    decreases m
  {
    if m > 1 {
      DaysBeforeIsNat(y, m - 1);
    }
  }

  /** The months' lengths, and the leap years, written out. */
  lemma MonthsAre(y: int)
    ensures DaysIn(y, 1) == 31 && DaysIn(y, 3) == 31 && DaysIn(y, 4) == 30 && DaysIn(y, 5) == 31 && DaysIn(y, 6) == 30 && DaysIn(y, 7) == 31
    ensures DaysIn(y, 8) == 31 && DaysIn(y, 9) == 30 && DaysIn(y, 10) == 31 && DaysIn(y, 11) == 30 && DaysIn(y, 12) == 31
    ensures DaysIn(y, 2) == if y % 400 == 0 then 29 else if y % 100 == 0 then 28 else if y % 4 == 0 then 29 else 28
  {
    assert y == 400 * (y / 400) + y % 400 && y == 100 * (y / 100) + y % 100;
    if y % 400 == 0 {
      QuotientIs(y, 4, 100 * (y / 400), 0);
      QuotientIs(y, 100, 4 * (y / 400), 0);
    } else if y % 100 == 0 {
      QuotientIs(y, 4, 25 * (y / 100), 0);
    }
  }

  /** The first of January 1970 is day 0, and each day is one more than the day before. */
  lemma DayByDay(d: Date)
    requires IsDate(d)
    ensures DayNumber(Date(1970, 1, 1)) == 0
    ensures d.day < DaysIn(d.year, d.month) ==> DayNumber(d.(day := d.day + 1)) == DayNumber(d) + 1
    ensures d.day == DaysIn(d.year, d.month) && d.month < 12 ==> DayNumber(Date(d.year, d.month + 1, 1)) == DayNumber(d) + 1
    ensures d.month == 12 && d.day == 31 ==> DayNumber(Date(d.year + 1, 1, 1)) == DayNumber(d) + 1
  {
    EpochIsZero();
    if d.month == 12 && d.day == 31 {
      YearEnds(d);
    } else if d.day == DaysIn(d.year, d.month) {
      assert DaysBefore(d.year, d.month + 1) == DaysBefore(d.year, d.month) + DaysIn(d.year, d.month);
    }
  }

  lemma EpochIsZero()
    ensures DayNumber(Date(1970, 1, 1)) == 0
  {
    assert DayFromYear(1970) == 0 && DaysBefore(1970, 1) == 0;
  }

  lemma YearEnds(d: Date)
    requires IsDate(d) && d.month == 12 && d.day == 31
    ensures DayNumber(Date(d.year + 1, 1, 1)) == DayNumber(d) + 1
  {
    YearHas(d.year);
    YearStep(d.year);
    assert DaysBefore(d.year, 13) == DaysBefore(d.year, 12) + 31;
    assert DaysBefore(d.year + 1, 1) == 0;
  }

  // ---------------------------------------------------------------- ISO text

  /** YYYY-MM-DD */
  function Iso(d: Date): (s: string)
    requires 0 <= d.year <= 9999 && 0 <= d.month <= 99 && 0 <= d.day <= 99
    ensures |s| == 10
  {
    Fixed(d.year, 4) + "-" + Fixed(d.month, 2) + "-" + Fixed(d.day, 2)
  }

  /** Text order of equal-length parts is the order of the first part that differs. */
  lemma {:induction false} LessOfParts(a: string, x: string, b: string, y: string)
    requires |a| == |b|
    ensures TextLess(a + x, b + y) <==> TextLess(a, b) || (a == b && TextLess(x, y))
    decreases |a|
  {
    if a == "" {
      assert a + x == x && b + y == y;
    } else {
      assert (a + x)[1..] == a[1..] + x && (b + y)[1..] == b[1..] + y;
      LessOfParts(a[1..], x, b[1..], y);
      assert a == [a[0]] + a[1..] && b == [b[0]] + b[1..];
    }
  }

  lemma SamePrefix(p: string, x: string, y: string)
    ensures TextLess(p + x, p + y) <==> TextLess(x, y)
  {
    TextTrichotomy(p, p);
    LessOfParts(p, x, p, y);
  }

  /** Text order of ISO dates is the order of dates. */
  lemma IsoOrder(a: Date, b: Date)
    requires IsDate(a) && IsDate(b)
    ensures TextLess(Iso(a), Iso(b)) <==> Before(a, b)
    ensures Iso(a) == Iso(b) <==> a == b
  {
    assert Power(4) == 10000 by {
      assert Power(1) == 10 && Power(2) == 100 && Power(3) == 1000;
    }
    assert Power(2) == 100 by {
      assert Power(1) == 10;
    }
    FixedOrder(a.year, b.year, 4);
    FixedOrder(a.month, b.month, 2);
    FixedOrder(a.day, b.day, 2);
    var (ya, ma, da) := (Fixed(a.year, 4), Fixed(a.month, 2), Fixed(a.day, 2));
    var (yb, mb, db) := (Fixed(b.year, 4), Fixed(b.month, 2), Fixed(b.day, 2));
    assert Iso(a) == ya + ("-" + (ma + ("-" + da))) && Iso(b) == yb + ("-" + (mb + ("-" + db)));
    LessOfParts(ya, "-" + (ma + ("-" + da)), yb, "-" + (mb + ("-" + db)));
    SamePrefix("-", ma + ("-" + da), mb + ("-" + db));
    LessOfParts(ma, "-" + da, mb, "-" + db);
    SamePrefix("-", da, db);
    PartsOfIso(a);
    PartsOfIso(b);
  }

  lemma PartsOfIso(d: Date)
    requires IsDate(d)
    ensures Iso(d)[..4] == Fixed(d.year, 4) && Iso(d)[5..7] == Fixed(d.month, 2) && Iso(d)[8..] == Fixed(d.day, 2)
    ensures Iso(d)[4] == '-' && Iso(d)[7] == '-'
  {
  }

  // ---------------------------------------------------------------- reading ISO text

  /** 2026-11-02, in its ten characters. */
  lemma IsoIsWritten()
    ensures Iso(Date(2026, 11, 2)) == "2026-11-02"
  {
    assert Fixed(2, 1) == Fixed(0, 0) + "2" && Fixed(20, 2) == Fixed(2, 1) + "0" && Fixed(202, 3) == Fixed(20, 2) + "2";
    assert Fixed(2026, 4) == Fixed(202, 3) + "6" == "2026";
    assert Fixed(1, 1) == Fixed(0, 0) + "1" && Fixed(11, 2) == Fixed(1, 1) + "1" == "11";
    assert Fixed(0, 1) == Fixed(0, 0) + "0" && Fixed(2, 2) == Fixed(0, 1) + "2" == "02";
  }

  /** Reading a date back; None where it is not one. */
  function ParseIso(s: string): Option<Date> {
    if |s| == 10 && s[4] == '-' && s[7] == '-' && AllDigits(s[..4]) && AllDigits(s[5..7]) && AllDigits(s[8..])
       && IsDate(Date(Number(s[..4]), Number(s[5..7]), Number(s[8..])))
    then Some(Date(Number(s[..4]), Number(s[5..7]), Number(s[8..])))
    else None
  }

  lemma {:induction false} FixedReads(n: nat, width: nat)
    requires n < Power(width) && width > 0
    ensures AllDigits(Fixed(n, width)) && Number(Fixed(n, width)) == n
    decreases width
  {
    var s := Fixed(n, width);
    assert s[..|s| - 1] == Fixed(n / 10, width - 1);
    assert s[|s| - 1] == DigitChar(n % 10) && DigitOf(DigitChar(n % 10)) == n % 10;
    FixedIsDigits(n, width);
    if width > 1 {
      FixedReads(n / 10, width - 1);
    } else {
      assert n < 10;
      assert Fixed(n / 10, 0) == "";
    }
  }

  lemma IsoReads(d: Date)
    requires IsDate(d)
    ensures ParseIso(Iso(d)) == Some(d)
  {
    assert Power(1) == 10 && Power(2) == 100 && Power(3) == 1000 && Power(4) == 10000;
    PartsOfIso(d);
    FixedReads(d.year, 4);
    FixedReads(d.month, 2);
    FixedReads(d.day, 2);
  }
}
