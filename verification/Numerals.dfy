/** Numbers in decimal text, and back, and the order of texts. */
module Numerals {

  function DigitChar(n: nat): char
    requires n < 10
  {
    '0' + n as char
  }

  /** The decimal text of a number. */
  function Decimal(n: nat): (s: string)
    ensures s != ""
  {
    (if n < 10 then "" else Decimal(n / 10)) + [DigitChar(n % 10)]
  }

  predicate IsDigit(c: char) {
    '0' <= c <= '9'
  }

  predicate AllDigits(s: string) {
    s != "" && forall k :: 0 <= k < |s| ==> IsDigit(s[k])
  }

  function DigitOf(c: char): nat
    requires IsDigit(c)
  {
    (c - '0') as nat
  }

  /** int() of a text of digits */
  function Number(s: string): nat
    requires forall k :: 0 <= k < |s| ==> IsDigit(s[k])
  {
    if s == "" then 0 else Number(s[..|s| - 1]) * 10 + DigitOf(s[|s| - 1])
  }

  lemma {:induction false} DecimalReads(n: nat)
    ensures AllDigits(Decimal(n)) && Number(Decimal(n)) == n
  {
    if n < 10 {
      OneDigitMore("", n);
    } else {
      DecimalReads(n / 10);
      OneDigitMore(Decimal(n / 10), n % 10);
    }
  }

  lemma OneDigitMore(front: string, d: nat)
    requires d < 10 && (front == "" || AllDigits(front))
    ensures AllDigits(front + [DigitChar(d)]) && Number(front + [DigitChar(d)]) == Number(front) * 10 + d
  {
    var s := front + [DigitChar(d)];
    assert s[..|front|] == front;
    assert DigitOf(DigitChar(d)) == d;
  }

  /** `n` in exactly `width` digits. */
  function Fixed(n: nat, width: nat): (s: string)
    ensures |s| == width
  {
    if width == 0 then "" else Fixed(n / 10, width - 1) + [DigitChar(n % 10)]
  }

  function Power(width: nat): nat {
    if width == 0 then 1 else 10 * Power(width - 1)
  }

  lemma {:induction false} FixedIsDigits(n: nat, width: nat)
    ensures forall i :: 0 <= i < width ==> '0' <= Fixed(n, width)[i] <= '9'
  {
    if width > 0 {
      FixedIsDigits(n / 10, width - 1);
    }
  }

  // ---------------------------------------------------------------- the order of texts

  /** Character by character: SQL's COLLATE "C" and JavaScript's < on strings. */
  predicate TextLess(a: string, b: string) {
    b != "" && (a == "" || a[0] < b[0] || (a[0] == b[0] && TextLess(a[1..], b[1..])))
  }

  lemma {:induction false} TextTrichotomy(a: string, b: string)
    ensures TextLess(a, b) || a == b || TextLess(b, a)
    ensures !(TextLess(a, b) && TextLess(b, a)) && !TextLess(a, a)
    decreases |a|
  {
    if a != "" {
      TextTrichotomy(a[1..], a[1..]);
      if b != "" && a[0] == b[0] {
        TextTrichotomy(a[1..], b[1..]);
        assert a == [a[0]] + a[1..] && b == [b[0]] + b[1..];
      }
    }
  }

  /** The first place they differ decides, and an end comes before any character. */
  lemma {:induction false} TextLessIff(a: string, b: string)
    ensures TextLess(a, b) <==> exists k :: 0 <= k <= |a| && k < |b| && a[..k] == b[..k] && (k == |a| || a[k] < b[k])
    decreases |a|
  {
    if TextLess(a, b) {
      var k := FirstDifference(a, b);
    }
    if k :| 0 <= k <= |a| && k < |b| && a[..k] == b[..k] && (k == |a| || a[k] < b[k]) {
      LessFrom(a, b, k);
    }
  }

  lemma {:induction false} FirstDifference(a: string, b: string) returns (k: nat)
    requires TextLess(a, b)
    ensures k <= |a| && k < |b| && a[..k] == b[..k] && (k == |a| || a[k] < b[k])
    decreases |a|
  {
    k := 0;
    if a != "" && a[0] == b[0] {
      var j := FirstDifference(a[1..], b[1..]);
      k := j + 1;
      assert a[..k] == [a[0]] + a[1..][..j] && b[..k] == [b[0]] + b[1..][..j];
    }
  }

  lemma {:induction false} LessFrom(a: string, b: string, k: nat)
    requires k <= |a| && k < |b| && a[..k] == b[..k] && (k == |a| || a[k] < b[k])
    ensures TextLess(a, b)
    decreases k
  {
    if k > 0 {
      assert a[0] == a[..k][0] == b[..k][0] == b[0];
      assert a[1..][..k - 1] == a[..k][1..] && b[1..][..k - 1] == b[..k][1..];
      LessFrom(a[1..], b[1..], k - 1);
    }
  }

  lemma {:induction false} TextTransitive(a: string, b: string, c: string)
    requires TextLess(a, b) && TextLess(b, c)
    ensures TextLess(a, c)
    decreases |a|
  {
    if a != "" && a[0] == b[0] && b[0] == c[0] {
      TextTransitive(a[1..], b[1..], c[1..]);
    }
  }

  lemma {:induction false} LessAtTheEnd(a: string, x: char, b: string, y: char)
    requires |a| == |b|
    ensures TextLess(a + [x], b + [y]) <==> TextLess(a, b) || (a == b && x < y)
    decreases |a|
  {
    if a == "" {
      assert (a + [x])[1..] == "" && (b + [y])[1..] == "";
    } else {
      assert (a + [x])[1..] == a[1..] + [x] && (b + [y])[1..] == b[1..] + [y];
      LessAtTheEnd(a[1..], x, b[1..], y);
      assert a == [a[0]] + a[1..] && b == [b[0]] + b[1..];
    }
  }

  lemma {:induction false} FixedOrder(m: nat, n: nat, width: nat)
    requires m < Power(width) && n < Power(width)
    ensures TextLess(Fixed(m, width), Fixed(n, width)) <==> m < n
    ensures Fixed(m, width) == Fixed(n, width) <==> m == n
    decreases width
  {
    if width > 0 {
      FixedOrder(m / 10, n / 10, width - 1);
      LessAtTheEnd(Fixed(m / 10, width - 1), DigitChar(m % 10), Fixed(n / 10, width - 1), DigitChar(n % 10));
      var a, b := Fixed(m, width), Fixed(n, width);
      assert a[..width - 1] == Fixed(m / 10, width - 1) && b[..width - 1] == Fixed(n / 10, width - 1);
      assert a[width - 1] == DigitChar(m % 10) && b[width - 1] == DigitChar(n % 10);
    }
  }
}
