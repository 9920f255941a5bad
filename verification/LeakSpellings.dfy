/**
  * Every way JS source may spell a string, and why the scan finds each: unescaping
  * undoes any mix of spellings, anywhere in a file where an escape could begin.
  */
module LeakSpellings {
  import opened Options
  import opened LeakScan

  /** One character's spelling. */
  datatype Spelling =
    | Raw
    | Braces(digits: Text)           // \u{1 to 6 digits}
    | Fours(quads: seq<Text>)       // \uXXXX, two of them above U+FFFF
    | Two(pair: Text)                // \xXX
    | Simple(letter: Cp)             // \n and its like, or the character itself

  /** The letters JS gives a meaning after a backslash, and that meaning; any other character is itself. */
  const SIMPLE: map<char, Cp> := map['n' := 0x0A, 't' := 0x09, 'r' := 0x0D, 'b' := 0x08, 'f' := 0x0C, 'v' := 0x0B, '0' := 0x00]

  function SimpleMeans(letter: Cp): Cp {
    if letter < 128 && letter as char in SIMPLE then SIMPLE[letter as char] else letter
  }

  const LOWER: string := "0123456789abcdef"
  const UPPER: string := "0123456789ABCDEF"

  /** A hex digit of either case, and its value. */
  ghost predicate IsDigitOf(d: Cp, v: nat) {
    v < 16 && (d == LOWER[v] as int || d == UPPER[v] as int)
  }

  /** The digits write the number, the greatest place first. */
  ghost predicate IsHexOf(digits: Text, n: nat) {
    if digits == [] then n == 0
    else IsDigitOf(digits[|digits| - 1], n % 16) && IsHexOf(digits[..|digits| - 1], n / 16)
  }

  lemma DigitIs(d: Cp, v: nat)
    ensures IsDigitOf(d, v) <==> IsHex(d) && DigitValue(d) == v
  {
    if v < 16 {
      TableAt(v);
    }
    if IsHex(d) {
      TableAt(DigitValue(d));
    }
  }

  lemma TableAt(v: nat)
    requires v < 16
    ensures LOWER[v] as int == (if v < 10 then 48 + v else 87 + v) && UPPER[v] as int == (if v < 10 then 48 + v else 55 + v)
  {
  }

  /** The scan's reading of hex digits is that. */
  lemma {:induction false} HexIff(digits: Text, n: nat)
    ensures IsHexOf(digits, n) <==> AllHex(digits) && Number(digits) == n
    decreases |digits|
  {
    if digits != [] {
      var front, last := digits[..|digits| - 1], digits[|digits| - 1];
      DigitIs(last, n % 16);
      HexIff(front, n / 16);
      assert digits == front + [last];
      if AllHex(digits) {
        assert Number(digits) == Number(front) * 16 + DigitValue(last);
      }
    }
  }

  function WriteFours(digits: seq<Text>): Text {
    if digits == [] then [] else [BS, SMALL_U] + digits[0] + WriteFours(digits[1..])
  }

  function WriteChar(sp: Spelling, c: Cp): Text {
    match sp
    case Raw => [c]
    case Braces(digits) => [BS, SMALL_U, OPEN] + digits + [SHUT]
    case Fours(digits) => WriteFours(digits)
    case Two(pair) => [BS, SMALL_X] + pair
    case Simple(letter) => [BS, letter]
  }

  ghost predicate Spells(sp: Spelling, c: Cp) {
    match sp
    case Raw => c != BS
    case Braces(digits) => 1 <= |digits| <= 6 && IsHexOf(digits, c)
    case Fours(digits) => SpellsUnits(digits, UnitsOf(c))
    case Two(pair) => |pair| == 2 && IsHexOf(pair, c)
    case Simple(letter) => letter != SMALL_U && letter != SMALL_X && c == SimpleMeans(letter)
  }

  ghost predicate SpellsUnits(digits: seq<Text>, units: Text) {
    |digits| == |units| && forall k :: 0 <= k < |units| ==> |digits[k]| == 4 && IsHexOf(digits[k], units[k])
  }

  function Write(sps: seq<Spelling>, s: Text): Text
    requires |sps| == |s|
  {
    if s == [] then [] else WriteChar(sps[0], s[0]) + Write(sps[1..], s[1..])
  }

  ghost predicate SpellsAll(sps: seq<Spelling>, s: Text) {
    |sps| == |s| && forall k :: 0 <= k < |s| ==> Spells(sps[k], s[k])
  }

  // ---------------------------------------------------------------- what a spelled character becomes

  lemma {:induction false} HexRunStops(t: Text, n: nat, most: nat)
    requires n <= most && n < |t| && AllHex(t[..n]) && !IsHex(t[n])
    ensures HexRun(t, most) == n
    decreases n
  {
    if n > 0 {
      assert t[0] == t[..n][0];
      assert t[1..][..n - 1] == t[..n][1..];
      HexRunStops(t[1..], n - 1, most - 1);
    }
  }

  /** The substitution of a text that starts with the token `p`. */
  ghost predicate Substitutes(p: Text, out: Text, rest: Text) {
    Substituted(p + rest) == if Substituted(rest).None? then None else Some(out + Substituted(rest).value)
  }

  lemma OneToken(p: Text, c: Cp, rest: Text)
    requires p != [] && TokenLength(p + rest) == |p| && TokenChar(p + rest) == Some(c)
    ensures Substitutes(p, [c], rest)
  {
    assert (p + rest)[|p|..] == rest;
  }

  lemma BracesToken(digits: Text, c: Cp, rest: Text)
    requires 1 <= |digits| <= 6 && AllHex(digits) && Number(digits) == c
    ensures Substitutes([BS, SMALL_U, OPEN] + digits + [SHUT], [c], rest)
  {
    var p := [BS, SMALL_U, OPEN] + digits + [SHUT];
    var t := p + rest;
    assert t[3..][..|digits|] == digits;
    assert t[3..][|digits|] == SHUT;
    HexRunStops(t[3..], |digits|, 6);
    assert t[3..3 + |digits|] == digits;
    OneToken(p, c, rest);
  }

  lemma FourToken(digits: Text, c: Cp, rest: Text)
    requires |digits| == 4 && AllHex(digits) && Number(digits) == c
    ensures Substitutes([BS, SMALL_U] + digits, [c], rest)
  {
    var p := [BS, SMALL_U] + digits;
    var t := p + rest;
    assert t[2..6] == digits;
    assert t[2] == digits[0];
    OneToken(p, c, rest);
  }

  lemma TwoToken(pair: Text, c: Cp, rest: Text)
    requires |pair| == 2 && AllHex(pair) && Number(pair) == c
    ensures Substitutes([BS, SMALL_X] + pair, [c], rest)
  {
    var p := [BS, SMALL_X] + pair;
    assert (p + rest)[2..4] == pair;
    OneToken(p, c, rest);
  }

  lemma TokensCompose(p: Text, out: Text, p2: Text, out2: Text, rest: Text)
    requires Substitutes(p, out, p2 + rest) && Substitutes(p2, out2, rest)
    ensures Substitutes(p + p2, out + out2, rest)
  {
    assert (p + p2) + rest == p + (p2 + rest);
    if Substituted(rest).Some? {
      assert (out + out2) + Substituted(rest).value == out + (out2 + Substituted(rest).value);
    }
  }

  lemma FirstQuad(digits: seq<Text>, units: Text)
    requires SpellsUnits(digits, units) && digits != []
    ensures |digits[0]| == 4 && AllHex(digits[0]) && Number(digits[0]) == units[0]
  {
    HexIff(digits[0], units[0]);
  }

  lemma {:induction false} FoursTokens(digits: seq<Text>, units: Text, rest: Text)
    requires SpellsUnits(digits, units)
    ensures Substitutes(WriteFours(digits), units, rest)
    decreases |digits|
  {
    if digits == [] {
      assert WriteFours(digits) + rest == rest;
      if Substituted(rest).Some? {
        assert units + Substituted(rest).value == Substituted(rest).value;
      }
    } else {
      var tail := WriteFours(digits[1..]);
      FoursTokens(digits[1..], units[1..], rest);
      FirstQuad(digits, units);
      FourToken(digits[0], units[0], tail + rest);
      TokensCompose([BS, SMALL_U] + digits[0], [units[0]], tail, units[1..], rest);
      assert [units[0]] + units[1..] == units;
    }
  }

  lemma UnitsOfUnits(c: Cp)
    ensures Units(UnitsOf(c)) == UnitsOf(c) && Units([c]) == UnitsOf(c)
  {
    assert Units([c]) == UnitsOf(c) + Units([]);
    if c >= 0x1_0000 {
      var u := UnitsOf(c);
      assert u[1..] == [u[1]] && u[1..][1..] == [];
      assert Units(u) == [u[0]] + Units([u[1]]);
    }
  }

  lemma {:induction false} UnitsAppend(a: Text, b: Text)
    ensures Units(a + b) == Units(a) + Units(b)
  {
    if a == [] {
      assert a + b == b;
    } else {
      assert (a + b)[1..] == a[1..] + b;
      UnitsAppend(a[1..], b);
    }
  }

  /** What stands before `rest` comes out as `out`, in UTF-16. */
  ghost predicate ComesOutAs(p: Text, units: Text, rest: Text) {
    && (Substituted(p + rest).None? <==> Substituted(rest).None?)
    && (Substituted(rest).Some? ==>
          exists out :: IsSplit(Substituted(p + rest).value, out, Substituted(rest).value) && Units(out) == units)
  }

  ghost predicate IsSplit(whole: Text, front: Text, back: Text) {
    whole == front + back
  }

  lemma SplitsCompose(x: Text, a: Text, y: Text, b: Text, z: Text)
    requires IsSplit(x, a, y) && IsSplit(y, b, z)
    ensures IsSplit(x, a + b, z)
  {
    assert a + (b + z) == (a + b) + z;
  }

  lemma CharComesOut(sp: Spelling, c: Cp, rest: Text)
    requires Spells(sp, c)
    ensures ComesOutAs(WriteChar(sp, c), UnitsOf(c), rest)
  {
    UnitsOfUnits(c);
    var p := WriteChar(sp, c);
    match sp {
      case Raw => OneToken(p, c, rest);
      case Braces(digits) =>
        HexIff(digits, c);
        BracesToken(digits, c, rest);
      case Fours(digits) => FoursTokens(digits, UnitsOf(c), rest);
      case Two(pair) =>
        HexIff(pair, c);
        TwoToken(pair, c, rest);
      case Simple(letter) => OneToken(p, c, rest);
    }
    if Substituted(rest).Some? {
      assert IsSplit(Substituted(p + rest).value, if sp.Fours? then UnitsOf(c) else [c], Substituted(rest).value);
    }
  }

  lemma OutputsCompose(p: Text, u: Text, p2: Text, u2: Text, rest: Text)
    requires ComesOutAs(p, u, p2 + rest) && ComesOutAs(p2, u2, rest)
    ensures ComesOutAs(p + p2, u + u2, rest)
  {
    assert (p + p2) + rest == p + (p2 + rest);
    if Substituted(rest).Some? {
      var x, y, z := Substituted(p + (p2 + rest)).value, Substituted(p2 + rest).value, Substituted(rest).value;
      var a :| IsSplit(x, a, y) && Units(a) == u;
      var b :| IsSplit(y, b, z) && Units(b) == u2;
      UnitsAppend(a, b);
      SplitsCompose(x, a, y, b, z);
    }
  }

  lemma {:induction false} TextComesOut(sps: seq<Spelling>, s: Text, rest: Text)
    requires SpellsAll(sps, s)
    ensures ComesOutAs(Write(sps, s), Units(s), rest)
    decreases |s|
  {
    if s == [] {
      assert Write(sps, s) + rest == rest;
      if Substituted(rest).Some? {
        assert IsSplit(Substituted(rest).value, [], Substituted(rest).value);
      }
    } else {
      var p, tail := WriteChar(sps[0], s[0]), Write(sps[1..], s[1..]);
      TextComesOut(sps[1..], s[1..], rest);
      CharComesOut(sps[0], s[0], tail + rest);
      OutputsCompose(p, UnitsOf(s[0]), tail, Units(s[1..]), rest);
    }
  }

  // ---------------------------------------------------------------- surrogate pairs

  /** Section 2.1 of RFC 2781, as the equation a pair satisfies. */
  ghost predicate AreUnitsOf(units: Text, c: Cp) {
    if c < 0x1_0000 then units == [c]
    else |units| == 2 && 0xD800 <= units[0] <= 0xDBFF && 0xDC00 <= units[1] <= 0xDFFF
         && c == (units[0] - 0xD800) * 1024 + (units[1] - 0xDC00) + 0x1_0000
  }

  lemma UnitsIff(units: Text, c: Cp)
    ensures units == UnitsOf(c) <==> AreUnitsOf(units, c)
  {
    if c >= 0x1_0000 && AreUnitsOf(units, c) {
      var h, l := units[0] - 0xD800, units[1] - 0xDC00;
      assert (c - 0x1_0000) / 0x400 == h && (c - 0x1_0000) % 0x400 == l;
      assert units == [units[0], units[1]];
    }
  }

  /** No pair is split between the two. */
  ghost predicate CutsNoPair(a: Text, b: Text) {
    a != [] && b != [] ==> !(IsHigh(a[|a| - 1]) && IsLow(b[0]))
  }

  lemma {:induction false} DecodeAppend(a: Text, b: Text)
    requires CutsNoPair(a, b)
    ensures Decode(a + b) == Decode(a) + Decode(b)
    decreases |a|
  {
    if a == [] {
      assert a + b == b;
    } else {
      var n := if StartsPair(a) then 2 else 1;
      DecodeAppend(a[n..], b);
      SameFirst(a, b, n);
      DecodeFirst(a, n);
      DecodeFirst(a + b, n);
    }
  }

  lemma DecodeFirst(t: Text, n: nat)
    requires t != [] && n == if StartsPair(t) then 2 else 1
    ensures n <= |t| && Decode(t) == [FirstChar(t)] + Decode(t[n..])
  {
  }

  lemma SameFirst(a: Text, b: Text, n: nat)
    requires a != [] && CutsNoPair(a, b) && n == if StartsPair(a) then 2 else 1
    ensures StartsPair(a + b) == StartsPair(a) && FirstChar(a + b) == FirstChar(a) && (a + b)[n..] == a[n..] + b && CutsNoPair(a[n..], b)
  {
  }

  lemma DecodeOne(c: Cp)
    requires IsScalar(c)
    ensures Decode(UnitsOf(c)) == [c]
  {
    var u := UnitsOf(c);
    if c < 0x1_0000 {
      assert u[1..] == [];
    } else {
      assert u[2..] == [];
    }
  }

  /** RFC 2781's own round trip. */
  lemma {:induction false} DecodeUnits(s: Text)
    requires AllScalar(s)
    ensures Decode(Units(s)) == s
    ensures s != [] ==> !IsLow(Units(s)[0]) && !IsHigh(Units(s)[|Units(s)| - 1])
  {
    if s != [] {
      DecodeUnits(s[1..]);
      DecodeOne(s[0]);
      DecodeAppend(UnitsOf(s[0]), Units(s[1..]));
    }
  }

  lemma {:induction false} DecodeInContext(a: Text, s: Text, b: Text)
    requires AllScalar(s) && s != []
    ensures Decode(a + Units(s) + b) == Decode(a) + s + Decode(b)
  {
    DecodeUnits(s);
    DecodeAppend(Units(s), b);
    assert a + Units(s) + b == a + (Units(s) + b);
    DecodeAppend(a, Units(s) + b);
  }

  // ---------------------------------------------------------------- where an escape may begin

  /** The substitution's own scan stops at `k`. */
  ghost predicate Boundary(t: Text, k: nat)
    decreases |t|
  {
    k == 0 || (t != [] && TokenLength(t) <= k && Boundary(t[TokenLength(t)..], k - TokenLength(t)))
  }

  ghost function Before(t: Text, k: nat): Option<Text>
    requires Boundary(t, k)
    decreases |t|
  {
    if k == 0 then Some([])
    else
      var rest := Before(t[TokenLength(t)..], k - TokenLength(t));
      if TokenChar(t).None? || rest.None? then None else Some([TokenChar(t).value] + rest.value)
  }

  lemma {:induction false} BoundarySplits(t: Text, k: nat)
    requires Boundary(t, k)
    ensures k <= |t|
    ensures Substituted(t).Some? <==> Before(t, k).Some? && Substituted(t[k..]).Some?
    ensures Substituted(t).Some? ==> Substituted(t).value == Before(t, k).value + Substituted(t[k..]).value
    decreases |t|
  {
    if k == 0 {
      assert t[0..] == t;
    } else {
      var n := TokenLength(t);
      var rest := t[n..];
      BoundarySplits(rest, k - n);
      assert rest[k - n..] == t[k..];
      if TokenChar(t).Some? && Substituted(rest).Some? {
        OneBefore(TokenChar(t).value, Before(rest, k - n).value, Substituted(t[k..]).value);
      }
    }
  }

  lemma OneBefore(c: Cp, a: Text, b: Text)
    ensures [c] + (a + b) == ([c] + a) + b
  {
  }

  // ---------------------------------------------------------------- the theorems

  /** `t` holds a spelling of `s` at `k`. */
  ghost predicate SpelledAt(t: Text, k: nat, sps: seq<Spelling>, s: Text) {
    SpellsAll(sps, s) && Boundary(t, k) && StandsAt(t, Write(sps, s), k)
  }

  /** Any spelling of any text, at an escape boundary of any file, is that text once unescaped. */
  lemma SpellingsAreUndone(t: Text, k: nat, sps: seq<Spelling>, s: Text)
    requires SpelledAt(t, k, sps, s) && AllScalar(s) && s != [] && Unescape(t).Some?
    ensures Before(t, k).Some? && StandsAt(Unescape(t).value, s, |Decode(Units(Before(t, k).value))|)
  {
    var p := Write(sps, s);
    var rest := t[k + |p|..];
    BoundarySplits(t, k);
    RestAfter(t, k, p);
    var out := OutputOf(sps, s, rest);
    StandsAfterDecoding(Before(t, k).value, out, Substituted(rest).value, s);
  }

  lemma RestAfter(t: Text, k: nat, p: Text)
    requires StandsAt(t, p, k)
    ensures t[k..] == p + t[k + |p|..]
  {
  }

  lemma OutputOf(sps: seq<Spelling>, s: Text, rest: Text) returns (out: Text)
    requires SpellsAll(sps, s) && Substituted(Write(sps, s) + rest).Some?
    ensures Substituted(rest).Some? && Substituted(Write(sps, s) + rest).value == out + Substituted(rest).value && Units(out) == Units(s)
  {
    TextComesOut(sps, s, rest);
    out :| IsSplit(Substituted(Write(sps, s) + rest).value, out, Substituted(rest).value) && Units(out) == Units(s);
  }

  lemma StandsAfterDecoding(a: Text, out: Text, b: Text, s: Text)
    requires AllScalar(s) && s != [] && Units(out) == Units(s)
    ensures StandsAt(Decode(Units(a + (out + b))), s, |Decode(Units(a))|)
  {
    UnitsOfThree(a, out, b);
    DecodeInContext(Units(a), s, Units(b));
    StandsInTheMiddle(Decode(Units(a)), s, Decode(Units(b)));
  }

  lemma UnitsOfThree(a: Text, b: Text, c: Text)
    ensures Units(a + (b + c)) == Units(a) + Units(b) + Units(c)
  {
    UnitsAppend(a, b + c);
    UnitsAppend(b, c);
  }

  lemma StandsInTheMiddle(a: Text, s: Text, b: Text)
    ensures StandsAt(a + s + b, s, |a|)
  {
    assert (a + s + b)[|a|..|a| + |s|] == s;
  }

  /** A whole text that is one spelling comes back whole. */
  lemma WholeSpelling(sps: seq<Spelling>, s: Text)
    requires SpellsAll(sps, s) && AllScalar(s)
    ensures Unescape(Write(sps, s)) == Some(s)
  {
    TextComesOut(sps, s, []);
    assert Write(sps, s) + [] == Write(sps, s);
    var out :| IsSplit(Substituted(Write(sps, s)).value, out, []) && Units(out) == Units(s);
    assert out + [] == out;
    DecodeUnits(s);
  }

  // ---------------------------------------------------------------- esbuild's spelling is one of them

  lemma NumberOfFour(a: Cp, b: Cp, c: Cp, d: Cp)
    requires IsHex(a) && IsHex(b) && IsHex(c) && IsHex(d)
    ensures Number([a, b, c, d]) == DigitValue(a) * 0x1000 + DigitValue(b) * 0x100 + DigitValue(c) * 0x10 + DigitValue(d)
  {
    assert [a, b, c, d][..3] == [a, b, c];
    assert [a, b, c][..2] == [a, b];
    assert [a, b][..1] == [a];
    assert [a][..0] == [];
    assert Number([a]) == DigitValue(a);
    assert Number([a, b]) == Number([a]) * 16 + DigitValue(b);
    assert Number([a, b, c]) == Number([a, b]) * 16 + DigitValue(c);
  }

  lemma DigitReads(v: int, upper: bool)
    requires 0 <= v < 16
    ensures IsHex(Digit(v, upper)) && DigitValue(Digit(v, upper)) == v
  {
  }

  lemma FourReads(u: int, upper: bool)
    requires 0 <= u < 0x1_0000
    ensures Number(Four(u, upper)) == u
  {
    var (u1, u2, u3) := (u / 16, u / 16 / 16, u / 16 / 16 / 16);
    DigitReads(u3, upper);
    DigitReads(u2 % 16, upper);
    DigitReads(u1 % 16, upper);
    DigitReads(u % 16, upper);
    NumberOfFour(Digit(u3, upper), Digit(u2 % 16, upper), Digit(u1 % 16, upper), Digit(u % 16, upper));
  }

  function EscapedSpelling(c: Cp, upper: bool): Spelling {
    if c < 128 then Raw
    else if c < 0x1_0000 then Fours([Four(c, upper)])
    else Fours([Four(UnitsOf(c)[0], upper), Four(UnitsOf(c)[1], upper)])
  }

  lemma EscapedCharIsSpelled(c: Cp, upper: bool)
    ensures EscapedChar(c, upper) == WriteChar(EscapedSpelling(c, upper), c)
    ensures c != BS ==> Spells(EscapedSpelling(c, upper), c)
  {
    if c >= 128 {
      var u := UnitsOf(c);
      FourReads(u[0], upper);
      HexIff(Four(u[0], upper), u[0]);
      if c < 0x1_0000 {
        var ds: seq<Text> := [Four(c, upper)];
        assert u[1..] == [];
        assert ds[1..] == [];
        assert EscapedUnits(u, upper) == [BS, SMALL_U] + Four(c, upper) + EscapedUnits([], upper);
        assert WriteFours(ds) == [BS, SMALL_U] + Four(c, upper) + WriteFours([]);
      } else {
        FourReads(u[1], upper);
        HexIff(Four(u[1], upper), u[1]);
        var ds: seq<Text> := [Four(u[0], upper), Four(u[1], upper)];
        assert u[1..] == [u[1]] && u[1..][1..] == [];
        assert ds[1..] == [Four(u[1], upper)];
        assert EscapedUnits([u[1]], upper) == [BS, SMALL_U] + Four(u[1], upper) + EscapedUnits([], upper);
        var last: seq<Text> := ds[1..];
        assert last[1..] == [];
        assert WriteFours(last) == [BS, SMALL_U] + Four(u[1], upper) + WriteFours([]);
      }
    }
  }

  /** What escaped writes is ASCII, and an ASCII text stays as it is. */
  lemma {:induction false} EscapedIsAscii(s: Text, upper: bool)
    ensures forall k :: 0 <= k < |Escaped(s, upper)| ==> Escaped(s, upper)[k] < 128
    ensures (forall k :: 0 <= k < |s| ==> s[k] < 128) ==> Escaped(s, upper) == s
    decreases |s|
  {
    if s != [] {
      EscapedIsAscii(s[1..], upper);
      if s[0] >= 128 {
        UnitsAreAscii(UnitsOf(s[0]), upper);
      }
      assert s == [s[0]] + s[1..];
    }
  }

  lemma {:induction false} UnitsAreAscii(units: Text, upper: bool)
    requires forall k :: 0 <= k < |units| ==> units[k] < 0x1_0000
    ensures forall k :: 0 <= k < |EscapedUnits(units, upper)| ==> EscapedUnits(units, upper)[k] < 128
    decreases |units|
  {
    if units != [] {
      UnitsAreAscii(units[1..], upper);
    }
  }

  ghost function EscapedSpellings(s: Text, upper: bool): seq<Spelling> {
    seq(|s|, k requires 0 <= k < |s| => EscapedSpelling(s[k], upper))
  }

  lemma {:induction false} EscapedIsSpelled(s: Text, upper: bool)
    requires BS !in s
    ensures SpellsAll(EscapedSpellings(s, upper), s) && Write(EscapedSpellings(s, upper), s) == Escaped(s, upper)
  {
    var sps := EscapedSpellings(s, upper);
    forall k | 0 <= k < |s| ensures Spells(sps[k], s[k]) {
      EscapedCharIsSpelled(s[k], upper);
    }
    if s != [] {
      EscapedCharIsSpelled(s[0], upper);
      EscapedIsSpelled(s[1..], upper);
      assert sps[1..] == EscapedSpellings(s[1..], upper);
    }
  }

  /** unescape undoes escaped, in either case, for every text without a backslash. */
  lemma RoundTrip(s: Text, upper: bool)
    requires AllScalar(s) && BS !in s
    ensures Unescape(Escaped(s, upper)) == Some(s)
  {
    EscapedIsSpelled(s, upper);
    WholeSpelling(EscapedSpellings(s, upper), s);
  }

  // ---------------------------------------------------------------- the scan is complete

  /** A file shows a string: as it is, spelled in any mix, or spelled twice over. */
  ghost predicate Shows(raw: Text, s: Text) {
    || Contains(raw, s)
    || (exists k: nat, sps :: SpelledAt(raw, k, sps, s))
    || (exists k: nat, sps, sps2 :: SpelledTwiceAt(raw, k, sps2, sps, s))
  }

  /** A spelling of a spelling, whose inner one begins where the second pass may begin an escape. */
  ghost predicate SpelledTwiceAt(raw: Text, k: nat, sps2: seq<Spelling>, sps: seq<Spelling>, s: Text) {
    && SpellsAll(sps, s) && AllScalar(Write(sps, s)) && SpelledAt(raw, k, sps2, Write(sps, s))
    && (Unescape(raw).Some? && Before(raw, k).Some? ==> Boundary(Unescape(raw).value, |Decode(Units(Before(raw, k).value))|))
  }

  lemma WriteIsNotEmpty(sps: seq<Spelling>, s: Text)
    requires SpellsAll(sps, s) && s != []
    ensures Write(sps, s) != []
  {
    assert Spells(sps[0], s[0]);
  }

  /** A withheld string a scanned file shows is reported, or the scan raises and reports nothing as clean. */
  lemma ScanIsComplete(raw: Text, s: Text)
    requires AllScalar(s) && s != [] && Shows(raw, s) && Twice(raw).Some?
    ensures FormOf(raw, Twice(raw).value.0, Twice(raw).value.1, s).Some?
  {
    var (once, twice) := Twice(raw).value;
    if Contains(raw, s) {
    } else if k: nat, sps :| SpelledAt(raw, k, sps, s) {
      SpellingsAreUndone(raw, k, sps, s);
      assert Contains(once, s);
    } else {
      var k: nat, sps, sps2 :| SpelledTwiceAt(raw, k, sps2, sps, s);
      WriteIsNotEmpty(sps, s);
      SpellingsAreUndone(raw, k, sps2, Write(sps, s));
      var at := |Decode(Units(Before(raw, k).value))|;
      assert SpelledAt(once, at, sps, s);
      SpellingsAreUndone(once, at, sps, s);
      assert Contains(twice, s);
    }
  }

  /** So a scan that comes to its end has a hit for every listed string a scanned file shows. */
  lemma ShownIsReported(hits: seq<Hit>, files: seq<File>, strings: seq<Text>, k: nat, s: Text)
    requires AllReported(hits, files, strings) && k < |files| && s in strings
    requires IsScanned(files[k]) && !Raises(files[k]) && AllScalar(s) && s != [] && Shows(files[k].text.value, s)
    ensures exists h :: h in hits && h.path == files[k].path && h.found == s
  {
    var raw := files[k].text.value;
    ScanIsComplete(raw, s);
    assert IsReported(files[k], s, hits);
    var form := FormOf(raw, Twice(raw).value.0, Twice(raw).value.1, s);
    assert Hit(files[k].path, s, form.value) in hits;
  }

  // ---------------------------------------------------------------- where the substitution raises

  /** An escape without its digits, or a code point past the last one. */
  ghost predicate BadEscape(t: Text) {
    && |t| >= 2 && t[0] == BS
    && ((BraceDigits(t) > 0 && Number(t[3..3 + BraceDigits(t)]) >= 0x11_0000)
        || (BraceDigits(t) == 0 && !IsFour(t) && !IsTwo(t) && (t[1] == SMALL_U || t[1] == SMALL_X)))
  }

  ghost predicate BadAt(t: Text, k: nat) {
    k <= |t| && Boundary(t, k) && BadEscape(t[k..])
  }

  /** unescape raises exactly on a bad escape at a boundary. */
  lemma {:induction false} RaisesIff(t: Text)
    ensures Unescape(t).None? <==> exists k: nat :: BadAt(t, k)
    decreases |t|
  {
    if t != [] {
      var n := TokenLength(t);
      RaisesIff(t[n..]);
      BadHeadIff(t);
      BadIff(t);
    }
  }

  lemma BadIff(t: Text)
    requires t != []
    ensures (exists k: nat :: BadAt(t, k)) <==> BadAt(t, 0) || exists k: nat :: BadAt(t[TokenLength(t)..], k)
  {
    var n := TokenLength(t);
    var bad, rest := (k: nat) => BadAt(t, k), (k: nat) => BadAt(t[n..], k);
    forall k: nat | k > 0 ensures bad(k) <==> k >= n && rest(k - n) {
      BadLater(t, k);
    }
    ShiftedIff(bad, rest, n);
    forall k: nat ensures bad(k) <==> BadAt(t, k) {}
    forall k: nat ensures rest(k) <==> BadAt(t[n..], k) {}
  }

  lemma ShiftedIff(bad: nat -> bool, rest: nat -> bool, n: nat)
    requires n > 0 && forall k: nat :: k > 0 ==> (bad(k) <==> k >= n && rest(k - n))
    ensures (exists k: nat :: bad(k)) <==> bad(0) || exists k: nat :: rest(k)
  {
    if k: nat :| bad(k) && k > 0 {
      assert rest(k - n);
    }
    if k: nat :| rest(k) {
      assert bad(n + k);
    }
  }

  lemma BadHeadIff(t: Text)
    requires t != []
    ensures BadAt(t, 0) <==> TokenChar(t).None?
  {
    assert t[0..] == t;
  }

  lemma BadLater(t: Text, k: nat)
    requires t != [] && k > 0
    ensures BadAt(t, k) <==> k >= TokenLength(t) && BadAt(t[TokenLength(t)..], k - TokenLength(t))
  {
    var n := TokenLength(t);
    if n <= k <= |t| {
      assert t[n..][k - n..] == t[k..];
    }
  }

  /** A bare escape is enough: no code point in it, and the scan stops. */
  lemma BareEscapeRaises()
    ensures Unescape([BS, SMALL_U]).None?
  {
    var t: Text := [BS, SMALL_U];
    assert TokenChar(t).None?;
  }
}
