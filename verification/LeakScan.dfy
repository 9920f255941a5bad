/**
  * The scan of a built bundle for text that must not ship. JS source may spell a
  * string in many ways; `Unescape` undoes one level of them over a whole file.
  */
module LeakScan {
  import opened Options

  /** A Unicode code point, surrogates included. */
  type Cp = c: int | 0 <= c < 0x11_0000
  type Text = seq<Cp>

  const BS: Cp := 92
  const SMALL_U: Cp := 117
  const SMALL_X: Cp := 120
  const OPEN: Cp := 123
  const SHUT: Cp := 125
  const REPLACEMENT: Cp := 0xFFFD

  // ---------------------------------------------------------------- UTF-16

  predicate IsHigh(c: Cp) { 0xD800 <= c < 0xDC00 }
  predicate IsLow(c: Cp) { 0xDC00 <= c < 0xE000 }
  predicate IsScalar(c: Cp) { !IsHigh(c) && !IsLow(c) }

  predicate AllScalar(t: Text) {
    forall k :: 0 <= k < |t| ==> IsScalar(t[k])
  }

  /** Section 2.1 of RFC 2781; a lone surrogate passes as it is. */
  function UnitsOf(c: Cp): Text {
    if c < 0x1_0000 then [c] else [0xD800 + (c - 0x1_0000) / 0x400, 0xDC00 + (c - 0x1_0000) % 0x400]
  }

  function Units(t: Text): Text {
    if t == [] then [] else UnitsOf(t[0]) + Units(t[1..])
  }

  /** Section 2.2 of RFC 2781; a lone surrogate is replaced. */
  function Decode(units: Text): Text {
    if units == [] then []
    else [FirstChar(units)] + Decode(units[if StartsPair(units) then 2 else 1..])
  }

  predicate StartsPair(units: Text) {
    |units| > 1 && IsHigh(units[0]) && IsLow(units[1])
  }

  function FirstChar(units: Text): Cp
    requires units != []
  {
    if StartsPair(units) then 0x1_0000 + (units[0] - 0xD800) * 0x400 + (units[1] - 0xDC00)
    else if IsScalar(units[0]) then units[0]
    else REPLACEMENT
  }

  // ---------------------------------------------------------------- hexadecimal

  predicate IsHex(c: Cp) { 48 <= c <= 57 || 97 <= c <= 102 || 65 <= c <= 70 }

  function DigitValue(c: Cp): int
    requires IsHex(c)
  {
    if c <= 57 then c - 48 else if c >= 97 then c - 87 else c - 55
  }

  predicate AllHex(t: Text) {
    forall k :: 0 <= k < |t| ==> IsHex(t[k])
  }

  function Number(digits: Text): (n: nat)
    requires AllHex(digits)
  {
    if digits == [] then 0 else Number(digits[..|digits| - 1]) * 16 + DigitValue(digits[|digits| - 1])
  }

  function Digit(v: int, upper: bool): Cp
    requires 0 <= v < 16
  {
    if v < 10 then 48 + v else if upper then 55 + v else 87 + v
  }

  /** Four digits, leading zeros kept. */
  function Four(u: int, upper: bool): (d: Text)
    requires 0 <= u < 0x1_0000
    ensures |d| == 4 && AllHex(d)
  {
    var (u1, u2, u3) := (u / 16, u / 16 / 16, u / 16 / 16 / 16);
    [Digit(u3, upper), Digit(u2 % 16, upper), Digit(u1 % 16, upper), Digit(u % 16, upper)]
  }

  // ---------------------------------------------------------------- unescape

  /** How many digits a `\u{...}` at the head of `t` has; 0 when it is none. */
  function BraceDigits(t: Text): nat {
    if |t| < 5 || t[0] != BS || t[1] != SMALL_U || t[2] != OPEN then 0
    else
      var n := HexRun(t[3..], 6);
      if n > 0 && 3 + n < |t| && t[3 + n] == SHUT then n else 0
  }

  /** The hex digits at the head of `t`, up to `most` of them. */
  function HexRun(t: Text, most: nat): (n: nat)
    ensures n <= |t| && n <= most && AllHex(t[..n])
    ensures n == most || n == |t| || !IsHex(t[n])
    decreases most
  {
    if most == 0 || t == [] || !IsHex(t[0]) then 0 else 1 + HexRun(t[1..], most - 1)
  }

  predicate IsFour(t: Text) {
    |t| >= 6 && t[0] == BS && t[1] == SMALL_U && AllHex(t[2..6])
  }

  predicate IsTwo(t: Text) {
    |t| >= 4 && t[0] == BS && t[1] == SMALL_X && AllHex(t[2..4])
  }

  /** The pattern's own order: braces, four digits, two digits, any one character. */
  function TokenLength(t: Text): (n: nat)
    requires t != []
    ensures 0 < n <= |t|
  {
    if t[0] != BS || |t| == 1 then 1
    else if BraceDigits(t) > 0 then 4 + BraceDigits(t)
    else if IsFour(t) then 6
    else if IsTwo(t) then 4
    else 2
  }

  /** \n \t \r \b \f \v \0; any other escaped character is itself. */
  function SimpleChar(e: Cp): Cp {
    if e == 110 then 10 else if e == 116 then 9 else if e == 114 then 13 else if e == 98 then 8
    else if e == 102 then 12 else if e == 118 then 11 else if e == 48 then 0 else e
  }

  /** What the head token stands for; None where the substitution raises. */
  function TokenChar(t: Text): Option<Cp>
    requires t != []
  {
    if t[0] != BS || |t| == 1 then Some(t[0])
    else if BraceDigits(t) > 0 then
      var n := Number(t[3..3 + BraceDigits(t)]);
      if n < 0x11_0000 then Some(n) else None
    else if IsFour(t) then FourChar(t[2..6])
    else if IsTwo(t) then FourChar(t[2..4])
    else if t[1] == SMALL_U || t[1] == SMALL_X then None
    else Some(SimpleChar(t[1]))
  }

  function FourChar(digits: Text): Option<Cp>
    requires |digits| <= 4 && AllHex(digits)
  {
    NumberIsSmall(digits);
    Some(Number(digits))
  }

  lemma {:induction false} NumberIsSmall(digits: Text)
    requires |digits| <= 4 && AllHex(digits)
    ensures Number(digits) < 0x1_0000
    ensures |digits| <= 3 ==> Number(digits) < 0x1000
    ensures |digits| <= 2 ==> Number(digits) < 0x100
    ensures |digits| <= 1 ==> Number(digits) < 0x10
  {
    if digits != [] {
      NumberIsSmall(digits[..|digits| - 1]);
    }
  }

  /** re.sub over the whole text. */
  function Substituted(t: Text): Option<Text>
    decreases |t|
  {
    if t == [] then Some([])
    else
      var rest := Substituted(t[TokenLength(t)..]);
      if TokenChar(t).None? || rest.None? then None else Some([TokenChar(t).value] + rest.value)
  }

  function Unescape(t: Text): Option<Text> {
    var out := Substituted(t);
    if out.None? then None else Some(Decode(Units(out.value)))
  }

  // ---------------------------------------------------------------- escaped

  function EscapedUnits(units: Text, upper: bool): Text
    requires forall k :: 0 <= k < |units| ==> units[k] < 0x1_0000
  {
    if units == [] then [] else [BS, SMALL_U] + Four(units[0], upper) + EscapedUnits(units[1..], upper)
  }

  function EscapedChar(c: Cp, upper: bool): Text {
    if c < 128 then [c] else EscapedUnits(UnitsOf(c), upper)
  }

  function Escaped(s: Text, upper: bool): Text {
    if s == [] then [] else EscapedChar(s[0], upper) + Escaped(s[1..], upper)
  }

  lemma {:induction false} EscapedAppend(s: Text, c: Cp, upper: bool)
    ensures Escaped(s + [c], upper) == Escaped(s, upper) + EscapedChar(c, upper)
  {
    if s == [] {
      assert [c][1..] == [];
    } else {
      assert (s + [c])[1..] == s[1..] + [c];
      EscapedAppend(s[1..], c, upper);
    }
  }

  /** escaped */
  method Escape(s: Text, upper: bool) returns (out: Text)
    ensures out == Escaped(s, upper)
  {
    out := [];
    for k := 0 to |s|
      invariant out == Escaped(s[..k], upper)
    {
      assert s[..k + 1] == s[..k] + [s[k]];
      EscapedAppend(s[..k], s[k], upper);
      if s[k] < 128 {
        out := out + [s[k]];
      } else {
        var units := if s[k] < 0x1_0000 then [s[k]] else [0xD800 + (s[k] - 0x1_0000) / 0x400, 0xDC00 + (s[k] - 0x1_0000) % 0x400];
        out := out + EscapedUnits(units, upper);
      }
    }
    assert s[..|s|] == s;
  }

  // ---------------------------------------------------------------- scan

  datatype File = File(path: nat, isQuran: bool, text: Option<Text>)

  datatype Form = AsIs | AsEscaped | AfterUnescaping

  datatype Hit = Hit(path: nat, found: Text, form: Form)

  predicate Contains(t: Text, s: Text) {
    exists k | 0 <= k <= |t| - |s| :: StandsAt(t, s, k)
  }

  predicate StandsAt(t: Text, s: Text, k: nat) {
    k + |s| <= |t| && t[k..k + |s|] == s
  }

  /** How one file shows one string, if it does. */
  function FormOf(raw: Text, once: Text, twice: Text, s: Text): Option<Form> {
    if Contains(raw, s) then Some(AsIs)
    else if (Escaped(s, false) != s && Contains(raw, Escaped(s, false))) || (Escaped(s, true) != s && Contains(raw, Escaped(s, true))) then
      Some(AsEscaped)
    else if Contains(once, s) || Contains(twice, s) then Some(AfterUnescaping)
    else None
  }

  function Twice(t: Text): Option<(Text, Text)> {
    var once := Unescape(t);
    if once.None? then None
    else
      var twice := Unescape(once.value);
      if twice.None? then None else Some((once.value, twice.value))
  }

  /** Not looked at: the Quran snapshot, and files that are not UTF-8 text. */
  predicate IsScanned(f: File) {
    !f.isQuran && f.text.Some?
  }

  predicate Raises(f: File) {
    IsScanned(f) && Twice(f.text.value).None?
  }

  /** What a hit says of its file. */
  ghost predicate IsHitOf(h: Hit, f: File) {
    && IsScanned(f) && Twice(f.text.value).Some? && h.path == f.path
    && FormOf(f.text.value, Twice(f.text.value).value.0, Twice(f.text.value).value.1, h.found) == Some(h.form)
  }

  ghost predicate IsReported(f: File, s: Text, hits: seq<Hit>) {
    IsScanned(f) && Twice(f.text.value).Some? ==>
      var form := FormOf(f.text.value, Twice(f.text.value).value.0, Twice(f.text.value).value.1, s);
      form.Some? ==> Hit(f.path, s, form.value) in hits
  }

  /** Every hit is one of a scanned file and a listed string. */
  ghost predicate AllTrue(hits: seq<Hit>, files: seq<File>, strings: seq<Text>) {
    forall h | h in hits :: h.found in strings && IsHitIn(h, files)
  }

  ghost predicate IsHitIn(h: Hit, files: seq<File>) {
    exists k | 0 <= k < |files| :: IsHitOf(h, files[k])
  }

  /** Every listed string a scanned file shows is a hit. */
  ghost predicate AllReported(hits: seq<Hit>, files: seq<File>, strings: seq<Text>) {
    forall k, s | 0 <= k < |files| && s in strings :: IsReported(files[k], s, hits)
  }

  lemma MoreHits(found: seq<Hit>, files: seq<File>, f: File, more: seq<Hit>, strings: seq<Text>)
    requires AllTrue(found, files, strings) && AllReported(found, files, strings)
    requires IsScanned(f) ==> OneFileSoFar(more, f, strings)
    requires !IsScanned(f) ==> more == []
    ensures AllTrue(found + more, files + [f], strings) && AllReported(found + more, files + [f], strings)
  {
    var files1 := files + [f];
    forall h | h in found + more ensures h.found in strings && IsHitIn(h, files1) {
      if h in found {
        var k :| 0 <= k < |files| && IsHitOf(h, files[k]);
        assert files1[k] == files[k];
      } else {
        assert files1[|files|] == f;
      }
    }
    forall k, s | 0 <= k < |files1| && s in strings ensures IsReported(files1[k], s, found + more) {
      if k < |files| {
        assert IsReported(files[k], s, found);
      }
    }
  }

  /** scan over the files in the order walked; None where it raises. */
  method Scan(files: seq<File>, strings: seq<Text>) returns (hits: Option<seq<Hit>>)
    ensures hits.None? <==> exists k | 0 <= k < |files| :: Raises(files[k])
    ensures hits.Some? ==> AllTrue(hits.value, files, strings) && AllReported(hits.value, files, strings)
  {
    var found: seq<Hit> := [];
    for k := 0 to |files|
      invariant forall j :: 0 <= j < k ==> !Raises(files[j])
      invariant AllTrue(found, files[..k], strings) && AllReported(found, files[..k], strings)
    {
      var more := [];
      if IsScanned(files[k]) {
        var both := Twice(files[k].text.value);
        if both.None? {
          assert Raises(files[k]);
          return None;
        }
        more := ScanOne(files[k], both.value.0, both.value.1, strings);
      }
      MoreHits(found, files[..k], files[k], more, strings);
      assert files[..k + 1] == files[..k] + [files[k]];
      found := found + more;
    }
    assert files[..|files|] == files;
    hits := Some(found);
  }

  ghost predicate OneFileSoFar(hits: seq<Hit>, f: File, done: seq<Text>) {
    && (forall h | h in hits :: h.found in done && IsHitOf(h, f))
    && (forall s | s in done :: IsReported(f, s, hits))
  }

  lemma OneMoreString(hits: seq<Hit>, f: File, done: seq<Text>, s: Text, form: Option<Form>)
    requires OneFileSoFar(hits, f, done) && IsScanned(f) && Twice(f.text.value).Some?
    requires form == FormOf(f.text.value, Twice(f.text.value).value.0, Twice(f.text.value).value.1, s)
    ensures OneFileSoFar(if form.Some? then hits + [Hit(f.path, s, form.value)] else hits, f, done + [s])
  {
    var hits1 := if form.Some? then hits + [Hit(f.path, s, form.value)] else hits;
    forall r | r in done + [s] ensures IsReported(f, r, hits1) {
      assert r in done ==> IsReported(f, r, hits);
    }
  }

  method ScanOne(f: File, once: Text, twice: Text, strings: seq<Text>) returns (hits: seq<Hit>)
    requires IsScanned(f) && Twice(f.text.value) == Some((once, twice))
    ensures OneFileSoFar(hits, f, strings)
  {
    hits := [];
    for k := 0 to |strings|
      invariant OneFileSoFar(hits, f, strings[..k])
    {
      var form := ShownAs(f.text.value, once, twice, strings[k]);
      OneMoreString(hits, f, strings[..k], strings[k], form);
      assert strings[..k + 1] == strings[..k] + [strings[k]];
      if form.Some? {
        hits := hits + [Hit(f.path, strings[k], form.value)];
      }
    }
    assert strings[..|strings|] == strings;
  }

  method ShownAs(raw: Text, once: Text, twice: Text, s: Text) returns (form: Option<Form>)
    ensures form == FormOf(raw, once, twice, s)
  {
    var lower := Escape(s, false);
    var upper := Escape(s, true);
    if Contains(raw, s) {
      return Some(AsIs);
    } else if (lower != s && Contains(raw, lower)) || (upper != s && Contains(raw, upper)) {
      return Some(AsEscaped);
    } else if Contains(once, s) || Contains(twice, s) {
      return Some(AfterUnescaping);
    }
    return None;
  }
}
