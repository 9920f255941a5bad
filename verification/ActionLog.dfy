/**
  * One staff member's action log, read a page at a time: each page names, in its
  * cursor, the last line it showed.
  */
module ActionLog {
  import opened Options
  import opened Numerals

  // ---------------------------------------------------------------- lines and their order

  datatype Source = Audit(id: nat) | Case(uuid: string) | Task(uuid: string)

  /** A line of the log; `at` is its time in microseconds. */
  datatype Row = Row(at: int, source: Source)

  datatype Key = Key(at: int, source: string, k: string)

  const WIDTH := 20
  const LIMIT := 200

  /** SQL's lpad: cut to the width if longer. */
  function LPad(s: string, width: nat): string
    decreases width - |s|
  {
    if |s| >= width then s[..width] else LPad("0" + s, width)
  }

  function SourceName(s: Source): string {
    match s
    case Audit(_) => "audit"
    case Case(_) => "case"
    case Task(_) => "task"
  }

  function KeyOf(r: Row): Key {
    Key(r.at, SourceName(r.source), if r.source.Audit? then LPad(Decimal(r.source.id), WIDTH) else r.source.uuid)
  }

  /** The row comparison (at, source, k) < (at, source, k). */
  predicate Less(a: Key, b: Key) {
    a.at < b.at || (a.at == b.at && (TextLess(a.source, b.source) || (a.source == b.source && TextLess(a.k, b.k))))
  }

  // ---------------------------------------------------------------- the query

  function Insert(r: Row, rows: seq<Row>): seq<Row> {
    if rows == [] || Less(KeyOf(rows[0]), KeyOf(r)) then [r] + rows else [rows[0]] + Insert(r, rows[1..])
  }

  /** ORDER BY at DESC, source DESC, k DESC */
  function Sorted(rows: seq<Row>): seq<Row> {
    if rows == [] then [] else Insert(rows[0], Sorted(rows[1..]))
  }

  /** WHERE there is no cursor or the line's key is below it */
  function Below(rows: seq<Row>, cursor: Option<Key>): seq<Row> {
    if rows == [] then []
    else (if cursor.None? || Less(KeyOf(rows[0]), cursor.value) then [rows[0]] else []) + Below(rows[1..], cursor)
  }

  function Take(rows: seq<Row>, n: nat): seq<Row> {
    if |rows| <= n then rows else rows[..n]
  }

  // ---------------------------------------------------------------- cursors

  /** The base64url of a cursor's JSON, which is read back to the same fields. */
  datatype Token = Token(fields: Key)

  predicate IsKeyChar(c: char) {
    '0' <= c <= '9' || 'a' <= c <= 'f' || c == '-'
  }

  predicate IsKeyText(k: string) {
    1 <= |k| <= 40 && forall i :: 0 <= i < |k| ==> IsKeyChar(k[i])
  }

  function Encode(k: Key): Token {
    Token(k)
  }

  /** decodeCursor: no cursor, a cursor, or a refusal. */
  function Decode(t: Option<Token>): Option<Option<Key>> {
    if t.None? then Some(None)
    else
      var c := t.value.fields;
      if (c.source == "audit" || c.source == "case") && IsKeyText(c.k) then Some(Some(c)) else None
  }

  datatype Page = Page(entries: seq<Row>, next: Option<Token>)

  /** list: one page, or None where the cursor is refused. */
  function List(log: seq<Row>, cursor: Option<Token>): Option<Page> {
    var c := Decode(cursor);
    if c.None? then None
    else
      var rows := Take(Sorted(Below(log, c.value)), LIMIT + 1);
      var page := Take(rows, LIMIT);
      Some(Page(page, if |rows| > LIMIT && page != [] then Some(Encode(KeyOf(page[|page| - 1]))) else None))
  }

  // ---------------------------------------------------------------- the order is total

  lemma Trichotomy(a: Key, b: Key)
    ensures Less(a, b) || a == b || Less(b, a)
    ensures !(Less(a, b) && Less(b, a)) && !Less(a, a)
  {
    TextTrichotomy(a.source, b.source);
    TextTrichotomy(a.k, b.k);
    TextTrichotomy(a.source, a.source);
    TextTrichotomy(a.k, a.k);
  }

  lemma Transitive(a: Key, b: Key, c: Key)
    requires Less(a, b) && Less(b, c)
    ensures Less(a, c)
  {
    if TextLess(a.source, b.source) && TextLess(b.source, c.source) {
      TextTransitive(a.source, b.source, c.source);
    }
    if TextLess(a.k, b.k) && TextLess(b.k, c.k) {
      TextTransitive(a.k, b.k, c.k);
    }
  }

  // ---------------------------------------------------------------- zero-padded text order is numeric order

  lemma {:induction false} PadZeros(s: string, width: nat)
    requires |s| <= width
    ensures LPad(s, width) == seq(width - |s|, _ => '0') + s
    decreases width - |s|
  {
    if |s| < width {
      PadZeros("0" + s, width);
      assert seq(width - |s|, _ => '0') + s == seq(width - |s| - 1, _ => '0') + ("0" + s);
    } else {
      assert s[..width] == s;
    }
  }

  lemma {:induction false} FixedIsZerosAndDecimal(n: nat, width: nat)
    requires n < Power(width) && width > 0
    ensures |Decimal(n)| <= width && Fixed(n, width) == seq(width - |Decimal(n)|, _ => '0') + Decimal(n)
    decreases width
  {
    if n < 10 {
      ZeroIsZeros(width - 1);
      assert Fixed(n, width) == Fixed(0, width - 1) + [DigitChar(n)];
    } else {
      assert width > 1;
      FixedIsZerosAndDecimal(n / 10, width - 1);
      assert Fixed(n, width) == seq(width - |Decimal(n)|, _ => '0') + Decimal(n / 10) + [DigitChar(n % 10)];
    }
  }

  lemma {:induction false} ZeroIsZeros(width: nat)
    ensures Fixed(0, width) == seq(width, _ => '0')
  {
    if width > 0 {
      ZeroIsZeros(width - 1);
    }
  }

  /** An audit line's key text orders as its number does, and names it. */
  lemma PaddedOrderIsNumeric(m: nat, n: nat)
    requires m < Power(WIDTH) && n < Power(WIDTH)
    ensures TextLess(LPad(Decimal(m), WIDTH), LPad(Decimal(n), WIDTH)) <==> m < n
    ensures LPad(Decimal(m), WIDTH) == LPad(Decimal(n), WIDTH) <==> m == n
    ensures IsKeyText(LPad(Decimal(m), WIDTH))
  {
    FixedIsZerosAndDecimal(m, WIDTH);
    FixedIsZerosAndDecimal(n, WIDTH);
    PadZeros(Decimal(m), WIDTH);
    PadZeros(Decimal(n), WIDTH);
    FixedOrder(m, n, WIDTH);
    FixedIsDigits(m, WIDTH);
  }
}
