/**
  * The verified rows are printed as a COPY block and read back by PostgreSQL. The
  * reader here follows COPY's text format for the escapes a printed field can hold.
  */
module QuranCopy {
  import opened Options
  import opened Numerals
  import opened QuranLoad

  // ---------------------------------------------------------------- printing

  /** str.replace of one character. */
  function Replaced(s: string, c: char, text: string): string {
    if s == "" then "" else (if s[0] == c then text else [s[0]]) + Replaced(s[1..], c, text)
  }

  /** _copy: four replacements, one after the other. */
  function CopyText(value: string): string {
    Replaced(Replaced(Replaced(Replaced(value, '\\', "\\\\"), '\t', "\\t"), '\n', "\\n"), '\r', "\\r")
  }

  function CopyChar(c: char): string {
    if c == '\\' then "\\\\" else if c == '\t' then "\\t" else if c == '\n' then "\\n" else if c == '\r' then "\\r" else [c]
  }

  /** Each character's own escape. */
  function CopyEach(value: string): string {
    if value == "" then "" else CopyChar(value[0]) + CopyEach(value[1..])
  }

  function CopyLine(r: Row): string {
    Decimal(r.surah) + "\t" + Decimal(r.ayah) + "\t" + CopyText(r.text)
  }

  function CopyLines(rows: seq<Row>): seq<string> {
    seq(|rows|, k requires 0 <= k < |rows| => CopyLine(rows[k]))
  }

  /** sql: the lines before the data, the data, its end and the lines after it. */
  method Sql(header: seq<string>, rows: seq<Row>, trailer: seq<string>) returns (text: string)
    ensures text == Join(header + CopyLines(rows) + ["\\."] + trailer, "\n") + "\n"
  {
    var out := header;
    for k := 0 to |rows|
      invariant out == header + CopyLines(rows[..k])
    {
      assert CopyLines(rows[..k + 1]) == CopyLines(rows[..k]) + [CopyLine(rows[k])];
      out := out + [CopyLine(rows[k])];
    }
    assert rows[..|rows|] == rows;
    out := out + ["\\."] + trailer;
    text := Join(out, "\n") + "\n";
  }

  // ---------------------------------------------------------------- reading

  /** Where the first `c` stands that no backslash escapes. */
  function FirstBare(s: string, c: char): (k: nat)
    ensures k <= |s|
    decreases |s|
  {
    if s == "" || s[0] == c then 0
    else if s[0] == '\\' && |s| > 1 then 2 + FirstBare(s[2..], c)
    else 1 + FirstBare(s[1..], c)
  }

  function FieldsOf(line: string): seq<string>
    decreases |line|
  {
    var k := FirstBare(line, '\t');
    if k == |line| then [line] else [line[..k]] + FieldsOf(line[k + 1..])
  }

  function EscapeMeans(c: char): char {
    if c == 't' then '\t' else if c == 'n' then '\n' else if c == 'r' then '\r'
    else if c == 'b' then '\U{08}' else if c == 'f' then '\U{0C}' else if c == 'v' then '\U{0B}'
    else c
  }

  function Unescaped(field: string): string
    decreases |field|
  {
    if field == "" then ""
    else if field[0] == '\\' && |field| > 1 then [EscapeMeans(field[1])] + Unescaped(field[2..])
    else [field[0]] + Unescaped(field[1..])
  }

  const SMALLINT_MAX := 32767

  predicate IsSmallint(field: string) {
    AllDigits(field) && Number(field) <= SMALLINT_MAX
  }

  /** A field `\N` alone is NULL, which the third column does not hold here. */
  function ReadLine(line: string): Option<Row> {
    var f := FieldsOf(line);
    if |f| == 3 && IsSmallint(f[0]) && IsSmallint(f[1]) && f[2] != "\\N"
    then Some(Row(Number(f[0]), Number(f[1]), Unescaped(f[2])))
    else None
  }

  /** The rows up to the line `\.`, and what follows it. */
  function ReadRows(stream: string): Option<(seq<Row>, string)>
    decreases |stream|
  {
    var k := FirstBare(stream, '\n');
    if k == |stream| then None
    else if stream[..k] == "\\." then Some(([], stream[k + 1..]))
    else
      var row := ReadLine(stream[..k]);
      var rest := ReadRows(stream[k + 1..]);
      if row.None? || rest.None? then None else Some(([row.value] + rest.value.0, rest.value.1))
  }

  // ---------------------------------------------------------------- four replacements are one escape

  lemma {:induction false} ReplacedAppend(a: string, b: string, c: char, text: string)
    ensures Replaced(a + b, c, text) == Replaced(a, c, text) + Replaced(b, c, text)
    decreases |a|
  {
    if a == "" {
      assert a + b == b;
    } else {
      assert (a + b)[1..] == a[1..] + b;
      ReplacedAppend(a[1..], b, c, text);
    }
  }

  lemma ReplacedOne(x: char, c: char, text: string)
    ensures Replaced([x], c, text) == if x == c then text else [x]
  {
    assert [x][1..] == "";
  }

  lemma ReplacedTwo(x: char, y: char, c: char, text: string)
    requires x != c && y != c
    ensures Replaced([x, y], c, text) == [x, y]
  {
    assert [x, y][1..] == [y];
    ReplacedOne(y, c, text);
  }

  lemma {:induction false} FourAreOne(value: string)
    ensures CopyText(value) == CopyEach(value)
  {
    if value != "" {
      var x, rest := value[0], value[1..];
      FourAreOne(rest);
      assert value == [x] + rest;
      var r1 := Replaced(rest, '\\', "\\\\");
      var r2 := Replaced(r1, '\t', "\\t");
      var r3 := Replaced(r2, '\n', "\\n");
      var (x1, x2, x3) := FirstThree(x);
      ReplacedAppend([x], rest, '\\', "\\\\");
      ReplacedAppend(x1, r1, '\t', "\\t");
      ReplacedAppend(x2, r2, '\n', "\\n");
      ReplacedAppend(x3, r3, '\r', "\\r");
      OneCharacter(x);
    }
  }

  /** The four characters escaped, by their codes: a backslash and one more, which the reader takes for them again. */
  lemma EscapesAre(c: char)
    ensures CopyText([c]) == (if c as int == 92 then [92 as char, 92 as char] else if c as int == 9 then [92 as char, 116 as char]
                              else if c as int == 10 then [92 as char, 110 as char] else if c as int == 13 then [92 as char, 114 as char] else [c])
    ensures EscapeMeans(116 as char) as int == 9 && EscapeMeans(110 as char) as int == 10 && EscapeMeans(114 as char) as int == 13 && EscapeMeans(92 as char) as int == 92
  {
    FourAreOne([c]);
    assert [c][1..] == "";
  }

  /** A line is the two numbers and the text, with a tab between each two. */
  lemma LineIs(r: Row)
    ensures CopyLine(r) == Decimal(r.surah) + [9 as char] + Decimal(r.ayah) + [9 as char] + CopyEach(r.text)
  {
    FourAreOne(r.text);
  }

  function FirstThree(x: char): (string, string, string) {
    var x1 := Replaced([x], '\\', "\\\\");
    var x2 := Replaced(x1, '\t', "\\t");
    (x1, x2, Replaced(x2, '\n', "\\n"))
  }

  lemma OneCharacter(x: char)
    ensures Replaced(FirstThree(x).2, '\r', "\\r") == CopyChar(x)
  {
    ReplacedOne(x, '\\', "\\\\");
    if x == '\\' {
      ReplacedTwo('\\', '\\', '\t', "\\t");
      ReplacedTwo('\\', '\\', '\n', "\\n");
      ReplacedTwo('\\', '\\', '\r', "\\r");
    } else {
      ReplacedOne(x, '\t', "\\t");
      if x == '\t' {
        ReplacedTwo('\\', 't', '\n', "\\n");
        ReplacedTwo('\\', 't', '\r', "\\r");
      } else {
        ReplacedOne(x, '\n', "\\n");
        if x == '\n' {
          ReplacedTwo('\\', 'n', '\r', "\\r");
        } else {
          ReplacedOne(x, '\r', "\\r");
        }
      }
    }
  }

  /** No raw tab, newline or carriage return is printed. */
  lemma {:induction false} NothingRaw(value: string)
    ensures '\t' !in CopyEach(value) && '\n' !in CopyEach(value) && '\r' !in CopyEach(value)
  {
    if value != "" {
      NothingRaw(value[1..]);
    }
  }

  lemma {:induction false} UnescapedCopy(value: string)
    ensures Unescaped(CopyEach(value)) == value
  {
    if value != "" {
      var rest := CopyEach(value[1..]);
      UnescapedCopy(value[1..]);
      var s := CopyChar(value[0]) + rest;
      assert value == [value[0]] + value[1..];
      if |CopyChar(value[0])| == 2 {
        assert s[2..] == rest;
      } else {
        assert s[1..] == rest;
      }
    }
  }

  /** Reading undoes printing, so no two texts are printed alike. */
  lemma CopyIsUndone(value: string)
    ensures Unescaped(CopyText(value)) == value
    ensures '\t' !in CopyText(value) && '\n' !in CopyText(value) && '\r' !in CopyText(value)
  {
    FourAreOne(value);
    UnescapedCopy(value);
    NothingRaw(value);
  }

  lemma CopyIsInjective(a: string, b: string)
    requires CopyText(a) == CopyText(b)
    ensures a == b
  {
    CopyIsUndone(a);
    CopyIsUndone(b);
  }

  // ---------------------------------------------------------------- fields and lines

  /** No backslash of `s` escapes what comes after it. */
  ghost predicate Closed(s: string)
    decreases |s|
  {
    s == "" || (if s[0] == '\\' then |s| > 1 && Closed(s[2..]) else Closed(s[1..]))
  }

  lemma {:induction false} ClosedAppend(a: string, b: string)
    requires Closed(a) && Closed(b)
    ensures Closed(a + b)
    decreases |a|
  {
    if a == "" {
      assert a + b == b;
    } else {
      var n := if a[0] == '\\' then 2 else 1;
      assert (a + b)[n..] == a[n..] + b;
      ClosedAppend(a[n..], b);
    }
  }

  lemma {:induction false} CopyIsClosed(value: string)
    ensures Closed(CopyEach(value))
  {
    if value != "" {
      CopyIsClosed(value[1..]);
      var p := CopyChar(value[0]);
      assert p[|p|..] == "";
      ClosedAppend(p, CopyEach(value[1..]));
    }
  }

  lemma {:induction false} PlainIsClosed(s: string)
    requires '\\' !in s
    ensures Closed(s)
  {
    if s != "" {
      PlainIsClosed(s[1..]);
    }
  }

  /** A separator after closed text without it is the first bare one. */
  lemma {:induction false} BareAfter(a: string, c: char, b: string)
    requires Closed(a) && c !in a && c != '\\'
    ensures FirstBare(a + [c] + b, c) == |a|
    decreases |a|
  {
    var s := a + [c] + b;
    if a != "" {
      var n := if a[0] == '\\' then 2 else 1;
      assert s[n..] == a[n..] + [c] + b;
      BareAfter(a[n..], c, b);
    }
  }

  lemma {:induction false} NoneBare(a: string, c: char)
    requires c !in a
    ensures FirstBare(a, c) == |a|
    decreases |a|
  {
    if a != "" {
      NoneBare(a[if a[0] == '\\' && |a| > 1 then 2 else 1..], c);
    }
  }

  lemma FieldsOfThree(a: string, b: string, c: string)
    requires Closed(a) && Closed(b) && '\t' !in a && '\t' !in b && '\t' !in c
    ensures FieldsOf(a + "\t" + b + "\t" + c) == [a, b, c]
  {
    var tail := b + "\t" + c;
    assert FieldsOf(c) == [c] by {
      NoneBare(c, '\t');
    }
    FieldsCons(b, c);
    FieldsCons(a, tail);
    assert a + "\t" + b + "\t" + c == a + "\t" + tail;
    assert [a] + ([b] + [c]) == [a, b, c];
  }

  lemma FieldsCons(a: string, tail: string)
    requires Closed(a) && '\t' !in a
    ensures FieldsOf(a + "\t" + tail) == [a] + FieldsOf(tail)
  {
    var line := a + "\t" + tail;
    BareAfter(a, '\t', tail);
    assert line[..|a|] == a && line[|a| + 1..] == tail;
  }

  lemma NumberText(n: nat)
    ensures var s := Decimal(n); AllDigits(s) && Number(s) == n && Closed(s) && '\t' !in s && '\n' !in s && '\\' !in s
  {
    DecimalReads(n);
    var s := Decimal(n);
    assert forall k :: 0 <= k < |s| ==> IsDigit(s[k]);
    assert '\t' !in s && '\n' !in s && '\\' !in s;
    PlainIsClosed(s);
  }

  lemma CopyIsNotNull(value: string)
    ensures CopyText(value) != "\\N"
  {
    FourAreOne(value);
    if value != "" {
      var p := CopyChar(value[0]);
      assert CopyEach(value)[..|p|] == p;
      assert p[0] == '\\' ==> CopyEach(value)[1] == p[1] != 'N';
    }
  }

  /** One printed line reads back as its row, and ends where it was printed to end. */
  lemma LineReadsBack(r: Row, rest: string)
    requires r.surah <= SMALLINT_MAX && r.ayah <= SMALLINT_MAX
    ensures ReadLine(CopyLine(r)) == Some(r)
    ensures FirstBare(CopyLine(r) + "\n" + rest, '\n') == |CopyLine(r)| && CopyLine(r) != "\\."
  {
    var a, b, c := Decimal(r.surah), Decimal(r.ayah), CopyText(r.text);
    NumberText(r.surah);
    NumberText(r.ayah);
    CopyIsUndone(r.text);
    CopyIsNotNull(r.text);
    FieldsOfThree(a, b, c);
    LineIsClosed(a, b, c, r.text);
    var line := CopyLine(r);
    assert line[0] == a[0];
    BareAfter(line, '\n', rest);
  }

  lemma LineIsClosed(a: string, b: string, c: string, text: string)
    requires Closed(a) && Closed(b) && c == CopyText(text) && '\n' !in a && '\n' !in b
    ensures Closed(a + "\t" + b + "\t" + c) && '\n' !in a + "\t" + b + "\t" + c
  {
    CopyIsUndone(text);
    FourAreOne(text);
    CopyIsClosed(text);
    JoinedIsClosed(a, b, c);
    NotInThree('\n', a, b, c);
  }

  lemma NotInThree(x: char, a: string, b: string, c: string)
    requires x !in a && x !in b && x !in c && x != '\t'
    ensures x !in a + "\t" + b + "\t" + c
  {
  }

  lemma JoinedIsClosed(a: string, b: string, c: string)
    requires Closed(a) && Closed(b) && Closed(c)
    ensures Closed(a + "\t" + b + "\t" + c)
  {
    PlainIsClosed("\t");
    ClosedAppend("\t", c);
    FieldIsClosed(b, "\t" + c);
    FieldIsClosed(a, "\t" + b + ("\t" + c));
    assert a + "\t" + b + "\t" + c == a + ("\t" + b + ("\t" + c));
  }

  lemma FieldIsClosed(a: string, tail: string)
    requires Closed(a) && Closed(tail)
    ensures Closed("\t" + a + tail) && Closed(a + tail)
  {
    PlainIsClosed("\t");
    ClosedAppend(a, tail);
    ClosedAppend("\t", a + tail);
    assert "\t" + a + tail == "\t" + (a + tail);
  }

  // ---------------------------------------------------------------- the block

  function Printed(lines: seq<string>): string {
    if lines == [] then "" else lines[0] + "\n" + Printed(lines[1..])
  }

  lemma {:induction false} JoinIsPrinted(lines: seq<string>)
    requires lines != []
    ensures Join(lines, "\n") + "\n" == Printed(lines)
    decreases |lines|
  {
    if |lines| > 1 {
      JoinIsPrinted(lines[1..]);
    }
  }

  lemma {:induction false} PrintedAppend(a: seq<string>, b: seq<string>)
    ensures Printed(a + b) == Printed(a) + Printed(b)
    decreases |a|
  {
    if a == [] {
      assert a + b == b;
    } else {
      assert (a + b)[1..] == a[1..] + b;
      PrintedAppend(a[1..], b);
    }
  }

  /** The data, its end and what follows it. */
  function Block(rows: seq<Row>, rest: string): string {
    Printed(CopyLines(rows)) + "\\.\n" + rest
  }

  lemma BlockCons(rows: seq<Row>, rest: string)
    requires rows != []
    ensures Block(rows, rest) == CopyLine(rows[0]) + "\n" + Block(rows[1..], rest)
  {
    assert CopyLines(rows)[1..] == CopyLines(rows[1..]);
  }

  ghost predicate AreSmall(rows: seq<Row>) {
    forall k :: 0 <= k < |rows| ==> rows[k].surah <= SMALLINT_MAX && rows[k].ayah <= SMALLINT_MAX
  }

  lemma {:induction false} BlockReadsBack(rows: seq<Row>, rest: string)
    requires AreSmall(rows)
    ensures ReadRows(Block(rows, rest)) == Some((rows, rest))
    decreases |rows|
  {
    if rows == [] {
      EndReads(rest);
      assert Block(rows, rest) == "\\.\n" + rest;
    } else {
      BlockReadsBack(rows[1..], rest);
      LineReadsBack(rows[0], Block(rows[1..], rest));
      OneRowMore(rows, rest);
    }
  }

  lemma OneRowMore(rows: seq<Row>, rest: string)
    requires rows != [] && ReadRows(Block(rows[1..], rest)) == Some((rows[1..], rest))
    requires ReadLine(CopyLine(rows[0])) == Some(rows[0]) && CopyLine(rows[0]) != "\\."
    requires FirstBare(CopyLine(rows[0]) + "\n" + Block(rows[1..], rest), '\n') == |CopyLine(rows[0])|
    ensures ReadRows(Block(rows, rest)) == Some((rows, rest))
  {
    BlockCons(rows, rest);
    HeadAndTail(rows);
    RowReads(Block(rows, rest), CopyLine(rows[0]), rows[0], Block(rows[1..], rest), rows[1..], rows, rest);
  }

  lemma HeadAndTail(rows: seq<Row>)
    requires rows != []
    ensures rows == [rows[0]] + rows[1..]
  {
  }

  lemma EndReads(rest: string)
    ensures ReadRows("\\.\n" + rest) == Some(([], rest))
  {
    var stream := "\\.\n" + rest;
    assert stream[2..] == "\n" + rest;
    assert FirstBare(stream, '\n') == 2;
    assert stream[..2] == "\\." && stream[3..] == rest;
  }

  lemma RowReads(stream: string, line: string, row: Row, more: string, rows: seq<Row>, all: seq<Row>, rest: string)
    requires stream == line + "\n" + more && all == [row] + rows
    requires ReadLine(line) == Some(row) && line != "\\." && FirstBare(stream, '\n') == |line|
    requires ReadRows(more) == Some((rows, rest))
    ensures ReadRows(stream) == Some((all, rest))
  {
    assert stream[..|line|] == line && stream[|line| + 1..] == more;
  }

  /** The printed script, from its data on, reads back as exactly the rows, and the rest is untouched. */
  lemma SqlReadsBack(header: seq<string>, rows: seq<Row>, trailer: seq<string>)
    requires AreSmall(rows)
    ensures var text := Join(header + CopyLines(rows) + ["\\."] + trailer, "\n") + "\n";
            && |text| >= |Printed(header)| && text[..|Printed(header)|] == Printed(header)
            && ReadRows(text[|Printed(header)|..]) == Some((rows, Printed(trailer)))
  {
    SqlIsABlock(header, CopyLines(rows), trailer);
    BlockReadsBack(rows, Printed(trailer));
    AfterHeader(Join(header + CopyLines(rows) + ["\\."] + trailer, "\n") + "\n", Printed(header), Block(rows, Printed(trailer)));
  }

  lemma SqlIsABlock(header: seq<string>, data: seq<string>, trailer: seq<string>)
    ensures Join(header + data + ["\\."] + trailer, "\n") + "\n" == Printed(header) + (Printed(data) + "\\.\n" + Printed(trailer))
  {
    JoinIsPrinted(header + data + ["\\."] + trailer);
    PrintedAppend(header, data);
    PrintedAppend(header + data, ["\\."]);
    PrintedAppend(header + data + ["\\."], trailer);
    OnePrinted("\\.");
    Regrouped(Printed(header), Printed(data), "\\." + "\n", Printed(trailer));
    assert "\\." + "\n" == "\\.\n";
  }

  lemma OnePrinted(line: string)
    ensures Printed([line]) == line + "\n"
  {
    assert [line][1..] == [];
  }

  lemma Regrouped(a: string, b: string, c: string, d: string)
    ensures a + b + c + d == a + (b + c + d)
  {
  }

  lemma AfterHeader(text: string, header: string, block: string)
    requires text == header + block
    ensures |text| >= |header| && text[..|header|] == header && text[|header|..] == block
  {
  }
}
