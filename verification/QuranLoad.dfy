/**
  * The loader of a Quran dataset: the vendored file is read verbatim and refused unless
  * its rows are exactly the ayat there are. Hashes are told, not computed.
  */
module QuranLoad {
  import opened Options
  import opened Numerals

  datatype Row = Row(surah: nat, ayah: nat, text: string)

  /** A surah and how many ayat it has. */
  datatype Surah = Surah(number: nat, ayat: nat)

  type Place = (nat, nat)

  datatype Refusal =
    | BadFile | BadLine(line: nat) | WrongTotal | Twice(place: Place) | NoSuch(place: Place) | Empty(place: Place)
    | WrongCount(surah: nat) | NoBasmala(surah: nat) | HasBasmala | WrongDigest

  /** The table of surahs, in order. */
  ghost predicate IsTable(table: seq<Surah>) {
    forall j, k :: 0 <= j < k < |table| ==> table[j].number < table[k].number
  }

  // ---------------------------------------------------------------- split and join

  /** str.split with one separating character, at most `most` times. */
  function Split(s: string, sep: char, most: nat): (parts: seq<string>)
    ensures 0 < |parts| <= most + 1
    decreases most, |s|
  {
    var k := Find(s, sep);
    if most == 0 || k == |s| then [s] else [s[..k]] + Split(s[k + 1..], sep, most - 1)
  }

  function Find(s: string, c: char): (k: nat)
    ensures k <= |s| && c !in s[..k] && (k < |s| ==> s[k] == c)
  {
    if s == "" || s[0] == c then 0 else 1 + Find(s[1..], c)
  }

  function Join(parts: seq<string>, sep: string): string {
    if parts == [] then "" else if |parts| == 1 then parts[0] else parts[0] + sep + Join(parts[1..], sep)
  }

  lemma {:induction false} JoinSplit(s: string, sep: char, most: nat)
    ensures Join(Split(s, sep, most), [sep]) == s
    decreases most
  {
    var k := Find(s, sep);
    if most > 0 && k < |s| {
      JoinSplit(s[k + 1..], sep, most - 1);
      var rest := Split(s[k + 1..], sep, most - 1);
      assert ([s[..k]] + rest)[1..] == rest;
      assert s == s[..k] + [sep] + s[k + 1..];
    }
  }

  lemma {:induction false} JoinAppend(a: seq<string>, last: string, sep: string)
    requires a != []
    ensures Join(a + [last], sep) == Join(a, sep) + sep + last
    decreases |a|
  {
    if |a| > 1 {
      JoinAppend(a[1..], last, sep);
      assert (a + [last])[1..] == a[1..] + [last];
    } else {
      assert (a + [last])[1..] == [last];
    }
  }

  // ---------------------------------------------------------------- the Basmala

  /** split_basmala: the accepted prefix, if there is one to split off, and the verse. */
  function SplitBasmala(r: Row, isBasmala: string -> bool): Result<(Option<string>, string), Refusal> {
    var words := Split(r.text, ' ', 4);
    var five := |words| == 5;
    var head := if five then Join(words[..4], " ") else "";
    var rest := if five then words[4] else "";
    var found := five && isBasmala(head);
    if r.ayah == 1 && r.surah != 1 && r.surah != 9 then
      if !found || rest == "" || rest[0] == ' ' then Failure(NoBasmala(r.surah)) else Success((Some(head), rest))
    else if r.ayah == 1 && r.surah == 9 && found then Failure(HasBasmala)
    else Success((None, r.text))
  }

  /** Where a Basmala is split off, it and the verse, with one space, are the text. */
  lemma SplitBasmalaRejoins(r: Row, isBasmala: string -> bool)
    requires SplitBasmala(r, isBasmala).Success?
    ensures var (head, verse) := SplitBasmala(r, isBasmala).value;
            && (head.None? ==> verse == r.text)
            && (head.Some? ==> head.value + " " + verse == r.text && isBasmala(head.value) && verse != "" && verse[0] != ' ')
            && (head.Some? <==> r.ayah == 1 && r.surah != 1 && r.surah != 9)
  {
    var words := Split(r.text, ' ', 4);
    JoinSplit(r.text, ' ', 4);
    if |words| == 5 {
      assert words == words[..4] + [words[4]];
      JoinAppend(words[..4], words[4], " ");
    }
  }

  ghost predicate ArePlainWords(ws: seq<string>) {
    forall k :: 0 <= k < |ws| ==> ' ' !in ws[k]
  }

  /** The head is four words with one space between each two, and the rest stands after one more. */
  ghost predicate IsHeaded(text: string, head: string, rest: string) {
    text == head + " " + rest && exists ws :: |ws| == 4 && ArePlainWords(ws) && head == Join(ws, " ")
  }

  lemma HeadedIff(text: string, head: string, rest: string)
    ensures IsHeaded(text, head, rest)
            <==> |Split(text, ' ', 4)| == 5 && head == Join(Split(text, ' ', 4)[..4], " ") && rest == Split(text, ' ', 4)[4]
  {
    if IsHeaded(text, head, rest) {
      var ws :| |ws| == 4 && ArePlainWords(ws) && head == Join(ws, " ");
      JoinedSplits(ws, rest);
      assert (ws + [rest])[..4] == ws;
    }
    if |Split(text, ' ', 4)| == 5 {
      SplitsHeaded(text);
    }
  }

  lemma {:induction false} JoinedSplits(ws: seq<string>, rest: string)
    requires ws != [] && ArePlainWords(ws)
    ensures Split(Join(ws, " ") + " " + rest, ' ', |ws|) == ws + [rest]
    decreases |ws|
  {
    if |ws| == 1 {
      OneWordMore(ws[0], rest, [rest], 1);
    } else {
      JoinedSplits(ws[1..], rest);
      JoinedTail(ws, rest);
      OneWordMore(ws[0], Join(ws[1..], " ") + " " + rest, ws[1..] + [rest], |ws|);
      assert ws + [rest] == [ws[0]] + (ws[1..] + [rest]);
    }
  }

  lemma JoinedTail(ws: seq<string>, rest: string)
    requires |ws| > 1
    ensures Join(ws, " ") + " " + rest == ws[0] + " " + (Join(ws[1..], " ") + " " + rest)
  {
  }

  lemma OneWordMore(first: string, tail: string, parts: seq<string>, n: nat)
    requires ' ' !in first && n > 0 && Split(tail, ' ', n - 1) == parts
    ensures Split(first + " " + tail, ' ', n) == [first] + parts
  {
    assert " " == [' '];
    SplitAfter(first, ' ', tail, n);
  }

  lemma {:induction false} SplitParts(s: string, sep: char, most: nat)
    ensures AllWithout(Split(s, sep, most), sep)
    decreases most
  {
    var k := Find(s, sep);
    if most > 0 && k < |s| {
      SplitParts(s[k + 1..], sep, most - 1);
      OneMoreWithout(s[..k], Split(s[k + 1..], sep, most - 1), sep);
    }
  }

  /** No part but the last holds the separator. */
  ghost predicate AllWithout(parts: seq<string>, sep: char) {
    forall j :: 0 <= j < |parts| - 1 ==> sep !in parts[j]
  }

  lemma OneMoreWithout(first: string, rest: seq<string>, sep: char)
    requires sep !in first && AllWithout(rest, sep)
    ensures AllWithout([first] + rest, sep)
  {
  }

  lemma SplitsHeaded(text: string)
    requires |Split(text, ' ', 4)| == 5
    ensures var w := Split(text, ' ', 4); IsHeaded(text, Join(w[..4], " "), w[4])
  {
    var w := Split(text, ' ', 4);
    SplitParts(text, ' ', 4);
    JoinSplit(text, ' ', 4);
    JoinAppend(w[..4], w[4], " ");
    assert w == w[..4] + [w[4]];
    forall k | 0 <= k < 4 ensures ' ' !in w[..4][k] {
      assert w[..4][k] == w[k];
    }
    assert ArePlainWords(w[..4]);
  }

  /** An accepted Basmala heads the text. */
  ghost predicate StartsWithBasmala(text: string, isBasmala: string -> bool) {
    exists head, rest :: IsHeaded(text, head, rest) && isBasmala(head)
  }

  ghost predicate CarriesBasmala(text: string, isBasmala: string -> bool) {
    exists head, rest :: IsHeaded(text, head, rest) && isBasmala(head) && rest != "" && rest[0] != ' '
  }

  /** Refused are exactly: a first ayah of surah 9 headed by a Basmala, and one of any other surah but the first with none to split off. */
  lemma BasmalaRefusedIff(r: Row, isBasmala: string -> bool)
    ensures SplitBasmala(r, isBasmala) == Failure(HasBasmala) <==> r.ayah == 1 && r.surah == 9 && StartsWithBasmala(r.text, isBasmala)
    ensures SplitBasmala(r, isBasmala) == Failure(NoBasmala(r.surah)) <==> r.ayah == 1 && r.surah != 1 && r.surah != 9 && !CarriesBasmala(r.text, isBasmala)
    ensures SplitBasmala(r, isBasmala).Failure? ==> SplitBasmala(r, isBasmala).error in {HasBasmala, NoBasmala(r.surah)}
  {
    var words := Split(r.text, ' ', 4);
    forall head, rest ensures IsHeaded(r.text, head, rest) <==> |words| == 5 && head == Join(words[..4], " ") && rest == words[4] {
      HeadedIff(r.text, head, rest);
    }
    if |words| == 5 {
      assert IsHeaded(r.text, Join(words[..4], " "), words[4]);
    }
  }

  // ---------------------------------------------------------------- parse

  function WithoutCr(line: string): string {
    if line != "" && line[|line| - 1] == '\r' then line[..|line| - 1] else line
  }

  /** One line: nothing (blank or a comment), a row, or a refusal. */
  function ParseLine(raw: string, n: nat): Result<Option<Row>, Refusal> {
    var line := WithoutCr(raw);
    if line == "" || line[0] == '#' then Success(None)
    else
      var parts := Split(line, '|', 2);
      if |parts| != 3 || !AllDigits(parts[0]) || !AllDigits(parts[1]) then Failure(BadLine(n))
      else Success(Some(Row(Number(parts[0]), Number(parts[1]), parts[2])))
  }

  function ParseLines(lines: seq<string>): Result<seq<Row>, Refusal> {
    if lines == [] then Success([])
    else
      var before := ParseLines(lines[..|lines| - 1]);
      if before.Failure? then Failure(before.error)
      else
        var last := ParseLine(lines[|lines| - 1], |lines|);
        if last.Failure? then Failure(last.error)
        else Success(before.value + (if last.value.Some? then [last.value.value] else []))
  }

  function Lines(text: string): seq<string> {
    Split(text, '\n', |text|)
  }

  function WithoutMark(text: string): string {
    if text != "" && text[0] == '\U{FEFF}' then text[1..] else text
  }

  /** parse */
  method Parse(text: string) returns (r: Result<seq<Row>, Refusal>)
    ensures r == ParseLines(Lines(WithoutMark(text)))
  {
    var lines := Lines(WithoutMark(text));
    var rows := [];
    for n := 0 to |lines|
      invariant ParseLines(lines[..n]) == Success(rows)
    {
      var upTo := lines[..n + 1];
      assert upTo[..n] == lines[..n] && upTo[n] == lines[n];
      var line := ParseLine(lines[n], n + 1);
      if line.Failure? {
        FirstRefusalStands(lines, n + 1);
        return Failure(line.error);
      }
      assert rows + [] == rows;
      if line.value.Some? {
        rows := rows + [line.value.value];
      }
    }
    assert lines[..|lines|] == lines;
    r := Success(rows);
  }

  /** A byte-order mark at the start is no text; nothing else is taken away. */
  lemma MarkIsNoText(text: string)
    ensures WithoutMark(['\U{FEFF}'] + text) == text
    ensures text == "" || text[0] != '\U{FEFF}' ==> WithoutMark(text) == text
  {
  }

  lemma {:induction false} FirstRefusalStands(lines: seq<string>, n: nat)
    requires n <= |lines| && ParseLines(lines[..n]).Failure?
    ensures ParseLines(lines) == ParseLines(lines[..n])
    decreases |lines|
  {
    if n < |lines| {
      assert lines[..|lines| - 1][..n] == lines[..n];
      FirstRefusalStands(lines[..|lines| - 1], n);
    } else {
      assert lines[..n] == lines;
    }
  }

  lemma {:induction false} SplitAfter(a: string, sep: char, rest: string, most: nat)
    requires sep !in a && most > 0
    ensures Split(a + [sep] + rest, sep, most) == [a] + Split(rest, sep, most - 1)
  {
    var s := a + [sep] + rest;
    FindAfter(a, sep, rest);
    assert s[..|a|] == a && s[|a| + 1..] == rest;
  }

  lemma {:induction false} FindAfter(a: string, sep: char, rest: string)
    requires sep !in a
    ensures Find(a + [sep] + rest, sep) == |a|
  {
    if a != "" {
      assert (a + [sep] + rest)[1..] == a[1..] + [sep] + rest;
      FindAfter(a[1..], sep, rest);
    }
  }

  /** Skipped are exactly the lines that are blank, but for a carriage return, and the comments. */
  lemma SkippedIff(raw: string, n: nat)
    ensures ParseLine(raw, n) == Success(None) <==> raw == "" || raw == "\r" || raw[0] == '#'
  {
    if raw != "" && raw[|raw| - 1] == '\r' {
      assert raw == raw[..|raw| - 1] + "\r";
    }
  }

  /** A row is read exactly of digits, a bar, digits, a bar and the text, up to a carriage return; any other line is refused. */
  lemma ReadIff(raw: string, n: nat, r: Row)
    ensures ParseLine(raw, n) == Success(Some(r)) <==> exists a, b :: IsRowLine(WithoutCr(raw), a, b, r)
    ensures ParseLine(raw, n).Failure? ==> ParseLine(raw, n) == Failure(BadLine(n))
  {
    if ParseLine(raw, n) == Success(Some(r)) {
      ReadIsRowLine(raw, n, r);
    }
    if a, b :| IsRowLine(WithoutCr(raw), a, b, r) {
      RowLineIsRead(raw, n, WithoutCr(raw), a, b, r);
    }
  }

  lemma ReadIsRowLine(raw: string, n: nat, r: Row)
    requires ParseLine(raw, n) == Success(Some(r))
    ensures exists a, b :: IsRowLine(WithoutCr(raw), a, b, r)
  {
    var line := WithoutCr(raw);
    var parts := Split(line, '|', 2);
    JoinSplit(line, '|', 2);
    JoinThree(parts, "|");
    assert IsRowLine(line, parts[0], parts[1], r);
  }

  lemma RowLineIsRead(raw: string, n: nat, line: string, a: string, b: string, r: Row)
    requires line == WithoutCr(raw) && IsRowLine(line, a, b, r)
    ensures ParseLine(raw, n) == Success(Some(r))
  {
    var tail := b + "|" + r.text;
    assert '|' !in a && '|' !in b && a[0] != '#';
    SplitAfter(b, '|', r.text, 1);
    SplitAfter(a, '|', tail, 2);
    assert line == a + "|" + tail && line[0] == a[0];
    PartsParse(raw, line, a, b, r.text, n);
  }

  lemma JoinThree(parts: seq<string>, sep: string)
    requires |parts| == 3
    ensures Join(parts, sep) == parts[0] + sep + (parts[1] + sep + parts[2])
  {
    var last := parts[1..];
    assert Join(last, sep) == last[0] + sep + Join(last[1..], sep);
  }

  ghost predicate IsRowLine(line: string, a: string, b: string, r: Row) {
    AllDigits(a) && AllDigits(b) && Number(a) == r.surah && Number(b) == r.ayah && line == a + "|" + (b + "|" + r.text)
  }

  /** A blank or comment line anywhere changes no row. */
  lemma {:induction false} SkippingChangesNothing(a: seq<string>, raw: string, b: seq<string>)
    requires ParseLines(a + b).Success? && (raw == "" || raw == "\r" || raw[0] == '#')
    ensures ParseLines(a + [raw] + b) == ParseLines(a + b)
    decreases |b|
  {
    if b == [] {
      assert a + b == a && a + [raw] + b == a + [raw];
      OneLineMore(a, raw);
      SkippedIff(raw, |a| + 1);
      assert ParseLines(a).value + [] == ParseLines(a).value;
    } else {
      var front, last := b[..|b| - 1], b[|b| - 1];
      assert a + b == (a + front) + [last] && a + [raw] + b == (a + [raw] + front) + [last];
      OneLineMore(a + front, last);
      OneLineMore(a + [raw] + front, last);
      SkippingChangesNothing(a, raw, front);
      SameLineSameRow(last, |a + front| + 1, |a + [raw] + front| + 1);
    }
  }

  lemma OneLineMore(lines: seq<string>, last: string)
    ensures ParseLines(lines + [last])
         == if ParseLines(lines).Failure? then ParseLines(lines)
            else if ParseLine(last, |lines| + 1).Failure? then Failure(ParseLine(last, |lines| + 1).error)
            else Success(ParseLines(lines).value + (if ParseLine(last, |lines| + 1).value.Some? then [ParseLine(last, |lines| + 1).value.value] else []))
  {
    assert (lines + [last])[..|lines|] == lines;
  }

  lemma SameLineSameRow(raw: string, m: nat, n: nat)
    ensures ParseLine(raw, m).Success? ==> ParseLine(raw, n) == ParseLine(raw, m)
  {
  }

  /** A line keeps its text as it stands, bars and all, whatever ends the line. */
  lemma RowLineParses(r: Row, cr: bool, n: nat)
    requires r.text != "" && r.text[|r.text| - 1] != '\r'
    ensures ParseLine(Decimal(r.surah) + "|" + Decimal(r.ayah) + "|" + r.text + (if cr then "\r" else ""), n) == Success(Some(r))
  {
    DecimalReads(r.surah);
    DecimalReads(r.ayah);
    TextLineParses(Decimal(r.surah), Decimal(r.ayah), r.text, cr, n);
  }

  lemma TextLineParses(a: string, b: string, text: string, cr: bool, n: nat)
    requires AllDigits(a) && AllDigits(b) && text != "" && text[|text| - 1] != '\r'
    ensures ParseLine(a + "|" + b + "|" + text + (if cr then "\r" else ""), n) == Success(Some(Row(Number(a), Number(b), text)))
  {
    var tail := b + "|" + text;
    var line := a + "|" + tail;
    assert '|' !in a && '|' !in b && a[0] != '#';
    SplitAfter(a, '|', tail, 2);
    SplitAfter(b, '|', text, 1);
    EndsWithText(a + "|", b + "|", text, line, cr);
    assert a + "|" + b + "|" + text == (a + "|") + (b + "|") + text;
    assert line[0] == a[0];
    PartsParse(a + "|" + b + "|" + text + (if cr then "\r" else ""), line, a, b, text, n);
  }

  lemma PartsParse(raw: string, line: string, a: string, b: string, text: string, n: nat)
    requires WithoutCr(raw) == line && line != "" && line[0] != '#' && Split(line, '|', 2) == [a, b, text] && AllDigits(a) && AllDigits(b)
    ensures ParseLine(raw, n) == Success(Some(Row(Number(a), Number(b), text)))
  {
  }

  lemma EndsWithText(a: string, b: string, text: string, line: string, cr: bool)
    requires text != "" && text[|text| - 1] != '\r' && line == a + (b + text)
    ensures WithoutCr(a + b + text + (if cr then "\r" else "")) == line
  {
    assert a + b + text + "" == line;
    assert line[|line| - 1] == text[|text| - 1];
    assert (line + "\r")[..|line|] == line;
    assert a + b + text + "\r" == line + "\r";
  }

  // ---------------------------------------------------------------- the ayat there are

  function Total(table: seq<Surah>): nat {
    if table == [] then 0 else Total(table[..|table| - 1]) + table[|table| - 1].ayat
  }

  function SurahPlaces(s: nat, n: nat): set<Place> {
    if n == 0 then {} else SurahPlaces(s, n - 1) + {(s, n)}
  }

  function Places(table: seq<Surah>): set<Place> {
    if table == [] then {} else Places(table[..|table| - 1]) + SurahPlaces(table[|table| - 1].number, table[|table| - 1].ayat)
  }

  lemma {:induction false} SurahPlacesAre(s: nat, n: nat)
    ensures |SurahPlaces(s, n)| == n
    ensures forall p :: p in SurahPlaces(s, n) <==> p.0 == s && 1 <= p.1 <= n
  {
    if n > 0 {
      SurahPlacesAre(s, n - 1);
    }
  }

  lemma {:induction false} PlacesAre(table: seq<Surah>)
    requires IsTable(table)
    ensures |Places(table)| == Total(table)
    ensures forall p :: p in Places(table) <==> exists k :: 0 <= k < |table| && table[k].number == p.0 && 1 <= p.1 <= table[k].ayat
  {
    if table != [] {
      var front, last := table[..|table| - 1], table[|table| - 1];
      PlacesAre(front);
      SurahPlacesAre(last.number, last.ayat);
      assert Places(front) !! SurahPlaces(last.number, last.ayat);
      forall p ensures p in Places(table) <==> exists k :: 0 <= k < |table| && table[k].number == p.0 && 1 <= p.1 <= table[k].ayat {
        if p in Places(front) {
          var k :| 0 <= k < |front| && front[k].number == p.0 && 1 <= p.1 <= front[k].ayat;
          assert table[k].number == p.0;
        }
        if k :| 0 <= k < |table| && table[k].number == p.0 && 1 <= p.1 <= table[k].ayat {
          if k < |front| {
            assert front[k].number == p.0;
          }
        }
      }
    }
  }

  lemma Pigeonhole(a: set<Place>, b: set<Place>)
    requires a <= b && |a| == |b|
    ensures a == b
  {
    assert |b - a| == 0;
    assert b == a + (b - a);
  }

  // ---------------------------------------------------------------- verify

  predicate Knows(table: seq<Surah>, p: Place) {
    exists k | 0 <= k < |table| :: table[k].number == p.0 && 1 <= p.1 <= table[k].ayat
  }

  ghost predicate NoneTwice(rows: seq<Row>) {
    forall j, k :: 0 <= j < k < |rows| ==> (rows[j].surah, rows[j].ayah) != (rows[k].surah, rows[k].ayah)
  }

  ghost predicate AllKnown(rows: seq<Row>, table: seq<Surah>) {
    forall k :: 0 <= k < |rows| ==> Knows(table, (rows[k].surah, rows[k].ayah)) && rows[k].text != ""
  }

  ghost function PlacesOf(rows: seq<Row>): set<Place> {
    set k | 0 <= k < |rows| :: (rows[k].surah, rows[k].ayah)
  }

  /** The texts of one surah's first `n` ayat, in order. */
  function SurahRows(s: nat, n: nat, seen: map<Place, string>): seq<Row>
    requires forall a :: 1 <= a <= n ==> (s, a) in seen
  {
    if n == 0 then [] else SurahRows(s, n - 1, seen) + [Row(s, n, seen[(s, n)])]
  }

  function Ordered(table: seq<Surah>, seen: map<Place, string>): seq<Row>
    requires forall k, a :: 0 <= k < |table| && 1 <= a <= table[k].ayat ==> (table[k].number, a) in seen
  {
    if table == [] then []
    else
      assert forall k :: 0 <= k < |table| - 1 ==> table[..|table| - 1][k] == table[k];
      Ordered(table[..|table| - 1], seen) + SurahRows(table[|table| - 1].number, table[|table| - 1].ayat, seen)
  }

  /** What `seen` holds after some rows without a place twice. */
  ghost predicate Holds(seen: map<Place, string>, rows: seq<Row>) {
    && seen.Keys == PlacesOf(rows)
    && forall k :: 0 <= k < |rows| ==> (rows[k].surah, rows[k].ayah) in seen && seen[(rows[k].surah, rows[k].ayah)] == rows[k].text
  }

  /** The rows are the ayat there are: none twice, none unknown, none missing, none empty. */
  ghost predicate IsWhole(rows: seq<Row>, table: seq<Surah>) {
    NoneTwice(rows) && PlacesOf(rows) == Places(table) && forall k :: 0 <= k < |rows| ==> rows[k].text != ""
  }

  lemma {:induction false} CountOfRows(rows: seq<Row>)
    requires NoneTwice(rows)
    ensures |PlacesOf(rows)| == |rows|
  {
    if rows != [] {
      var front, last := rows[..|rows| - 1], rows[|rows| - 1];
      CountOfRows(front);
      assert PlacesOf(rows) == PlacesOf(front) + {(last.surah, last.ayah)} by {
        forall p | p in PlacesOf(rows) ensures p in PlacesOf(front) + {(last.surah, last.ayah)} {
          var k :| 0 <= k < |rows| && p == (rows[k].surah, rows[k].ayah);
          if k < |front| {
            assert p == (front[k].surah, front[k].ayah);
          }
        }
        forall p | p in PlacesOf(front) ensures p in PlacesOf(rows) {
          var k :| 0 <= k < |front| && p == (front[k].surah, front[k].ayah);
          assert p == (rows[k].surah, rows[k].ayah);
        }
      }
      assert (last.surah, last.ayah) !in PlacesOf(front);
    }
  }

  /** As many known rows as ayat, none twice: then none is missing. */
  lemma WholeIff(rows: seq<Row>, table: seq<Surah>)
    requires IsTable(table)
    ensures |rows| == Total(table) && NoneTwice(rows) && AllKnown(rows, table) <==> IsWhole(rows, table)
  {
    PlacesAre(table);
    if NoneTwice(rows) {
      CountOfRows(rows);
      if |rows| == Total(table) && AllKnown(rows, table) {
        assert PlacesOf(rows) <= Places(table);
        Pigeonhole(PlacesOf(rows), Places(table));
      }
      if PlacesOf(rows) == Places(table) {
        forall k | 0 <= k < |rows| ensures Knows(table, (rows[k].surah, rows[k].ayah)) {
          assert (rows[k].surah, rows[k].ayah) in PlacesOf(rows);
        }
      }
    }
  }

  /** The count of each surah, taken again, can then never differ. */
  lemma SurahCountsAgree(seen: map<Place, string>, table: seq<Surah>, k: nat)
    requires IsTable(table) && seen.Keys == Places(table) && k < |table|
    ensures |set p | p in seen && p.0 == table[k].number| == table[k].ayat
  {
    PlacesAre(table);
    SurahPlacesAre(table[k].number, table[k].ayat);
    var mine := set p | p in seen && p.0 == table[k].number;
    forall p ensures p in mine <==> p in SurahPlaces(table[k].number, table[k].ayat) {
      if p in mine {
        var j :| 0 <= j < |table| && table[j].number == p.0 && 1 <= p.1 <= table[j].ayat;
        assert j == k;
      }
    }
    assert mine == SurahPlaces(table[k].number, table[k].ayat);
  }

  function Texts(rows: seq<Row>): seq<string> {
    seq(|rows|, k requires 0 <= k < |rows| => rows[k].text)
  }

  ghost predicate BasmalaKept(rows: seq<Row>, isBasmala: string -> bool) {
    forall k :: 0 <= k < |rows| ==> SplitBasmala(rows[k], isBasmala).Success?
  }

  /** The rows in the Quran's order. */
  ghost predicate IsOrderOf(ordered: seq<Row>, rows: seq<Row>, table: seq<Surah>) {
    && multiset(ordered) == multiset(rows)
    && (forall j, k :: 0 <= j < k < |ordered| ==>
          ordered[j].surah < ordered[k].surah || (ordered[j].surah == ordered[k].surah && ordered[j].ayah < ordered[k].ayah))
  }

  /** verify, of rows already parsed; whether the two pinned hashes agree is told. */
  method Verify(rows: seq<Row>, table: seq<Surah>, fileIsPinned: bool, digestIsPinned: seq<string> -> bool, isBasmala: string -> bool)
    returns (r: Result<seq<Row>, Refusal>)
    requires IsTable(table)
    ensures r.Success? ==> fileIsPinned && IsWhole(rows, table) && IsOrderOf(r.value, rows, table)
                           && BasmalaKept(r.value, isBasmala) && digestIsPinned(Texts(r.value))
    ensures r.Failure? ==> !r.error.WrongCount?
    ensures r.Failure? ==>
              || !fileIsPinned || !IsWhole(rows, table)
              || exists ordered :: IsOrderOf(ordered, rows, table) && !(BasmalaKept(ordered, isBasmala) && digestIsPinned(Texts(ordered)))
  {
    WholeIff(rows, table);
    if !fileIsPinned {
      return Failure(BadFile);
    }
    if |rows| != Total(table) {
      return Failure(WrongTotal);
    }
    var seen, bad := SeenOf(rows, table);
    if bad.Some? {
      return Failure(bad.value);
    }
    var agree := CountEachSurah(seen, table);
    if !agree {
      assert false; // WrongCount is never answered
    }
    EveryAyahIsSeen(table, seen);
    var ordered := Ordered(table, seen);
    OrderedIsTheRows(table, seen, rows);
    r := CheckTexts(ordered, digestIsPinned, isBasmala);
  }

  /** The loop over the counts: it never finds one to differ. */
  method CountEachSurah(seen: map<Place, string>, table: seq<Surah>) returns (agree: bool)
    requires IsTable(table) && seen.Keys == Places(table)
    ensures agree
  {
    agree := true;
    for k := 0 to |table|
      invariant agree
    {
      SurahCountsAgree(seen, table, k);
      agree := agree && |set p | p in seen && p.0 == table[k].number| == table[k].ayat;
    }
  }

  method CheckTexts(ordered: seq<Row>, digestIsPinned: seq<string> -> bool, isBasmala: string -> bool) returns (r: Result<seq<Row>, Refusal>)
    ensures r.Success? <==> BasmalaKept(ordered, isBasmala) && digestIsPinned(Texts(ordered))
    ensures r.Success? ==> r.value == ordered
    ensures r.Failure? ==> !r.error.WrongCount?
  {
    for k := 0 to |ordered|
      invariant forall j :: 0 <= j < k ==> SplitBasmala(ordered[j], isBasmala).Success?
    {
      var split := SplitBasmala(ordered[k], isBasmala);
      if split.Failure? {
        BasmalaRefusal(ordered[k], isBasmala);
        return Failure(split.error);
      }
    }
    if !digestIsPinned(Texts(ordered)) {
      return Failure(WrongDigest);
    }
    r := Success(ordered);
  }

  lemma BasmalaRefusal(r: Row, isBasmala: string -> bool)
    requires SplitBasmala(r, isBasmala).Failure?
    ensures !SplitBasmala(r, isBasmala).error.WrongCount?
  {
  }

  /** The loop over the rows: what was seen, or the first refusal. */
  method SeenOf(rows: seq<Row>, table: seq<Surah>) returns (seen: map<Place, string>, bad: Option<Refusal>)
    ensures bad.None? <==> NoneTwice(rows) && AllKnown(rows, table)
    ensures bad.None? ==> Holds(seen, rows)
    ensures bad.Some? ==> !bad.value.WrongCount?
  {
    seen, bad := map[], None;
    for k := 0 to |rows|
      invariant NoneTwice(rows[..k]) && AllKnown(rows[..k], table) && Holds(seen, rows[..k])
    {
      var (s, a, t) := (rows[k].surah, rows[k].ayah, rows[k].text);
      if (s, a) in seen {
        assert (s, a) in PlacesOf(rows[..k]);
        return seen, Some(Twice((s, a)));
      }
      if !Knows(table, (s, a)) {
        return seen, Some(NoSuch((s, a)));
      }
      if t == "" {
        return seen, Some(Empty((s, a)));
      }
      OneMoreSeen(rows, k, seen, table);
      seen := seen[(s, a) := t];
    }
    assert rows[..|rows|] == rows;
  }

  lemma OneMoreSeen(rows: seq<Row>, k: nat, seen: map<Place, string>, table: seq<Surah>)
    requires k < |rows| && NoneTwice(rows[..k]) && AllKnown(rows[..k], table) && Holds(seen, rows[..k])
    requires (rows[k].surah, rows[k].ayah) !in seen && Knows(table, (rows[k].surah, rows[k].ayah)) && rows[k].text != ""
    ensures NoneTwice(rows[..k + 1]) && AllKnown(rows[..k + 1], table)
    ensures Holds(seen[(rows[k].surah, rows[k].ayah) := rows[k].text], rows[..k + 1])
  {
    var front, more := rows[..k], rows[..k + 1];
    assert more == front + [rows[k]];
    assert forall j :: 0 <= j < k ==> (front[j].surah, front[j].ayah) in PlacesOf(front);
    forall p ensures p in PlacesOf(more) <==> p in PlacesOf(front) || p == (rows[k].surah, rows[k].ayah) {
      if p in PlacesOf(more) {
        var j :| 0 <= j < |more| && p == (more[j].surah, more[j].ayah);
        assert j < k ==> p == (front[j].surah, front[j].ayah);
      }
      if p in PlacesOf(front) {
        var j :| 0 <= j < |front| && p == (front[j].surah, front[j].ayah);
        assert p == (more[j].surah, more[j].ayah);
      }
      assert (more[k].surah, more[k].ayah) in PlacesOf(more);
    }
  }

  lemma EveryAyahIsSeen(table: seq<Surah>, seen: map<Place, string>)
    requires IsTable(table) && seen.Keys == Places(table)
    ensures forall k, a :: 0 <= k < |table| && 1 <= a <= table[k].ayat ==> (table[k].number, a) in seen
  {
    PlacesAre(table);
  }

  // ---------------------------------------------------------------- the order

  ghost predicate ComesBefore(a: Row, b: Row) {
    a.surah < b.surah || (a.surah == b.surah && a.ayah < b.ayah)
  }

  ghost predicate InOrder(rows: seq<Row>) {
    forall j, k :: 0 <= j < k < |rows| ==> ComesBefore(rows[j], rows[k])
  }

  lemma {:induction false} SurahRowsInOrder(s: nat, n: nat, seen: map<Place, string>)
    requires forall a :: 1 <= a <= n ==> (s, a) in seen
    ensures var rows := SurahRows(s, n, seen);
            InOrder(rows) && (forall r :: r in rows <==> r.surah == s && 1 <= r.ayah <= n && r.text == seen[(s, r.ayah)])
  {
    if n > 0 {
      SurahRowsInOrder(s, n - 1, seen);
    }
  }

  lemma {:induction false} OrderedInOrder(table: seq<Surah>, seen: map<Place, string>)
    requires IsTable(table) && forall k, a :: 0 <= k < |table| && 1 <= a <= table[k].ayat ==> (table[k].number, a) in seen
    ensures var rows := Ordered(table, seen);
            InOrder(rows) && (forall r :: r in rows <==> Knows(table, (r.surah, r.ayah)) && (r.surah, r.ayah) in seen && r.text == seen[(r.surah, r.ayah)])
    decreases |table|
  {
    if table != [] {
      var front, last := table[..|table| - 1], table[|table| - 1];
      assert forall k :: 0 <= k < |front| ==> front[k] == table[k];
      OrderedInOrder(front, seen);
      SurahRowsInOrder(last.number, last.ayat, seen);
      forall r: Row ensures Knows(table, (r.surah, r.ayah)) <==> Knows(front, (r.surah, r.ayah)) || (r.surah == last.number && 1 <= r.ayah <= last.ayat) {
        OneMoreSurah(table, (r.surah, r.ayah));
      }
      var a, b := Ordered(front, seen), SurahRows(last.number, last.ayat, seen);
      forall j, k | 0 <= j < |a| && 0 <= k < |b| ensures ComesBefore(a[j], b[k]) {
        assert a[j] in a && b[k] in b;
        var m :| 0 <= m < |front| && front[m].number == a[j].surah;
        assert table[m].number < table[|table| - 1].number;
      }
      JoinOrdered(a, b);
    }
  }

  lemma JoinOrdered(a: seq<Row>, b: seq<Row>)
    requires InOrder(a) && InOrder(b) && forall j, k :: 0 <= j < |a| && 0 <= k < |b| ==> ComesBefore(a[j], b[k])
    ensures InOrder(a + b)
  {
  }

  lemma OneMoreSurah(table: seq<Surah>, p: Place)
    requires table != []
    ensures Knows(table, p) <==> Knows(table[..|table| - 1], p) || (table[|table| - 1].number == p.0 && 1 <= p.1 <= table[|table| - 1].ayat)
  {
    var front := table[..|table| - 1];
    if Knows(table, p) {
      var k :| 0 <= k < |table| && table[k].number == p.0 && 1 <= p.1 <= table[k].ayat;
      assert k < |front| ==> front[k] == table[k];
    }
    if Knows(front, p) {
      var k :| 0 <= k < |front| && front[k].number == p.0 && 1 <= p.1 <= front[k].ayat;
      assert table[k] == front[k];
    }
  }

  /** Two lists without repeats and with the same members are rearrangements of each other. */
  lemma {:induction false} SameMembers(a: seq<Row>, b: seq<Row>)
    requires (forall r :: r in a <==> r in b) && NoRepeats(a) && NoRepeats(b)
    ensures multiset(a) == multiset(b)
  {
    forall r ensures multiset(a)[r] == multiset(b)[r] {
      CountIsOne(a, r);
      CountIsOne(b, r);
    }
  }

  ghost predicate NoRepeats(a: seq<Row>) {
    forall j, k :: 0 <= j < k < |a| ==> a[j] != a[k]
  }

  lemma {:induction false} CountIsOne(a: seq<Row>, r: Row)
    requires NoRepeats(a)
    ensures multiset(a)[r] == if r in a then 1 else 0
    decreases |a|
  {
    if a != [] {
      var front := a[..|a| - 1];
      CountIsOne(front, r);
      assert a == front + [a[|a| - 1]];
    }
  }

  lemma OrderedIsTheRows(table: seq<Surah>, seen: map<Place, string>, rows: seq<Row>)
    requires IsTable(table) && IsWhole(rows, table) && AllKnown(rows, table) && Holds(seen, rows)
    requires forall k, a :: 0 <= k < |table| && 1 <= a <= table[k].ayat ==> (table[k].number, a) in seen
    ensures IsOrderOf(Ordered(table, seen), rows, table)
  {
    var ordered := Ordered(table, seen);
    OrderedInOrder(table, seen);
    forall r ensures r in ordered <==> r in rows {
      if r in ordered {
        assert (r.surah, r.ayah) in PlacesOf(rows);
        var k :| 0 <= k < |rows| && (rows[k].surah, rows[k].ayah) == (r.surah, r.ayah);
        assert rows[k] == r;
      }
      if r in rows {
        var k :| 0 <= k < |rows| && rows[k] == r;
        assert Knows(table, (r.surah, r.ayah));
      }
    }
    assert forall j, k :: 0 <= j < k < |ordered| ==> ComesBefore(ordered[j], ordered[k]);
    SameMembers(ordered, rows);
  }

  /** There is one order: what verify answers is fixed by the rows. */
  lemma {:induction false} OrderIsUnique(a: seq<Row>, b: seq<Row>)
    requires InOrder(a) && InOrder(b) && multiset(a) == multiset(b)
    ensures a == b
    decreases |a|
  {
    if a == [] {
      assert |multiset(b)| == 0;
    } else {
      assert |multiset(b)| == |multiset(a)| > 0;
      FirstIsTheSame(a, b);
      TailsAreTheSame(a, b);
      OrderIsUnique(a[1..], b[1..]);
    }
  }

  lemma FirstIsTheSame(a: seq<Row>, b: seq<Row>)
    requires InOrder(a) && InOrder(b) && a != [] && b != [] && multiset(a) == multiset(b)
    ensures a[0] == b[0]
  {
    assert a[0] in multiset(b) && b[0] in multiset(a);
    var j :| 0 <= j < |b| && b[j] == a[0];
    var k :| 0 <= k < |a| && a[k] == b[0];
    FirstComesFirst(b, j);
    FirstComesFirst(a, k);
  }

  lemma FirstComesFirst(a: seq<Row>, k: nat)
    requires InOrder(a) && k < |a|
    ensures k > 0 ==> ComesBefore(a[0], a[k])
  {
  }

  lemma TailsAreTheSame(a: seq<Row>, b: seq<Row>)
    requires a != [] && b != [] && a[0] == b[0] && multiset(a) == multiset(b) && InOrder(a) && InOrder(b)
    ensures multiset(a[1..]) == multiset(b[1..]) && InOrder(a[1..]) && InOrder(b[1..])
  {
    assert a == [a[0]] + a[1..] && b == [b[0]] + b[1..];
    assert multiset(a[1..]) == multiset(a) - multiset{a[0]};
    assert multiset(b[1..]) == multiset(b) - multiset{a[0]};
  }
}
