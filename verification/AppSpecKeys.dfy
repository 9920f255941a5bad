/**
  * The rendered template: which keys each component has once it is resolved, and what
  * is gone at launch.
  */
module AppSpecKeys {
  import opened Options
  import opened AppSpec
  import opened AppSpecText

  // ---------------------------------------------------------------- render

  const API_ONLY := ["LESSON_APPROVALS_SIGNING_KEY"]
  const EXCLUDED_GROUPS := ["backup"]
  const ADMIN_WEB_ENV := ["API_ORIGIN", "REALTIME_ORIGIN", "LIVEKIT_ORIGIN", "STORAGE_ORIGIN", "MATERIALS_FRAME_ORIGINS"]
  const INDENT := "      "

  /** app_env_rows */
  function AppEnvRows(rows: seq<Row>): seq<Row> {
    if rows == [] then []
    else (if rows[0].rule != Forbidden && rows[0].group !in EXCLUDED_GROUPS then [rows[0]] else []) + AppEnvRows(rows[1..])
  }

  function WorkerRows(rows: seq<Row>): seq<Row> {
    if rows == [] then [] else (if rows[0].name !in API_ONLY then [rows[0]] else []) + WorkerRows(rows[1..])
  }

  function WebRows(keys: seq<string>): seq<Row> {
    if keys == [] then [] else [Row(keys[0], "", false, Required)] + WebRows(keys[1..])
  }

  /** env_block */
  function EnvBlock(key: string, secret: bool): seq<Line> {
    [INDENT + "- key: " + key,
     INDENT + "  scope: RUN_TIME",
     INDENT + "  type: " + (if secret then "SECRET" else "GENERAL"),
     INDENT + "  value: " + Placeholder(key)]
  }

  function EnvBlocks(rows: seq<Row>): seq<Line> {
    if rows == [] then [] else EnvBlock(rows[0].name, rows[0].secret) + EnvBlocks(rows[1..])
  }

  /** The fixed lines: up to the API's `envs:`, to Admin Web's, the Redis component, and to the worker's. */
  datatype Layout = Layout(head: seq<Line>, web: seq<Line>, redis: Part, worker: seq<Line>)

  /** A component: the comments above it, and the lines below its name. */
  datatype Part = Part(comments: seq<Line>, name: string, body: seq<Line>)

  function PartLines(p: Part): seq<Line> {
    p.comments + [NameLine(p.name)] + p.body
  }

  function Render(l: Layout, rows: seq<Row>): seq<Line> {
    l.head + (EnvBlocks(AppEnvRows(rows)) + (l.web + (EnvBlocks(WebRows(ADMIN_WEB_ENV))
    + (PartLines(l.redis) + (l.worker + (EnvBlocks(WorkerRows(AppEnvRows(rows))) + [""]))))))
  }

  // ---------------------------------------------------------------- the walk over the template

  function FixedOut(st: Settings, part: seq<Line>): seq<Line> {
    if part == [] then [] else OneLine(st, part[0], 0).out + FixedOut(st, part[1..])
  }

  function EnvOut(st: Settings, rows: seq<Row>): seq<Line> {
    if rows == [] then [] else EntryOut(st, rows[0]) + EnvOut(st, rows[1..])
  }

  function EntryOut(st: Settings, r: Row): seq<Line> {
    if IsSet(st, r.name) then Filled(st, EnvBlock(r.name, r.secret), r.name) else []
  }

  predicate NoEntry(part: seq<Line>) {
    forall k :: 0 <= k < |part| ==> !IsEntry(part[k])
  }

  lemma Suffix(lines: seq<Line>, k: nat, part: seq<Line>, rest: seq<Line>)
    requires k <= |lines| && lines[k..] == part + rest
    ensures k + |part| <= |lines| && lines[k..k + |part|] == part && lines[k + |part|..] == rest
  {
    var tail := lines[k..];
    assert |tail| == |part| + |rest|;
    assert tail[..|part|] == part && tail[|part|..] == rest;
    assert lines[k..k + |part|] == tail[..|part|];
    assert lines[k + |part|..] == tail[|part|..];
  }

  lemma FixedStep(st: Settings, lines: seq<Line>, k: nat, line: Line)
    requires k < |lines| && line == lines[k] && !IsEntry(line)
    ensures Walk(st, lines, k).out == OneLine(st, line, 0).out + Walk(st, lines, k + 1).out
  {
    assert ItemEnd(lines, k) == k + 1;
    assert OneItem(st, lines, k) == OneLine(st, line, k);
    OneLineOut(st, line, k);
  }

  lemma OneLineOut(st: Settings, line: Line, n: nat)
    ensures OneLine(st, line, n).out == OneLine(st, line, 0).out
  {
  }

  function Flat(parts: seq<seq<Line>>): seq<Line> {
    if parts == [] then [] else parts[0] + Flat(parts[1..])
  }

  ghost predicate IsChain(f: nat -> seq<Line>, parts: seq<seq<Line>>, k: nat, step: nat) {
    forall j :: 0 <= j < |parts| ==> IsLink(f, parts[j], k + step * j, step)
  }

  ghost predicate IsLink(f: nat -> seq<Line>, part: seq<Line>, at: nat, step: nat) {
    f(at) == part + f(at + step)
  }

  /** `f` at one place is a part and `f` at the next, `step` further on. */
  lemma {:induction false} Chain(f: nat -> seq<Line>, parts: seq<seq<Line>>, k: nat, step: nat)
    requires IsChain(f, parts, k, step)
    ensures f(k) == Flat(parts) + f(k + step * |parts|)
    decreases |parts|
  {
    if parts != [] {
      var more := parts[1..];
      assert IsLink(f, parts[0], k + step * 0, step);
      forall j | 0 <= j < |more| ensures IsLink(f, more[j], k + step + step * j, step) {
        Shifted(k, step, j);
        assert IsLink(f, parts[j + 1], k + step * (j + 1), step);
      }
      Chain(f, more, k + step, step);
      Shifted(k, step, |more|);
      assert f(k) == parts[0] + f(k + step);
    } else {
      assert step * |parts| == 0;
    }
  }

  lemma Shifted(k: nat, step: nat, j: nat)
    ensures k + step + step * j == k + step * (j + 1)
  {
  }

  /** Names the places of the walk a proof looks at. */
  ghost predicate At(k: nat) {
    k == k
  }

  /** `f` is what the walk from each line on puts out. */
  ghost predicate IsOut(f: nat -> seq<Line>, st: Settings, lines: seq<Line>) {
    forall k: nat {:trigger At(k)} :: At(k) && k <= |lines| ==> f(k) == Walk(st, lines, k).out
  }

  lemma OutFrom(st: Settings, lines: seq<Line>) returns (f: nat -> seq<Line>)
    ensures IsOut(f, st, lines)
  {
    f := k => if 0 <= k <= |lines| then Walk(st, lines, k).out else [];
  }

  ghost function FixedParts(st: Settings, part: seq<Line>): seq<seq<Line>> {
    seq(|part|, j requires 0 <= j < |part| => OneLine(st, part[j], 0).out)
  }

  lemma {:induction false} FlatFixed(st: Settings, part: seq<Line>)
    ensures Flat(FixedParts(st, part)) == FixedOut(st, part)
    decreases |part|
  {
    if part != [] {
      assert FixedParts(st, part)[1..] == FixedParts(st, part[1..]);
      FlatFixed(st, part[1..]);
    }
  }

  lemma LinesAt(lines: seq<Line>, k: nat, part: seq<Line>, j: nat)
    requires k + |part| <= |lines| && lines[k..k + |part|] == part && j < |part|
    ensures lines[k + j] == part[j]
  {
    assert lines[k..k + |part|][j] == lines[k + j];
  }

  lemma FixedStepAt(f: nat -> seq<Line>, st: Settings, lines: seq<Line>, k: nat, part: seq<Line>, j: nat)
    requires k + |part| <= |lines| && lines[k..k + |part|] == part && NoEntry(part) && j < |part| && IsOut(f, st, lines)
    ensures IsLink(f, FixedParts(st, part)[j], k + 1 * j, 1)
  {
    LinesAt(lines, k, part, j);
    NoEntryAt(part, j);
    FixedLink(f, st, lines, k + j, part[j]);
  }

  lemma NoEntryAt(part: seq<Line>, j: nat)
    requires NoEntry(part) && j < |part|
    ensures !IsEntry(part[j])
  {
  }

  lemma FixedLink(f: nat -> seq<Line>, st: Settings, lines: seq<Line>, k: nat, line: Line)
    requires k < |lines| && line == lines[k] && !IsEntry(line) && IsOut(f, st, lines)
    ensures IsLink(f, OneLine(st, line, 0).out, k, 1)
  {
    FixedStep(st, lines, k, line);
    assert At(k) && At(k + 1);
  }

  lemma FixedChain(f: nat -> seq<Line>, st: Settings, lines: seq<Line>, k: nat, part: seq<Line>)
    requires k + |part| <= |lines| && lines[k..k + |part|] == part && NoEntry(part) && IsOut(f, st, lines)
    ensures IsChain(f, FixedParts(st, part), k, 1)
  {
    var parts := FixedParts(st, part);
    forall j | 0 <= j < |parts| ensures IsLink(f, parts[j], k + 1 * j, 1) {
      FixedStepAt(f, st, lines, k, part, j);
    }
  }

  lemma KeyLineParses(key: string)
    requires IsName(key)
    ensures IsEntry(INDENT + "- key: " + key) && ParseKey(INDENT + "- key: " + key) == Some((INDENT, key))
  {
    var line := INDENT + "- key: " + key;
    ParseKeyIff(line, INDENT, key);
    assert line == INDENT + ("- key: " + key);
    SkipSpacesOf(INDENT, "- key: " + key);
    assert LStrip(line)[..1] == "-";
  }

  lemma OtherLine(line: Line, word: string)
    requires StartsWith(line, INDENT + "  " + word) && word != "" && !IsSpace(word[0]) && word[0] != '-' && word[0] != '#'
    ensures ParseKey(line).None? && !IsComment(line) && Continues(line, INDENT)
  {
    var rest := line[8..];
    assert line == INDENT + "  " + rest;
    assert rest[..|word|] == word;
    SkipSpacesOf(INDENT + "  ", rest);
    assert line[8] == word[0];
    assert line[..8] == INDENT + "  ";
    assert line[..9][8] == word[0];
  }

  lemma {:induction false} StripOf(a: string, b: string)
    requires AllSpace(a) && b != "" && !IsSpace(b[0]) && !IsSpace(b[|b| - 1])
    ensures Strip(a + b) == b
  {
    SkipSpacesOf(a, b);
    assert (a + b)[|a + b| - 1] == b[|b| - 1];
    assert (a + b)[|a|..] == b;
  }

  /** A rendered entry is taken as one item, and is exact. */
  lemma EnvBlockIsExact(b: seq<Line>, key: string, secret: bool)
    requires |b| == 4 && b[0] == INDENT + "- key: " + key && b[1] == INDENT + "  " + "scope: RUN_TIME"
    requires b[2] == INDENT + "  " + ("type: " + (if secret then "SECRET" else "GENERAL")) && b[3] == INDENT + "  value: " + Placeholder(key)
    ensures IsExact(b, key)
  {
    FirstLineIsNoValue(key);
    MiddleLineIsNoValue("scope: RUN_TIME");
    MiddleLineIsNoValue("type: " + (if secret then "SECRET" else "GENERAL"));
    LastLineIsTheValue(key);
    ValueLinesOfFour(b);
  }

  lemma FirstLineIsNoValue(key: string)
    ensures !StartsWith(Strip(INDENT + "- key: " + key), "value:")
  {
    var line := INDENT + "- key: " + key;
    StripKeepsHead(line, INDENT, "- key: " + key);
  }

  lemma MiddleLineIsNoValue(text: string)
    requires text != "" && text[0] in "st"
    ensures !IsValueLine(INDENT + "  " + text)
  {
    StripKeepsHead(INDENT + "  " + text, INDENT + "  ", text);
  }

  lemma LastLineIsTheValue(key: string)
    ensures var line := INDENT + "  value: " + Placeholder(key); IsValueLine(line) && Strip(line) == "value: " + Placeholder(key)
  {
    var v := "value: " + Placeholder(key);
    assert INDENT + "  value: " + Placeholder(key) == (INDENT + "  ") + v;
    StripOf(INDENT + "  ", v);
    assert v[..6] == "value:";
  }

  lemma ValueLinesOfFour(b: seq<Line>)
    requires |b| == 4 && !IsValueLine(b[0]) && !IsValueLine(b[1]) && !IsValueLine(b[2]) && IsValueLine(b[3])
    ensures ValueLines(b) == [b[3]]
  {
    assert b[..3][..2] == b[..2] && b[..2][..1] == b[..1] && b[..1][..0] == [];
    assert ValueLines(b[..1]) == [];
    assert ValueLines(b[..2]) == [];
    assert ValueLines(b[..3]) == [];
  }

  /** Stripping leaves the first visible character where it is. */
  lemma {:induction false} StripKeepsHead(line: string, a: string, b: string)
    requires line == a + b && AllSpace(a) && b != "" && !IsSpace(b[0])
    ensures Strip(line) != "" && Strip(line)[0] == b[0]
    decreases |b|
  {
    if IsSpace(line[|line| - 1]) {
      assert line[..|line| - 1] == a + b[..|b| - 1];
      StripKeepsHead(line[..|line| - 1], a, b[..|b| - 1]);
    } else {
      SkipSpacesOf(a, b);
    }
  }

  lemma EnvBlockEnds(lines: seq<Line>, k: nat, key: string, secret: bool, rest: seq<Line>)
    requires k <= |lines| && lines[k..] == EnvBlock(key, secret) + rest && IsName(key)
    requires rest != [] ==> !Continues(rest[0], INDENT)
    ensures k + 4 <= |lines| && lines[k..k + 4] == EnvBlock(key, secret) && lines[k + 4..] == rest
    ensures IsEntry(lines[k]) && ParseKey(lines[k]).value.1 == key && ItemEnd(lines, k) == k + 4
  {
    var b := EnvBlock(key, secret);
    Suffix(lines, k, b, rest);
    FourLines(lines, k, b);
    assert rest != [] ==> lines[k + 4] == lines[k + 4..][0];
    KeyLineParses(key);
    ContinuingLines(b, key, secret);
    BlockEndsAfterThree(lines, k + 1);
  }

  lemma FourLines(lines: seq<Line>, k: nat, b: seq<Line>)
    requires k + 4 <= |lines| && |b| == 4 && lines[k..k + 4] == b
    ensures lines[k] == b[0] && lines[k + 1] == b[1] && lines[k + 2] == b[2] && lines[k + 3] == b[3]
  {
    var four := lines[k..k + 4];
    assert four[0] == lines[k] && four[1] == lines[k + 1] && four[2] == lines[k + 2] && four[3] == lines[k + 3];
  }

  lemma ContinuingLines(b: seq<Line>, key: string, secret: bool)
    requires b == EnvBlock(key, secret)
    ensures Continues(b[1], INDENT) && Continues(b[2], INDENT) && Continues(b[3], INDENT)
  {
    ContinuingLine(b[1], "scope", ": RUN_TIME");
    ContinuingLine(b[2], "type", ": " + (if secret then "SECRET" else "GENERAL"));
    ContinuingLine(b[3], "value", ": " + Placeholder(key));
  }

  lemma ContinuingLine(line: Line, word: string, rest: string)
    requires line == INDENT + "  " + (word + rest) && word != "" && !IsSpace(word[0]) && word[0] != '-' && word[0] != '#'
    ensures Continues(line, INDENT)
  {
    assert line[..8 + |word|] == INDENT + "  " + word;
    OtherLine(line, word);
  }

  lemma BlockEndsAfterThree(lines: seq<Line>, k: nat)
    requires k + 3 <= |lines| && Continues(lines[k], INDENT) && Continues(lines[k + 1], INDENT) && Continues(lines[k + 2], INDENT)
    requires k + 3 < |lines| ==> !Continues(lines[k + 3], INDENT)
    ensures BlockEnd(lines, k, INDENT) == k + 3
  {
    assert BlockEnd(lines, k + 3, INDENT) == k + 3;
    assert BlockEnd(lines, k + 2, INDENT) == k + 3;
    assert BlockEnd(lines, k + 1, INDENT) == k + 3;
  }

  predicate NamesAreUpperCase(rows: seq<Row>) {
    forall k :: 0 <= k < |rows| ==> IsName(rows[k].name)
  }

  lemma KeyLineEndsABlock(key: string)
    ensures !Continues(INDENT + "- key: " + key, INDENT)
  {
    var line := INDENT + "- key: " + key;
    assert line[6] == '-' && line[..8][6] == '-';
    assert (INDENT + "  ")[6] == ' ';
  }

  lemma WhatFollows(rows: seq<Row>, rest: seq<Line>)
    requires rest != [] ==> !Continues(rest[0], INDENT)
    ensures var more := EnvBlocks(rows) + rest; more != [] ==> !Continues(more[0], INDENT)
  {
    if rows == [] {
      assert EnvBlocks(rows) + rest == rest;
    } else {
      KeyLineEndsABlock(rows[0].name);
      assert (EnvBlocks(rows) + rest)[0] == INDENT + "- key: " + rows[0].name;
    }
  }

  ghost function EnvParts(st: Settings, rows: seq<Row>): seq<seq<Line>> {
    seq(|rows|, j requires 0 <= j < |rows| => EntryOut(st, rows[j]))
  }

  lemma {:induction false} FlatEnvs(st: Settings, rows: seq<Row>)
    ensures Flat(EnvParts(st, rows)) == EnvOut(st, rows)
    decreases |rows|
  {
    if rows != [] {
      assert EnvParts(st, rows)[1..] == EnvParts(st, rows[1..]);
      FlatEnvs(st, rows[1..]);
    }
  }

  /** The entries from the `j`th on, and what follows them. */
  lemma {:induction false} EnvSuffix(lines: seq<Line>, k: nat, rows: seq<Row>, rest: seq<Line>, j: nat)
    requires k <= |lines| && lines[k..] == EnvBlocks(rows) + rest && j <= |rows|
    ensures k + 4 * j <= |lines| && lines[k + 4 * j..] == EnvBlocks(rows[j..]) + rest
    decreases j
  {
    if j == 0 {
      assert rows[0..] == rows;
    } else {
      EnvSuffix(lines, k, rows, rest, j - 1);
      var r := rows[j - 1];
      assert rows[j - 1..][1..] == rows[j..];
      assert EnvBlocks(rows[j - 1..]) + rest == EnvBlock(r.name, r.secret) + (EnvBlocks(rows[j..]) + rest);
      Suffix(lines, k + 4 * (j - 1), EnvBlock(r.name, r.secret), EnvBlocks(rows[j..]) + rest);
    }
  }

  /** At line `k` stands the rendered entry of `r`. */
  ghost predicate IsEntryOf(lines: seq<Line>, k: nat, r: Row) {
    && k + 4 <= |lines| && lines[k..k + 4] == EnvBlock(r.name, r.secret)
    && IsEntry(lines[k]) && ParseKey(lines[k]).value.1 == r.name && ItemEnd(lines, k) == k + 4
  }

  lemma EntryStands(lines: seq<Line>, k: nat, r: Row, rest: seq<Line>)
    requires k <= |lines| && lines[k..] == EnvBlock(r.name, r.secret) + rest && IsName(r.name)
    requires rest != [] ==> !Continues(rest[0], INDENT)
    ensures IsEntryOf(lines, k, r)
  {
    EnvBlockEnds(lines, k, r.name, r.secret, rest);
  }

  lemma EntryWalk(st: Settings, lines: seq<Line>, k: nat, r: Row)
    requires IsEntryOf(lines, k, r)
    ensures Walk(st, lines, k).out == EntryOut(st, r) + Walk(st, lines, k + 4).out
  {
    EntryIsExact(lines, k, r);
    OneEntryOut(st, lines, k, r);
  }

  lemma EntryIsExact(lines: seq<Line>, k: nat, r: Row)
    requires IsEntryOf(lines, k, r)
    ensures IsExact(lines[k..k + 4], r.name)
  {
    BlockIsExact(lines[k..k + 4], r);
  }

  lemma BlockIsExact(b: seq<Line>, r: Row)
    requires b == EnvBlock(r.name, r.secret)
    ensures IsExact(b, r.name)
  {
    EnvBlockIsExact(b, r.name, r.secret);
  }

  lemma EntryLink(f: nat -> seq<Line>, st: Settings, lines: seq<Line>, k: nat, r: Row)
    requires IsEntryOf(lines, k, r) && IsOut(f, st, lines)
    ensures IsLink(f, EntryOut(st, r), k, 4)
  {
    EntryWalk(st, lines, k, r);
    assert At(k) && At(k + 4);
  }

  lemma EnvFrom(lines: seq<Line>, k: nat, rows: seq<Row>, rest: seq<Line>, j: nat) returns (more: seq<Line>)
    requires k <= |lines| && lines[k..] == EnvBlocks(rows) + rest && j < |rows|
    requires rest != [] ==> !Continues(rest[0], INDENT)
    ensures k + 4 * j <= |lines| && lines[k + 4 * j..] == EnvBlock(rows[j].name, rows[j].secret) + more
    ensures more != [] ==> !Continues(more[0], INDENT)
  {
    EnvSuffix(lines, k, rows, rest, j);
    var from := rows[j..];
    assert from[0] == rows[j] && from[1..] == rows[j + 1..];
    more := EnvBlocks(rows[j + 1..]) + rest;
    WhatFollows(rows[j + 1..], rest);
  }

  /** Every row's entry stands in its place. */
  ghost predicate EntriesStand(lines: seq<Line>, k: nat, rows: seq<Row>) {
    forall j :: 0 <= j < |rows| ==> IsEntryOf(lines, k + 4 * j, rows[j])
  }

  lemma EnvBlocksStand(lines: seq<Line>, k: nat, rows: seq<Row>, rest: seq<Line>)
    requires k <= |lines| && lines[k..] == EnvBlocks(rows) + rest && NamesAreUpperCase(rows)
    requires rest != [] ==> !Continues(rest[0], INDENT)
    ensures EntriesStand(lines, k, rows)
  {
    forall j | 0 <= j < |rows| ensures IsEntryOf(lines, k + 4 * j, rows[j]) {
      var more := EnvFrom(lines, k, rows, rest, j);
      EntryStands(lines, k + 4 * j, rows[j], more);
    }
  }

  lemma EnvChain(f: nat -> seq<Line>, st: Settings, lines: seq<Line>, k: nat, rows: seq<Row>)
    requires EntriesStand(lines, k, rows) && IsOut(f, st, lines)
    ensures IsChain(f, EnvParts(st, rows), k, 4)
  {
    var parts := EnvParts(st, rows);
    forall j | 0 <= j < |parts| ensures IsLink(f, parts[j], k + 4 * j, 4) {
      EntryLink(f, st, lines, k + 4 * j, rows[j]);
    }
  }

  lemma OneEntryOut(st: Settings, lines: seq<Line>, k: nat, r: Row)
    requires IsEntryOf(lines, k, r) && IsExact(lines[k..k + 4], r.name)
    ensures Walk(st, lines, k).out == EntryOut(st, r) + Walk(st, lines, k + 4).out
  {
  }

  // ---------------------------------------------------------------- the whole template

  predicate IsLayout(l: Layout) {
    && NoEntry(l.head) && NoEntry(l.web) && NoEntry(PartLines(l.redis)) && NoEntry(l.worker)
    && l.web != [] && !Continues(l.web[0], INDENT)
    && !Continues(PartLines(l.redis)[0], INDENT)
    && l.worker != [] && !Continues(l.worker[0], INDENT)
  }

  lemma FixedStretch(f: nat -> seq<Line>, st: Settings, lines: seq<Line>, k: nat, part: seq<Line>, rest: seq<Line>)
    requires k <= |lines| && lines[k..] == part + rest && NoEntry(part) && IsOut(f, st, lines)
    ensures k + |part| <= |lines| && lines[k + |part|..] == rest && f(k) == FixedOut(st, part) + f(k + |part|)
  {
    Suffix(lines, k, part, rest);
    FixedChain(f, st, lines, k, part);
    Chain(f, FixedParts(st, part), k, 1);
    FlatFixed(st, part);
  }

  lemma EnvStretch(f: nat -> seq<Line>, st: Settings, lines: seq<Line>, k: nat, rows: seq<Row>, rest: seq<Line>)
    requires k <= |lines| && lines[k..] == EnvBlocks(rows) + rest && NamesAreUpperCase(rows) && IsOut(f, st, lines)
    requires rest != [] ==> !Continues(rest[0], INDENT)
    ensures k + 4 * |rows| <= |lines| && lines[k + 4 * |rows|..] == rest && f(k) == EnvOut(st, rows) + f(k + 4 * |rows|)
  {
    EnvBlocksStand(lines, k, rows, rest);
    EnvOutFrom(f, st, lines, k, rows);
    EnvEnd(lines, k, rows, rest);
  }

  lemma EnvOutFrom(f: nat -> seq<Line>, st: Settings, lines: seq<Line>, k: nat, rows: seq<Row>)
    requires EntriesStand(lines, k, rows) && IsOut(f, st, lines)
    ensures f(k) == EnvOut(st, rows) + f(k + 4 * |rows|)
  {
    EnvChain(f, st, lines, k, rows);
    Chain(f, EnvParts(st, rows), k, 4);
    FlatEnvs(st, rows);
  }

  lemma EnvEnd(lines: seq<Line>, k: nat, rows: seq<Row>, rest: seq<Line>)
    requires k <= |lines| && lines[k..] == EnvBlocks(rows) + rest
    ensures k + 4 * |rows| <= |lines| && lines[k + 4 * |rows|..] == rest
  {
    EnvSuffix(lines, k, rows, rest, |rows|);
    NoBlocks(rows[|rows|..], rest);
  }

  lemma NoBlocks(none: seq<Row>, rest: seq<Line>)
    requires |none| == 0
    ensures EnvBlocks(none) + rest == rest
  {
  }

  function Resolved(st: Settings, l: Layout, rows: seq<Row>): seq<Line> {
    BeforeRedis(st, l, rows) + (FixedOut(st, PartLines(l.redis)) + AfterRedis(st, l, rows))
  }

  function BeforeRedis(st: Settings, l: Layout, rows: seq<Row>): seq<Line> {
    ServicesOut(st, l, AppEnvRows(rows), WebRows(ADMIN_WEB_ENV))
  }

  function AfterRedis(st: Settings, l: Layout, rows: seq<Row>): seq<Line> {
    WorkersOut(st, l, WorkerRows(AppEnvRows(rows)))
  }

  function ServicesOut(st: Settings, l: Layout, api: seq<Row>, web: seq<Row>): seq<Line> {
    FixedOut(st, l.head) + (EnvOut(st, api) + (FixedOut(st, l.web) + EnvOut(st, web)))
  }

  function WorkersOut(st: Settings, l: Layout, worker: seq<Row>): seq<Line> {
    FixedOut(st, l.worker) + (EnvOut(st, worker) + [""])
  }

  lemma EmptyLine(st: Settings)
    ensures NoEntry([""]) && !Continues("", INDENT) && FixedOut(st, [""]) == [""]
  {
    assert OneLine(st, "", 0).out == [""];
    assert [""][1..] == [];
  }

  /** The rendered template, resolved: component by component. */
  lemma RenderResolves(st: Settings, l: Layout, rows: seq<Row>)
    requires IsLayout(l) && NamesAreUpperCase(AppEnvRows(rows)) && NamesAreUpperCase(WorkerRows(AppEnvRows(rows)))
    requires NamesAreUpperCase(WebRows(ADMIN_WEB_ENV))
    ensures Walk(st, Render(l, rows), 0).out == Resolved(st, l, rows)
  {
    var lines := Render(l, rows);
    var f := OutFrom(st, lines);
    var api, web, worker := AppEnvRows(rows), WebRows(ADMIN_WEB_ENV), WorkerRows(AppEnvRows(rows));
    assert At(0) && At(|lines|);
    AssembleOut(f, st, l, lines, api, web, worker);
  }

  lemma AssembleOut(f: nat -> seq<Line>, st: Settings, l: Layout, lines: seq<Line>, api: seq<Row>, web: seq<Row>, worker: seq<Row>)
    requires IsLayout(l) && IsOut(f, st, lines) && f(|lines|) == []
    requires NamesAreUpperCase(api) && NamesAreUpperCase(web) && NamesAreUpperCase(worker)
    requires lines == l.head + (EnvBlocks(api) + (l.web + (EnvBlocks(web) + (PartLines(l.redis) + (l.worker + (EnvBlocks(worker) + [""]))))))
    ensures f(0) == (FixedOut(st, l.head) + (EnvOut(st, api) + (FixedOut(st, l.web) + EnvOut(st, web))))
                   + (FixedOut(st, PartLines(l.redis)) + (FixedOut(st, l.worker) + (EnvOut(st, worker) + [""])))
  {
    var r5 := PartLines(l.redis) + (l.worker + (EnvBlocks(worker) + [""]));
    var k := FrontHalf(f, st, l, lines, api, web, r5);
    BackHalf(f, st, l, lines, k, worker);
  }

  lemma FrontHalf(f: nat -> seq<Line>, st: Settings, l: Layout, lines: seq<Line>, api: seq<Row>, web: seq<Row>, rest: seq<Line>) returns (k: nat)
    requires IsLayout(l) && IsOut(f, st, lines) && NamesAreUpperCase(api) && NamesAreUpperCase(web)
    requires lines == l.head + (EnvBlocks(api) + (l.web + (EnvBlocks(web) + rest))) && rest != [] && !Continues(rest[0], INDENT)
    ensures k <= |lines| && lines[k..] == rest
    ensures f(0) == (FixedOut(st, l.head) + (EnvOut(st, api) + (FixedOut(st, l.web) + EnvOut(st, web)))) + f(k)
  {
    assert lines[0..] == lines;
    var r3 := l.web + (EnvBlocks(web) + rest);
    FirstStays(l.web, EnvBlocks(web) + rest);
    var k2 := FixedThenEnvs(f, st, lines, 0, l.head, api, r3);
    k := FixedThenEnvs(f, st, lines, k2, l.web, web, rest);
    Glue4(FixedOut(st, l.head), EnvOut(st, api), FixedOut(st, l.web), EnvOut(st, web), f(k));
  }

  lemma FixedThenEnvs(f: nat -> seq<Line>, st: Settings, lines: seq<Line>, k: nat, part: seq<Line>, rows: seq<Row>, rest: seq<Line>) returns (end: nat)
    requires k <= |lines| && lines[k..] == part + (EnvBlocks(rows) + rest)
    requires NoEntry(part) && NamesAreUpperCase(rows) && IsOut(f, st, lines) && rest != [] && !Continues(rest[0], INDENT)
    ensures end <= |lines| && lines[end..] == rest && f(k) == FixedOut(st, part) + (EnvOut(st, rows) + f(end))
  {
    FixedStretch(f, st, lines, k, part, EnvBlocks(rows) + rest);
    EnvStretch(f, st, lines, k + |part|, rows, rest);
    end := k + |part| + 4 * |rows|;
  }

  lemma FirstStays(a: seq<Line>, b: seq<Line>)
    requires a != []
    ensures (a + b)[0] == a[0]
  {
  }

  lemma Glue4(a: seq<Line>, b: seq<Line>, c: seq<Line>, d: seq<Line>, e: seq<Line>)
    ensures a + (b + (c + (d + e))) == (a + (b + (c + d))) + e
  {
  }

  lemma BackHalf(f: nat -> seq<Line>, st: Settings, l: Layout, lines: seq<Line>, k: nat, worker: seq<Row>)
    requires IsLayout(l) && IsOut(f, st, lines) && f(|lines|) == [] && NamesAreUpperCase(worker)
    requires k <= |lines| && lines[k..] == PartLines(l.redis) + (l.worker + (EnvBlocks(worker) + [""]))
    ensures f(k) == FixedOut(st, PartLines(l.redis)) + (FixedOut(st, l.worker) + (EnvOut(st, worker) + [""]))
  {
    EmptyLine(st);
    var redis := PartLines(l.redis);
    FixedStretch(f, st, lines, k, redis, l.worker + (EnvBlocks(worker) + [""]));
    var k1 := k + |redis|;
    var k3 := FixedThenEnvs(f, st, lines, k1, l.worker, worker, [""]);
    assert [""] + [] == [""];
    FixedStretch(f, st, lines, k3, [""], []);
    assert k3 + 1 == |lines|;
  }

  // ---------------------------------------------------------------- every row's entry is come by

  lemma {:induction false} ComesOn(lines: seq<Line>, k: nat, j: nat)
    requires k <= |lines| && ComesBy(lines, k, j) && j < |lines| && ItemEnd(lines, j) < |lines|
    ensures ComesBy(lines, k, ItemEnd(lines, j))
    decreases |lines| - k
  {
    if j == k {
      assert ComesBy(lines, ItemEnd(lines, k), ItemEnd(lines, k));
    } else {
      ComesOn(lines, ItemEnd(lines, k), j);
    }
  }

  lemma {:induction false} ComesByFixed(lines: seq<Line>, part: seq<Line>, rest: seq<Line>, j: nat)
    requires lines == part + rest && NoEntry(part) && rest != [] && j <= |part|
    ensures ComesBy(lines, 0, j)
    decreases j
  {
    if j > 0 {
      ComesByFixed(lines, part, rest, j - 1);
      assert lines[j - 1] == part[j - 1];
      assert ItemEnd(lines, j - 1) == j;
      ComesOn(lines, 0, j - 1);
    }
  }

  lemma {:induction false} ComesByEntries(lines: seq<Line>, k: nat, rows: seq<Row>, j: nat)
    requires EntriesStand(lines, k, rows) && k < |lines| && ComesBy(lines, 0, k) && j < |rows|
    ensures k + 4 * j < |lines| && ComesBy(lines, 0, k + 4 * j)
    decreases j
  {
    assert IsEntryOf(lines, k + 4 * j, rows[j]);
    if j > 0 {
      ComesByEntries(lines, k, rows, j - 1);
      assert IsEntryOf(lines, k + 4 * (j - 1), rows[j - 1]);
      ComesOn(lines, 0, k + 4 * (j - 1));
    }
  }

  /** Of a template of such fixed lines, the walk comes by the entry of every row of the API. */
  lemma RowHasEntry(l: Layout, rows: seq<Row>, r: Row)
    requires IsLayout(l) && NamesAreUpperCase(AppEnvRows(rows)) && r in AppEnvRows(rows)
    ensures HasEntry(Render(l, rows), 0, r.name)
  {
    var lines, api := Render(l, rows), AppEnvRows(rows);
    var rest := RestOf(l, api);
    ApiStands(l.head, api, rest, lines);
    var j :| 0 <= j < |api| && api[j] == r;
    EntryComesBy(lines, |l.head|, api, j);
  }

  /** What stands after the API's entries. */
  lemma RestOf(l: Layout, api: seq<Row>) returns (rest: seq<Line>)
    requires IsLayout(l)
    ensures rest == l.web + (EnvBlocks(WebRows(ADMIN_WEB_ENV)) + (PartLines(l.redis) + (l.worker + (EnvBlocks(WorkerRows(api)) + [""]))))
    ensures rest != [] && !Continues(rest[0], INDENT)
  {
    var more := EnvBlocks(WebRows(ADMIN_WEB_ENV)) + (PartLines(l.redis) + (l.worker + (EnvBlocks(WorkerRows(api)) + [""])));
    FirstStays(l.web, more);
    rest := l.web + more;
  }

  lemma ApiStands(head: seq<Line>, api: seq<Row>, rest: seq<Line>, lines: seq<Line>)
    requires lines == head + (EnvBlocks(api) + rest) && NoEntry(head) && NamesAreUpperCase(api)
    requires rest != [] && !Continues(rest[0], INDENT)
    ensures |head| < |lines| && ComesBy(lines, 0, |head|) && EntriesStand(lines, |head|, api)
  {
    assert lines[0..] == lines;
    Suffix(lines, 0, head, EnvBlocks(api) + rest);
    EnvBlocksStand(lines, |head|, api, rest);
    ComesByFixed(lines, head, EnvBlocks(api) + rest, |head|);
  }

  lemma EntryComesBy(lines: seq<Line>, k: nat, rows: seq<Row>, j: nat)
    requires EntriesStand(lines, k, rows) && k < |lines| && ComesBy(lines, 0, k) && j < |rows|
    ensures HasEntry(lines, 0, rows[j].name)
  {
    assert IsEntryOf(lines, k + 4 * j, rows[j]);
    ComesByEntries(lines, k, rows, j);
    EntryIsExact(lines, k + 4 * j, rows[j]);
    assert IsEntryAt(lines, k + 4 * j, rows[j].name);
  }

  // ---------------------------------------------------------------- which rows

  lemma {:induction false} AppEnvIs(rows: seq<Row>, r: Row)
    ensures r in AppEnvRows(rows) <==> r in rows && r.rule != Forbidden && r.group != "backup"
    decreases |rows|
  {
    if rows != [] {
      AppEnvIs(rows[1..], r);
      assert rows == [rows[0]] + rows[1..];
    }
  }

  lemma {:induction false} WorkerIs(rows: seq<Row>, r: Row)
    ensures r in WorkerRows(rows) <==> r in rows && r.name != "LESSON_APPROVALS_SIGNING_KEY"
    decreases |rows|
  {
    if rows != [] {
      WorkerIs(rows[1..], r);
      assert rows == [rows[0]] + rows[1..];
    }
  }

  lemma {:induction false} WebIs(keys: seq<string>, r: Row)
    ensures r in WebRows(keys) <==> r.name in keys && r == Row(r.name, "", false, Required)
    decreases |keys|
  {
    if keys != [] {
      WebIs(keys[1..], r);
      assert keys == [keys[0]] + keys[1..];
    }
  }

  /** In the manifest each name has one row, whose rule `rules` then has. */
  lemma {:induction false} RuleIs(rows: seq<Row>, r: Row)
    requires r in rows && forall i, j :: 0 <= i < j < |rows| ==> rows[i].name != rows[j].name
    ensures r.name in RulesOf(rows) && RulesOf(rows)[r.name] == r.rule
    decreases |rows|
  {
    var front, last := rows[..|rows| - 1], rows[|rows| - 1];
    assert rows == front + [last];
    if r != last {
      RuleIs(front, r);
      var i :| 0 <= i < |front| && front[i] == r;
      assert rows[i] == r;
    }
  }
}
