/**
  * Which keys each component of the resolved spec has, and that launch takes out the
  * Redis component and nothing else.
  */
module AppSpecLaunch {
  import opened Options
  import opened AppSpec
  import opened AppSpecText
  import opened AppSpecKeys

  // ---------------------------------------------------------------- keys

  predicate IsComponentName(s: string) {
    s != "" && forall k :: 0 <= k < |s| ==> 'a' <= s[k] <= 'z' || s[k] == '-'
  }

  function ComponentOf(line: Line): Option<string> {
    if StartsWith(line, NameLine("")) && IsComponentName(line[10..]) then Some(line[10..]) else None
  }

  /** The component a line stands in, after `c`. */
  function Now(c: Option<string>, line: Line): Option<string> {
    if ComponentOf(line).Some? then ComponentOf(line) else c
  }

  /** What `blocks` yields of an env entry: its component, its key and its type. */
  datatype Env = Env(component: Option<string>, key: string, kind: Option<string>)

  predicate IsTypeWord(s: string) {
    s != "" && forall k :: 0 <= k < |s| ==> 'a' <= s[k] <= 'z' || 'A' <= s[k] <= 'Z' || '0' <= s[k] <= '9' || s[k] == '_'
  }

  function TypeOf(line: Line): Option<string> {
    var n := SkipSpaces(line);
    if StartsWith(line[n..], "type: ") && IsTypeWord(line[n + 6..]) then Some(line[n + 6..]) else None
  }

  /** A component's line, both ways: its name of small letters and dashes. */
  lemma ComponentIff(line: Line, name: string)
    ensures ComponentOf(line) == Some(name)
            <==> line == "  - name: " + name && name != "" && forall c :: c in name ==> 0x61 <= c as int <= 0x7A || c as int == 0x2D
  {
    forall k | 0 <= k < |name| ensures name[k] in name {}
    if StartsWith(line, NameLine("")) {
      assert line == line[..10] + line[10..] && line[..10] == "  - name: ";
    }
    if line == "  - name: " + name {
      assert line[..10] == NameLine("") && line[10..] == name;
    }
  }

  predicate IsWordCode(c: char) {
    0x30 <= c as int <= 0x39 || 0x41 <= c as int <= 0x5A || c as int == 0x5F || 0x61 <= c as int <= 0x7A
  }

  /** A type's line, both ways. */
  lemma TypeIff(line: Line, kind: string)
    ensures TypeOf(line) == Some(kind)
            <==> kind != "" && (forall c :: c in kind ==> IsWordCode(c)) && exists indent :: AllSpace(indent) && line == indent + ("type: " + kind)
  {
    TypeWordIff(kind);
    if TypeOf(line) == Some(kind) {
      TypeSplits(line, kind);
    }
    if indent :| AllSpace(indent) && line == indent + ("type: " + kind) {
      TypeStands(line, indent, kind);
    }
  }

  lemma TypeWordIff(kind: string)
    ensures IsTypeWord(kind) <==> kind != "" && forall c :: c in kind ==> IsWordCode(c)
  {
    forall k | 0 <= k < |kind| ensures kind[k] in kind {}
  }

  lemma TypeSplits(line: Line, kind: string)
    requires TypeOf(line) == Some(kind)
    ensures exists indent :: AllSpace(indent) && line == indent + ("type: " + kind)
  {
    var n := SkipSpaces(line);
    assert AllSpace(line[..n]) && line[n..][..6] == "type: ";
    assert line == line[..n] + ("type: " + kind);
  }

  lemma TypeStands(line: Line, indent: string, kind: string)
    requires AllSpace(indent) && line == indent + ("type: " + kind)
    ensures TypeOf(line) == if IsTypeWord(kind) then Some(kind) else None
  {
    var rest := "type: " + kind;
    SkipSpacesOf(indent, rest);
    assert line[|indent|..] == rest && line[|indent| + 6..] == kind;
  }

  /** The first line's key, if two more lines follow it. */
  function KeyHere(now: Option<string>, lines: seq<Line>): seq<Env> {
    if |lines| > 2 && ParseKey(lines[0]).Some? then [Env(now, ParseKey(lines[0]).value.1, TypeOf(lines[2]))] else []
  }

  /** blocks: every such key; `c` is the component before the first line. */
  function KeysFrom(c: Option<string>, lines: seq<Line>): seq<Env>
    decreases |lines|
  {
    if lines == [] then [] else KeyHere(Now(c, lines[0]), lines) + KeysFrom(Now(c, lines[0]), lines[1..])
  }

  function After(c: Option<string>, lines: seq<Line>): Option<string>
    decreases |lines|
  {
    if lines == [] then c else After(Now(c, lines[0]), lines[1..])
  }

  /** No key among the last two lines. */
  predicate IsSettled(a: seq<Line>) {
    forall k :: 0 <= k < |a| && |a| <= k + 2 ==> ParseKey(a[k]).None?
  }

  /** After component `c` these lines have these keys, and end in component `now`. */
  predicate Gives(c: Option<string>, lines: seq<Line>, keys: seq<Env>, now: Option<string>) {
    IsSettled(lines) && KeysFrom(c, lines) == keys && After(c, lines) == now
  }

  lemma TailOfBoth(a: seq<Line>, b: seq<Line>)
    requires a != []
    ensures (a + b)[0] == a[0] && (a + b)[1..] == a[1..] + b
  {
  }

  lemma KeysUnfold(c: Option<string>, a: seq<Line>)
    requires a != []
    ensures var now := Now(c, a[0]);
            KeysFrom(c, a) == KeyHere(now, a) + KeysFrom(now, a[1..]) && After(c, a) == After(now, a[1..])
  {
  }

  lemma SettledTail(a: seq<Line>)
    requires IsSettled(a) && a != []
    ensures IsSettled(a[1..])
  {
    var tail := a[1..];
    forall k | 0 <= k < |tail| && |tail| <= k + 2 ensures ParseKey(tail[k]).None? {
      assert tail[k] == a[k + 1];
    }
  }

  lemma KeyHereStays(now: Option<string>, a: seq<Line>, b: seq<Line>)
    requires IsSettled(a) && a != []
    ensures KeyHere(now, a + b) == KeyHere(now, a)
  {
    assert (a + b)[0] == a[0];
    assert |a| > 2 ==> (a + b)[2] == a[2];
  }

  lemma {:induction false} AfterBoth(c: Option<string>, a: seq<Line>, b: seq<Line>)
    ensures After(c, a + b) == After(After(c, a), b)
    decreases |a|
  {
    if a == [] {
      assert a + b == b;
    } else {
      TailOfBoth(a, b);
      AfterBoth(Now(c, a[0]), a[1..], b);
    }
  }

  lemma {:induction false} KeysAppend(c: Option<string>, a: seq<Line>, b: seq<Line>)
    requires IsSettled(a)
    ensures KeysFrom(c, a + b) == KeysFrom(c, a) + KeysFrom(After(c, a), b)
    decreases |a|
  {
    if a == [] {
      assert a + b == b;
    } else {
      var now := Now(c, a[0]);
      TailOfBoth(a, b);
      SettledTail(a);
      KeyHereStays(now, a, b);
      KeysAppend(now, a[1..], b);
      KeysUnfold(c, a);
      KeysUnfold(c, a + b);
    }
  }

  lemma Join(c: Option<string>, a: seq<Line>, ka: seq<Env>, now: Option<string>, b: seq<Line>, kb: seq<Env>, end: Option<string>)
    requires Gives(c, a, ka, now) && Gives(now, b, kb, end)
    ensures Gives(c, a + b, ka + kb, end)
  {
    KeysAppend(c, a, b);
    AfterBoth(c, a, b);
    forall k | 0 <= k < |a + b| && |a + b| <= k + 2 ensures ParseKey((a + b)[k]).None? {
      assert (a + b)[k] == if k < |a| then a[k] else b[k - |a|];
    }
  }

  function Kind(secret: bool): string {
    if secret then "SECRET" else "GENERAL"
  }

  /** The keys of one component that are set, in the manifest's order. */
  function SetKeys(st: Settings, c: Option<string>, rows: seq<Row>): seq<Env> {
    if rows == [] then []
    else (if IsSet(st, rows[0].name) then [Env(c, rows[0].name, Some(Kind(rows[0].secret)))] else []) + SetKeys(st, c, rows[1..])
  }

  ghost predicate QuotesInQuotes(st: Settings) {
    forall v :: st.quote(v) != "" && st.quote(v)[0] == '"'
  }

  lemma NoQuoteInKey(line: Line)
    requires ParseKey(line).Some?
    ensures '"' !in line
  {
    var (indent, key) := ParseKey(line).value;
    ParseKeyIff(line, indent, key);
    forall k | 0 <= k < |line| ensures line[k] != '"' {
      assert k < |indent| ==> line[k] == indent[k];
      assert k >= |indent| + 7 ==> line[k] == key[k - |indent| - 7];
    }
  }

  lemma NoMarkInComponent(line: Line)
    requires ComponentOf(line).Some?
    ensures '"' !in line && '$' !in line
  {
    assert line == line[..10] + line[10..];
    assert line[..10] == "  - name: ";
    forall k | 0 <= k < |line| ensures line[k] != '"' && line[k] != '$' {
      assert k >= 10 ==> line[k] == line[10..][k - 10];
      assert k < 10 ==> line[k] == line[..10][k];
    }
  }

  lemma CharDiffers(s: string, p: string, k: nat)
    requires k < |s| && k < |p| && s[k] != p[k]
    ensures !StartsWith(s, p)
  {
  }

  lemma CommentHasNoKey(line: Line)
    requires IsComment(line)
    ensures ParseKey(line).None?
  {
    var visible := LStrip(line);
    assert visible[0] == visible[..1][0] == '#';
    CharDiffers(visible, "- key: ", 0);
  }

  /** A fixed line keeps its component and brings no key. */
  lemma FixedLineKeys(st: Settings, line: Line)
    requires QuotesInQuotes(st) && !IsEntry(line)
    ensures var out := OneLine(st, line, 0).out; |out| == 1 && ParseKey(out[0]).None? && ComponentOf(out[0]) == ComponentOf(line)
  {
    var out := OneLine(st, line, 0).out;
    if IsComment(line) {
      CommentHasNoKey(line);
    }
    if out[0] != line {
      FilledLineKeys(st, line, out[0]);
    }
  }

  lemma FilledLineKeys(st: Settings, line: Line, out: Line)
    requires QuotesInQuotes(st) && ParseValue(line).Some? && out == ParseValue(line).value.0 + st.quote(ValueOf(st, ParseValue(line).value.1).0)
    ensures ParseKey(out).None? && ComponentOf(out) == None && ComponentOf(line) == None
  {
    var (prefix, name) := ParseValue(line).value;
    ParseValueMeans(line);
    assert line[|prefix|] == '$';
    assert out[|prefix|] == '"';
    if ParseKey(out).Some? {
      NoQuoteInKey(out);
    }
    if ComponentOf(out).Some? {
      NoMarkInComponent(out);
    }
    if ComponentOf(line).Some? {
      NoMarkInComponent(line);
    }
  }

  lemma NoEntryTail(part: seq<Line>)
    requires part != [] && NoEntry(part)
    ensures !IsEntry(part[0]) && NoEntry(part[1..])
  {
  }

  lemma {:induction false} FixedKeys(st: Settings, c: Option<string>, part: seq<Line>)
    requires QuotesInQuotes(st) && NoEntry(part)
    ensures Gives(c, FixedOut(st, part), [], After(c, part))
    decreases |part|
  {
    if part != [] {
      NoEntryTail(part);
      FixedLineKeys(st, part[0]);
      var out := OneLine(st, part[0], 0).out;
      FixedKeys(st, Now(c, part[0]), part[1..]);
      OneLineKeys(c, out[0]);
      assert out == [out[0]];
      Join(c, out, [], Now(c, part[0]), FixedOut(st, part[1..]), [], After(c, part));
    }
  }

  lemma OneLineKeys(c: Option<string>, line: Line)
    requires ParseKey(line).None?
    ensures Gives(c, [line], [], Now(c, line))
  {
    assert [line][1..] == [];
  }

  // ---------------------------------------------------------------- the keys of one entry

  predicate IsQuiet(line: Line) {
    ParseKey(line).None? && ComponentOf(line).None?
  }

  lemma KeyLineFilled(key: string, value: string)
    requires IsName(key)
    ensures var line := INDENT + "- key: " + key; Replaced(line, Placeholder(key), value) == line
  {
    var line := INDENT + "- key: " + key;
    forall k | 0 <= k < |line| ensures line[k] != '$' {
      assert k >= 13 ==> line[k] == key[k - 13];
    }
    NoneWithoutItsHead(line, Placeholder(key), value);
  }

  lemma DeepLine(line: Line)
    requires |line| > 8 && StartsWith(line, INDENT) && line[6] == ' '
    ensures ComponentOf(line).None?
  {
    assert line[2] == line[..6][2] == ' ';
    CharDiffers(line, NameLine(""), 2);
  }

  lemma KeyLineHasNoComponent(key: string)
    ensures ComponentOf(INDENT + "- key: " + key).None?
  {
    var line := INDENT + "- key: " + key;
    CharDiffers(line, NameLine(""), 2);
  }

  lemma OtherLineFilled(key: string, text: string, value: string)
    requires text != "" && !IsSpace(text[0]) && text[0] in "stv" && '$' !in text
    ensures var line := INDENT + "  " + text; Replaced(line, Placeholder(key), value) == line && IsQuiet(line)
  {
    var line := INDENT + "  " + text;
    assert '$' !in INDENT + "  ";
    NoneWithoutItsHead(line, Placeholder(key), value);
    QuietLine(line, text);
  }

  lemma QuietLine(line: Line, text: string)
    requires line == INDENT + "  " + text && text != "" && text[0] in "stv"
    ensures IsQuiet(line)
  {
    assert text[..1] == [text[0]];
    assert line[..9] == INDENT + "  " + text[..1];
    OtherLine(line, text[..1]);
    assert line[..6] == INDENT;
    DeepLine(line);
  }

  lemma ValueLineFilled(key: string, value: string)
    ensures var out := Replaced(INDENT + "  value: " + Placeholder(key), Placeholder(key), value);
            IsQuiet(out) && !IsTopComment(out)
  {
    var a := INDENT + "  value: ";
    assert a + Placeholder(key) == a + Placeholder(key) + "";
    ReplacedOnce(a, Placeholder(key), "", value);
    assert a + value + "" == INDENT + "  " + ("value: " + value);
    QuietLine(a + value + "", "value: " + value);
    CharDiffers(a + value + "", "  #", 2);
  }

  lemma FourLineKeys(c: Option<string>, b: seq<Line>, key: string, kind: Option<string>)
    requires |b| == 4 && ParseKey(b[0]).Some? && ParseKey(b[0]).value.1 == key && ComponentOf(b[0]).None? && TypeOf(b[2]) == kind
    requires IsQuiet(b[1]) && IsQuiet(b[2]) && IsQuiet(b[3])
    ensures Gives(c, b, [Env(c, key, kind)], c)
  {
    var b1, b2, b3 := b[1..], b[2..], b[3..];
    assert b1[1..] == b2 && b2[1..] == b3 && b3[1..] == [];
    QuietStep(c, b3);
    QuietStep(c, b2);
    QuietStep(c, b1);
    assert KeysFrom(c, b) == KeyHere(c, b) + KeysFrom(c, b1);
  }

  lemma QuietStep(c: Option<string>, b: seq<Line>)
    requires b != [] && IsQuiet(b[0])
    ensures KeysFrom(c, b) == KeysFrom(c, b[1..]) && After(c, b) == After(c, b[1..])
  {
  }

  function EntryKeys(st: Settings, c: Option<string>, r: Row): seq<Env> {
    if IsSet(st, r.name) then [Env(c, r.name, Some(Kind(r.secret)))] else []
  }

  lemma EntryGives(st: Settings, c: Option<string>, r: Row)
    requires IsName(r.name)
    ensures Gives(c, EntryOut(st, r), EntryKeys(st, c, r), c)
  {
    if IsSet(st, r.name) {
      var out := EntryOut(st, r);
      var v := st.quote(ValueOf(st, r.name).0);
      EntryLines(st, r, out, v);
      QuietEntry(r, out, v);
      FourLineKeys(c, out, r.name, Some(Kind(r.secret)));
    }
  }

  ghost predicate IsFilledEntry(r: Row, out: seq<Line>, v: string) {
    && |out| == 4
    && out[0] == Replaced(INDENT + "- key: " + r.name, Placeholder(r.name), v)
    && out[1] == Replaced(INDENT + "  " + "scope: RUN_TIME", Placeholder(r.name), v)
    && out[2] == Replaced(INDENT + "  " + ("type: " + Kind(r.secret)), Placeholder(r.name), v)
    && out[3] == Replaced(INDENT + "  value: " + Placeholder(r.name), Placeholder(r.name), v)
  }

  lemma QuietEntry(r: Row, out: seq<Line>, v: string)
    requires IsName(r.name) && IsFilledEntry(r, out, v)
    ensures ParseKey(out[0]).Some? && ParseKey(out[0]).value.1 == r.name && ComponentOf(out[0]).None?
    ensures IsQuiet(out[1]) && IsQuiet(out[2]) && IsQuiet(out[3]) && TypeOf(out[2]) == Some(Kind(r.secret)) && !IsTopComment(out[3])
  {
    QuietKey(r, out[0], v);
    QuietMiddle(r, out[1], out[2], v);
    ValueLineFilled(r.name, v);
  }

  lemma QuietKey(r: Row, line: Line, v: string)
    requires IsName(r.name) && line == Replaced(INDENT + "- key: " + r.name, Placeholder(r.name), v)
    ensures ParseKey(line).Some? && ParseKey(line).value.1 == r.name && ComponentOf(line).None?
  {
    KeyLineFilled(r.name, v);
    KeyLineParses(r.name);
    KeyLineHasNoComponent(r.name);
  }

  lemma QuietMiddle(r: Row, scope: Line, kind: Line, v: string)
    requires scope == Replaced(INDENT + "  " + "scope: RUN_TIME", Placeholder(r.name), v)
    requires kind == Replaced(INDENT + "  " + ("type: " + Kind(r.secret)), Placeholder(r.name), v)
    ensures IsQuiet(scope) && IsQuiet(kind) && TypeOf(kind) == Some(Kind(r.secret))
  {
    OtherLineFilled(r.name, "scope: RUN_TIME", v);
    QuietKind(r, kind, "type: " + Kind(r.secret), v);
  }

  lemma QuietKind(r: Row, kind: Line, text: string, v: string)
    requires text == "type: " + Kind(r.secret) && kind == Replaced(INDENT + "  " + text, Placeholder(r.name), v)
    ensures IsQuiet(kind) && TypeOf(kind) == Some(Kind(r.secret))
  {
    TypeText(r.secret);
    OtherLineFilled(r.name, text, v);
    TypeIsRead(Kind(r.secret));
  }

  lemma TypeText(secret: bool)
    ensures IsTypeWord(Kind(secret))
    ensures var text := "type: " + Kind(secret); text != "" && !IsSpace(text[0]) && text[0] in "stv" && '$' !in text
  {
  }

  lemma TypeIsRead(kind: string)
    requires IsTypeWord(kind)
    ensures TypeOf(INDENT + "  " + ("type: " + kind)) == Some(kind)
  {
    var rest := "type: " + kind;
    SkipSpacesOf(INDENT + "  ", rest);
    assert (INDENT + "  " + rest)[8..] == rest;
  }

  lemma EntryLines(st: Settings, r: Row, out: seq<Line>, v: string)
    requires IsSet(st, r.name) && v == st.quote(ValueOf(st, r.name).0) && out == EntryOut(st, r)
    ensures IsFilledEntry(r, out, v)
  {
    var b := EnvBlock(r.name, r.secret);
    assert b[2] == INDENT + "  " + ("type: " + Kind(r.secret));
    assert b[1] == INDENT + "  " + "scope: RUN_TIME";
  }

  lemma {:induction false} EnvKeys(st: Settings, c: Option<string>, rows: seq<Row>)
    requires NamesAreUpperCase(rows)
    ensures Gives(c, EnvOut(st, rows), SetKeys(st, c, rows), c)
    decreases |rows|
  {
    if rows != [] {
      EntryGives(st, c, rows[0]);
      EnvKeys(st, c, rows[1..]);
      Join(c, EntryOut(st, rows[0]), EntryKeys(st, c, rows[0]), c, EnvOut(st, rows[1..]), SetKeys(st, c, rows[1..]), c);
    }
  }

  // ---------------------------------------------------------------- the keys of the whole spec

  /** The components the fixed lines open. */
  ghost predicate OpensComponents(l: Layout) {
    && After(None, l.head) == Some("api")
    && (forall c :: After(c, l.web) == Some("admin-web"))
    && (forall c :: After(c, l.worker) == Some("worker"))
  }

  ghost predicate IsTemplate(st: Settings, l: Layout, rows: seq<Row>) {
    && IsLayout(l) && OpensComponents(l) && QuotesInQuotes(st)
    && NamesAreUpperCase(AppEnvRows(rows)) && NamesAreUpperCase(WorkerRows(AppEnvRows(rows))) && NamesAreUpperCase(WebRows(ADMIN_WEB_ENV))
  }

  function ServiceKeys(st: Settings, api: seq<Row>, web: seq<Row>): seq<Env> {
    SetKeys(st, Some("api"), api) + SetKeys(st, Some("admin-web"), web)
  }

  function AllKeys(st: Settings, rows: seq<Row>): seq<Env> {
    ServiceKeys(st, AppEnvRows(rows), WebRows(ADMIN_WEB_ENV)) + SetKeys(st, Some("worker"), WorkerRows(AppEnvRows(rows)))
  }

  /** A stretch of fixed lines and the entries after it. */
  lemma StretchKeys(st: Settings, c: Option<string>, part: seq<Line>, rows: seq<Row>, now: Option<string>)
    requires NoEntry(part) && After(c, part) == now && QuotesInQuotes(st) && NamesAreUpperCase(rows)
    ensures Gives(c, FixedOut(st, part) + EnvOut(st, rows), SetKeys(st, now, rows), now)
  {
    FixedKeys(st, c, part);
    EnvKeys(st, now, rows);
    Join(c, FixedOut(st, part), [], now, EnvOut(st, rows), SetKeys(st, now, rows), now);
    assert [] + SetKeys(st, now, rows) == SetKeys(st, now, rows);
  }

  lemma Glue(a: seq<Line>, b: seq<Line>, c: seq<Line>, d: seq<Line>)
    ensures a + (b + (c + d)) == (a + b) + (c + d)
  {
  }

  lemma KeysBefore(st: Settings, l: Layout, api: seq<Row>, web: seq<Row>)
    requires IsLayout(l) && OpensComponents(l) && QuotesInQuotes(st) && NamesAreUpperCase(api) && NamesAreUpperCase(web)
    ensures Gives(None, ServicesOut(st, l, api, web), ServiceKeys(st, api, web), Some("admin-web"))
  {
    var a, w := Some("api"), Some("admin-web");
    StretchKeys(st, None, l.head, api, a);
    StretchKeys(st, a, l.web, web, w);
    var x, y := FixedOut(st, l.head) + EnvOut(st, api), FixedOut(st, l.web) + EnvOut(st, web);
    Join(None, x, SetKeys(st, a, api), a, y, SetKeys(st, w, web), w);
    Glue(FixedOut(st, l.head), EnvOut(st, api), FixedOut(st, l.web), EnvOut(st, web));
  }

  lemma KeysAfter(st: Settings, l: Layout, worker: seq<Row>, c: Option<string>)
    requires IsLayout(l) && OpensComponents(l) && QuotesInQuotes(st) && NamesAreUpperCase(worker)
    ensures Gives(c, WorkersOut(st, l, worker), SetKeys(st, Some("worker"), worker), Some("worker"))
  {
    var w := Some("worker");
    StretchKeys(st, c, l.worker, worker, w);
    var x := FixedOut(st, l.worker) + EnvOut(st, worker);
    OneLineKeys(w, "");
    Join(c, x, SetKeys(st, w, worker), w, [""], [], w);
    assert WorkersOut(st, l, worker) == x + [""] && SetKeys(st, w, worker) + [] == SetKeys(st, w, worker);
  }

  /**
    * The resolved spec: the API has the manifest's allowed rows that are set, the worker
    * those that are not the API's alone, Admin Web its own, each of its own type, and
    * nothing else has a key.
    */
  lemma KeysAreTheManifests(st: Settings, l: Layout, rows: seq<Row>)
    requires IsTemplate(st, l, rows)
    ensures KeysFrom(None, Walk(st, Render(l, rows), 0).out) == AllKeys(st, rows)
  {
    RenderResolves(st, l, rows);
    SpecKeys(st, l, AppEnvRows(rows), WebRows(ADMIN_WEB_ENV), WorkerRows(AppEnvRows(rows)));
  }

  lemma SpecKeys(st: Settings, l: Layout, api: seq<Row>, web: seq<Row>, worker: seq<Row>)
    requires IsLayout(l) && OpensComponents(l) && QuotesInQuotes(st)
    requires NamesAreUpperCase(api) && NamesAreUpperCase(web) && NamesAreUpperCase(worker)
    ensures KeysFrom(None, ServicesOut(st, l, api, web) + (FixedOut(st, PartLines(l.redis)) + WorkersOut(st, l, worker)))
         == ServiceKeys(st, api, web) + SetKeys(st, Some("worker"), worker)
  {
    var a, w, last := Some("admin-web"), Some("worker"), SetKeys(st, Some("worker"), worker);
    var c, part := After(a, PartLines(l.redis)), FixedOut(st, PartLines(l.redis));
    KeysBefore(st, l, api, web);
    FixedKeys(st, a, PartLines(l.redis));
    KeysAfter(st, l, worker, c);
    Join(a, part, [], c, WorkersOut(st, l, worker), last, w);
    assert [] + last == last;
    Join(None, ServicesOut(st, l, api, web), ServiceKeys(st, api, web), a, part + WorkersOut(st, l, worker), last, w);
  }

  // ---------------------------------------------------------------- launch

  /** No line opens this component. */
  ghost predicate NotNamed(lines: seq<Line>, name: string) {
    forall k :: 0 <= k < |lines| ==> ComponentOf(lines[k]) != Some(name)
  }

  ghost predicate EndsInNoComment(lines: seq<Line>) {
    lines != [] ==> !IsTopComment(lines[|lines| - 1])
  }

  /**
    * The Redis component's fixed lines: comments, its name, lines that end nothing, then
    * the next end; the fixed lines before it open no component of its name.
    */
  ghost predicate IsRedisPart(l: Layout) {
    && (forall k :: 0 <= k < |l.redis.comments| ==> IsTopComment(l.redis.comments[k]))
    && (forall k :: 0 <= k < |l.redis.body| ==> !HasPlaceholder(l.redis.body[k]) && !EndsDrop(l.redis.body[k]))
    && IsComponentName(l.redis.name) && NotNamed(l.head, l.redis.name) && NotNamed(l.web, l.redis.name)
    && l.web != [] && !HasPlaceholder(l.web[|l.web| - 1]) && EndsInNoComment(l.web)
    && l.worker != [] && EndsDrop(l.worker[0]) && !HasPlaceholder(l.worker[0])
  }

  lemma NameLineNames(name: string)
    requires IsComponentName(name)
    ensures ComponentOf(NameLine(name)) == Some(name) && !HasPlaceholder(NameLine(name))
  {
    var line := NameLine(name);
    assert line[..10] == NameLine("") && line[10..] == name;
    NoMarkInComponent(line);
    assert forall k :: 0 <= k < |line| ==> !PlaceholderAt(line, k);
  }

  lemma NotNamedBoth(a: seq<Line>, b: seq<Line>, name: string)
    requires NotNamed(a, name) && NotNamed(b, name)
    ensures NotNamed(a + b, name)
  {
  }

  lemma {:induction false} FixedNotNamed(st: Settings, part: seq<Line>, name: string)
    requires QuotesInQuotes(st) && NoEntry(part) && NotNamed(part, name)
    ensures NotNamed(FixedOut(st, part), name) && |FixedOut(st, part)| == |part|
    ensures part != [] && !HasPlaceholder(part[|part| - 1]) ==> FixedOut(st, part)[|part| - 1] == part[|part| - 1]
    decreases |part|
  {
    if part != [] {
      NoEntryTail(part);
      FixedLineKeys(st, part[0]);
      FixedNotNamed(st, part[1..], name);
      NotNamedBoth(OneLine(st, part[0], 0).out, FixedOut(st, part[1..]), name);
    }
  }

  lemma EntryNotNamed(st: Settings, r: Row, name: string)
    requires IsName(r.name)
    ensures NotNamed(EntryOut(st, r), name) && EndsInNoComment(EntryOut(st, r))
  {
    if IsSet(st, r.name) {
      var out := EntryOut(st, r);
      var v := st.quote(ValueOf(st, r.name).0);
      EntryLines(st, r, out, v);
      QuietEntry(r, out, v);
      FourNotNamed(out, name);
    }
  }

  lemma FourNotNamed(b: seq<Line>, name: string)
    requires |b| == 4 && ComponentOf(b[0]).None? && IsQuiet(b[1]) && IsQuiet(b[2]) && IsQuiet(b[3])
    ensures NotNamed(b, name)
  {
  }

  lemma {:induction false} EnvNotNamed(st: Settings, rows: seq<Row>, name: string)
    requires NamesAreUpperCase(rows)
    ensures NotNamed(EnvOut(st, rows), name) && EndsInNoComment(EnvOut(st, rows))
    decreases |rows|
  {
    if rows != [] {
      EntryNotNamed(st, rows[0], name);
      EnvNotNamed(st, rows[1..], name);
      NotNamedBoth(EntryOut(st, rows[0]), EnvOut(st, rows[1..]), name);
    }
  }

  /** So its name stands nowhere before it, and no comment directly above its own. */
  lemma RedisIsNamedOnce(st: Settings, l: Layout, rows: seq<Row>)
    requires IsTemplate(st, l, rows) && IsRedisPart(l)
    ensures NameLine(l.redis.name) !in BeforeRedis(st, l, rows) && EndsInNoComment(BeforeRedis(st, l, rows))
  {
    var name, api, web := l.redis.name, AppEnvRows(rows), WebRows(ADMIN_WEB_ENV);
    FixedNotNamed(st, l.head, name);
    FixedNotNamed(st, l.web, name);
    EnvNotNamed(st, api, name);
    EnvNotNamed(st, web, name);
    NotNamedBoth(FixedOut(st, l.web), EnvOut(st, web), name);
    NotNamedBoth(EnvOut(st, api), FixedOut(st, l.web) + EnvOut(st, web), name);
    NotNamedBoth(FixedOut(st, l.head), EnvOut(st, api) + (FixedOut(st, l.web) + EnvOut(st, web)), name);
    NameLineNames(name);
    LastOfBefore(FixedOut(st, l.head), EnvOut(st, api), FixedOut(st, l.web), EnvOut(st, web));
  }

  lemma LastOfBefore(a: seq<Line>, b: seq<Line>, c: seq<Line>, d: seq<Line>)
    requires c != [] && EndsInNoComment(c) && EndsInNoComment(d)
    ensures EndsInNoComment(a + (b + (c + d)))
  {
    var all := a + (b + (c + d));
    assert all[|all| - 1] == if d == [] then c[|c| - 1] else d[|d| - 1];
  }

  lemma {:induction false} QuietFixed(st: Settings, part: seq<Line>)
    requires forall k :: 0 <= k < |part| ==> IsComment(part[k]) || !HasPlaceholder(part[k])
    ensures FixedOut(st, part) == part
    decreases |part|
  {
    if part != [] {
      assert forall k :: 0 <= k < |part[1..]| ==> part[1..][k] == part[k + 1];
      QuietFixed(st, part[1..]);
    }
  }

  lemma TopCommentIsComment(line: Line)
    requires IsTopComment(line)
    ensures IsComment(line)
  {
    var rest := line[2..];
    assert line == "  " + rest;
    assert rest[0] == line[..3][2] == '#';
    SkipSpacesOf("  ", rest);
    assert LStrip(line) == rest;
    assert rest[..1] == "#";
  }

  lemma RedisStays(st: Settings, l: Layout)
    requires IsRedisPart(l)
    ensures FixedOut(st, PartLines(l.redis)) == PartLines(l.redis)
  {
    var part := PartLines(l.redis);
    var n := |l.redis.comments|;
    NameLineNames(l.redis.name);
    forall k | 0 <= k < |part| ensures IsComment(part[k]) || !HasPlaceholder(part[k]) {
      if k < n {
        assert part[k] == l.redis.comments[k];
        TopCommentIsComment(part[k]);
      } else {
        assert k > n ==> part[k] == l.redis.body[k - n - 1];
      }
    }
    QuietFixed(st, part);
  }

  lemma {:induction false} IndexOfFirst(x: seq<Line>, line: Line, y: seq<Line>)
    requires line !in x
    ensures IndexOf(x + [line] + y, line) == |x|
    decreases |x|
  {
    var lines := x + [line] + y;
    if x != [] {
      assert lines[0] == x[0] && lines[1..] == x[1..] + [line] + y;
      IndexOfFirst(x[1..], line, y);
    }
  }

  /** Whatever drop_component takes out of such a text is the component and its comments. */
  lemma DropIsExact(x: seq<Line>, p: Part, y: seq<Line>, lines: seq<Line>, from: nat, to: nat)
    requires lines == x + (PartLines(p) + y)
    requires forall k :: 0 <= k < |p.comments| ==> IsTopComment(p.comments[k])
    requires forall k :: 0 <= k < |p.body| ==> !EndsDrop(p.body[k])
    requires (x != [] ==> !IsTopComment(x[|x| - 1])) && (y != [] ==> EndsDrop(y[0]))
    requires NameLine(p.name) !in x && !IsTopComment(NameLine(p.name))
    requires IsDropped(lines, p.name, from, to)
    ensures from == |x| && to == |x| + |PartLines(p)|
  {
    var at := |x| + |p.comments|;
    WhereItStands(x, p, y, lines);
    DropStartsAt(x, p.comments, lines, from, at);
    DropEndsAt(p.body, y, lines, at, to);
  }

  lemma WhereItStands(x: seq<Line>, p: Part, y: seq<Line>, lines: seq<Line>)
    requires NameLine(p.name) !in x && NameLine(p.name) !in p.comments && lines == x + (PartLines(p) + y)
    ensures var at := |x| + |p.comments|;
            && at < |lines| && NameLine(p.name) in lines && IndexOf(lines, NameLine(p.name)) == at
            && lines[..at] == x + p.comments && lines[at + 1..] == p.body + y
  {
    Regroup(x, p.comments, NameLine(p.name), p.body, y);
    IndexOfFirst(x + p.comments, NameLine(p.name), p.body + y);
    AroundOne(x + p.comments, NameLine(p.name), p.body + y);
  }

  lemma Regroup(x: seq<Line>, comments: seq<Line>, line: Line, body: seq<Line>, y: seq<Line>)
    ensures x + ((comments + [line] + body) + y) == (x + comments) + [line] + (body + y)
  {
  }

  lemma AroundOne(a: seq<Line>, line: Line, b: seq<Line>)
    ensures var all := a + [line] + b; |a| < |all| && all[|a|] == line && line in all && all[..|a|] == a && all[|a| + 1..] == b
  {
  }

  lemma DropStartsAt(x: seq<Line>, comments: seq<Line>, lines: seq<Line>, from: nat, at: nat)
    requires at == |x| + |comments| && at <= |lines| && lines[..at] == x + comments && from <= at
    requires forall k :: 0 <= k < |comments| ==> IsTopComment(comments[k])
    requires x != [] ==> !IsTopComment(x[|x| - 1])
    requires (forall j :: from <= j < at ==> IsTopComment(lines[j])) && (from > 0 ==> !IsTopComment(lines[from - 1]))
    ensures from == |x|
  {
    forall j | 0 <= j < at ensures lines[j] == (x + comments)[j] {
      assert lines[..at][j] == lines[j];
    }
    assert x != [] ==> !IsTopComment(lines[|x| - 1]);
    assert forall j :: |x| <= j < at ==> lines[j] == comments[j - |x|];
  }

  lemma DropEndsAt(body: seq<Line>, y: seq<Line>, lines: seq<Line>, at: nat, to: nat)
    requires at < to <= |lines| && lines[at + 1..] == body + y
    requires forall k :: 0 <= k < |body| ==> !EndsDrop(body[k])
    requires y != [] ==> EndsDrop(y[0])
    requires (forall j :: at < j < to ==> !EndsDrop(lines[j])) && (to < |lines| ==> EndsDrop(lines[to]))
    ensures to == at + 1 + |body|
  {
    var end := at + 1 + |body|;
    forall j | at < j < |lines| ensures lines[j] == (body + y)[j - at - 1] {
      assert lines[at + 1..][j - at - 1] == lines[j];
    }
    assert |lines| == end + |y|;
    assert forall j :: at < j < end ==> lines[j] == body[j - at - 1];
    assert y != [] ==> lines[end] == y[0];
  }

  lemma NameIsNoComment(name: string)
    ensures !IsTopComment(NameLine(name))
  {
    CharDiffers(NameLine(name), "  #", 2);
  }

  /**
    * At launch the resolved spec loses exactly the Redis component and its comments, and
    * every key stays.
    */
  lemma LaunchDropsRedisAlone(st: Settings, l: Layout, rows: seq<Row>, from: nat, to: nat)
    requires IsTemplate(st, l, rows) && IsRedisPart(l)
    requires IsDropped(Walk(st, Render(l, rows), 0).out, l.redis.name, from, to)
    ensures var out := Walk(st, Render(l, rows), 0).out;
            && out[from..to] == PartLines(l.redis)
            && out[..from] + out[to..] == BeforeRedis(st, l, rows) + AfterRedis(st, l, rows)
            && KeysFrom(None, out[..from] + out[to..]) == AllKeys(st, rows)
  {
    var a, c, last := BeforeRedis(st, l, rows), Some("admin-web"), SetKeys(st, Some("worker"), WorkerRows(AppEnvRows(rows)));
    RenderResolves(st, l, rows);
    RedisStays(st, l);
    RedisIsNamedOnce(st, l, rows);
    WorkerStays(st, l, rows);
    RedisIsDropped(a, l.redis, AfterRedis(st, l, rows), Walk(st, Render(l, rows), 0).out, from, to);
    KeysBefore(st, l, AppEnvRows(rows), WebRows(ADMIN_WEB_ENV));
    KeysAfter(st, l, WorkerRows(AppEnvRows(rows)), c);
    Join(None, a, ServiceKeys(st, AppEnvRows(rows), WebRows(ADMIN_WEB_ENV)), c, AfterRedis(st, l, rows), last, Some("worker"));
  }

  lemma RedisIsDropped(x: seq<Line>, p: Part, y: seq<Line>, out: seq<Line>, from: nat, to: nat)
    requires forall k :: 0 <= k < |p.comments| ==> IsTopComment(p.comments[k])
    requires forall k :: 0 <= k < |p.body| ==> !EndsDrop(p.body[k])
    requires (x != [] ==> !IsTopComment(x[|x| - 1])) && (y != [] ==> EndsDrop(y[0]))
    requires out == x + (PartLines(p) + y) && NameLine(p.name) !in x && IsDropped(out, p.name, from, to)
    ensures out[from..to] == PartLines(p) && out[..from] + out[to..] == x + y
  {
    NameIsNoComment(p.name);
    DropIsExact(x, p, y, out, from, to);
    Cut(x, PartLines(p), y, out);
  }

  lemma Cut(x: seq<Line>, part: seq<Line>, y: seq<Line>, out: seq<Line>)
    requires out == x + (part + y)
    ensures out[|x|..|x| + |part|] == part && out[..|x|] + out[|x| + |part|..] == x + y
  {
  }

  lemma WorkerStays(st: Settings, l: Layout, rows: seq<Row>)
    requires l.worker != [] && !HasPlaceholder(l.worker[0])
    ensures AfterRedis(st, l, rows) != [] && AfterRedis(st, l, rows)[0] == l.worker[0]
  {
    assert OneLine(st, l.worker[0], 0).out == [l.worker[0]];
  }

  // ---------------------------------------------------------------- the phase decides

  datatype PhaseError = BadLinkBase(name: string) | WrongRedis | NoPhase | NotManaged | NoHops | ProbeOn

  const IN_APP_REDIS_URL := "redis://redis:6379"

  /** The names whose value, if there is one, must be a link base; `isLinkBase` is the pattern. */
  function LinkBaseErrors(environ: map<string, string>, isLinkBase: string -> bool): set<PhaseError> {
    set name | name in {"MEDIA_PUBLIC_BASE_URL", "PAYMENT_LINK_BASE_URL"} && Get(environ, name) != "" && !isLinkBase(Get(environ, name)) :: BadLinkBase(name)
  }

  /** apply_redis_phase; `isManaged` tells a Valkey cluster's URL over TLS from the in-app one. */
  method ApplyRedisPhase(production: bool, lines: seq<Line>, environ: map<string, string>, isLinkBase: string -> bool, isManaged: string -> bool)
    returns (out: seq<Line>, errors: set<PhaseError>)
    ensures production && Get(environ, "LAUNCH_PHASE") == "launch" && NameLine("redis") in lines ==>
              exists from: nat, to: nat :: IsDropped(lines, "redis", from, to) && out == lines[..from] + lines[to..]
    ensures !(production && Get(environ, "LAUNCH_PHASE") == "launch" && NameLine("redis") in lines) ==> out == lines
    ensures errors == {} <==>
              && LinkBaseErrors(environ, isLinkBase) == {}
              && (production ==> Get(environ, "LAUNCH_PHASE") == "review" || Get(environ, "LAUNCH_PHASE") == "launch")
              && (production && Get(environ, "LAUNCH_PHASE") == "launch" ==>
                    && (Get(environ, "REDIS_URL") == "" || isManaged(Get(environ, "REDIS_URL")))
                    && Strip(Get(environ, "TRUSTED_PROXY_HOPS")) != "" && Strip(Get(environ, "PROXY_HOPS_PROBE")) in ["", "off"])
              && (!(production && Get(environ, "LAUNCH_PHASE") == "launch") ==> Get(environ, "REDIS_URL") in ["", IN_APP_REDIS_URL])
  {
    out, errors := lines, LinkBaseErrors(environ, isLinkBase);
    var url, phase := Get(environ, "REDIS_URL"), Get(environ, "LAUNCH_PHASE");
    if !production || phase == "review" {
      if url != "" && url != IN_APP_REDIS_URL {
        errors := errors + {WrongRedis};
      }
      return;
    }
    if phase != "launch" {
      errors := errors + {NoPhase};
      return;
    }
    if url != "" && !isManaged(url) {
      errors := errors + {NotManaged};
    }
    if Strip(Get(environ, "TRUSTED_PROXY_HOPS")) == "" {
      errors := errors + {NoHops};
    }
    if Strip(Get(environ, "PROXY_HOPS_PROBE")) !in ["", "off"] {
      errors := errors + {ProbeOn};
    }
    if NameLine("redis") in lines {
      var from, to;
      out, from, to := DropComponent(lines, "redis");
    }
  }
}
