/**
  * The app spec: a template of `${NAME}` placeholders is read line by line, each env
  * entry filled or left out, and at launch one whole component is removed.
  */
module AppSpec {
  import opened Options

  type Line = string

  // ---------------------------------------------------------------- lines

  predicate IsSpace(c: char) {
    var n := c as int;
    9 <= n <= 13 || 28 <= n <= 32 || n == 0x85 || n == 0xA0 || n == 0x1680 || 0x2000 <= n <= 0x200A
    || n == 0x2028 || n == 0x2029 || n == 0x202F || n == 0x205F || n == 0x3000
  }

  function SkipSpaces(s: string): (n: nat)
    ensures n <= |s| && (forall k :: 0 <= k < n ==> IsSpace(s[k])) && (n < |s| ==> !IsSpace(s[n]))
  {
    if s == "" || !IsSpace(s[0]) then 0 else 1 + SkipSpaces(s[1..])
  }

  function LStrip(s: string): string {
    s[SkipSpaces(s)..]
  }

  function Strip(s: string): (t: string)
    ensures |t| <= |s|
    decreases |s|
  {
    if s != "" && IsSpace(s[|s| - 1]) then Strip(s[..|s| - 1]) else LStrip(s)
  }

  predicate StartsWith(s: string, p: string) {
    |p| <= |s| && s[..|p|] == p
  }

  predicate IsNameChar(c: char) {
    'A' <= c <= 'Z' || '0' <= c <= '9' || c == '_'
  }

  /** [A-Z][A-Z0-9_]* */
  predicate IsName(s: string) {
    s != "" && 'A' <= s[0] <= 'Z' && forall k :: 0 <= k < |s| ==> IsNameChar(s[k])
  }

  function NameRun(s: string): (n: nat)
    ensures n <= |s| && (forall k :: 0 <= k < n ==> IsNameChar(s[k])) && (n < |s| ==> !IsNameChar(s[n]))
  {
    if s == "" || !IsNameChar(s[0]) then 0 else 1 + NameRun(s[1..])
  }

  predicate IsWordChar(c: char) {
    'a' <= c <= 'z' || c == '_'
  }

  function WordRun(s: string): (n: nat)
    ensures n <= |s| && (forall k :: 0 <= k < n ==> IsWordChar(s[k])) && (n < |s| ==> !IsWordChar(s[n]))
  {
    if s == "" || !IsWordChar(s[0]) then 0 else 1 + WordRun(s[1..])
  }

  /** KEY_LINE: its indentation and its key. */
  function ParseKey(line: Line): Option<(string, string)> {
    var n := SkipSpaces(line);
    if StartsWith(line[n..], "- key: ") && IsName(line[n + 7..]) then Some((line[..n], line[n + 7..])) else None
  }

  /** Where the word ends that follows the indentation, and a dash if there is one; the indentation's end if there is none. */
  function WordEnd(line: Line): (w: nat)
    ensures w <= |line|
  {
    var n := SkipSpaces(line);
    var d := if StartsWith(line[n..], "- ") then n + 2 else n;
    d + WordRun(line[d..])
  }

  predicate HasWord(line: Line) {
    0 < WordEnd(line) && IsWordChar(line[WordEnd(line) - 1])
  }

  /** VALUE_LINE: what stands before its placeholder, and the placeholder's name. */
  function ParseValue(line: Line): Option<(string, string)> {
    var w := WordEnd(line);
    if HasWord(line) && |line| > w + 4 && IsWholeValue(line[w..]) then Some((line[..w + 2], line[w + 4..|line| - 1])) else None
  }

  predicate IsWholeValue(rest: string) {
    |rest| > 4 && rest[0] == ':' && rest[1] == ' ' && rest[2] == '$' && rest[3] == '{' && rest[|rest| - 1] == '}' && IsName(rest[4..|rest| - 1])
  }

  predicate PlaceholderAt(line: Line, k: nat) {
    k + 2 < |line| && line[k] == '$' && line[k + 1] == '{' && 'A' <= line[k + 2] <= 'Z'
    && var end := k + 2 + NameRun(line[k + 2..]);
       end < |line| && line[end] == '}'
  }

  predicate HasPlaceholder(line: Line) {
    exists k | 0 <= k < |line| :: PlaceholderAt(line, k)
  }

  predicate IsComment(line: Line) {
    StartsWith(LStrip(line), "#")
  }

  function Placeholder(key: string): string {
    "${" + key + "}"
  }

  /** str.replace */
  function Replaced(s: string, what: string, value: string): string
    requires what != ""
    decreases |s|
  {
    if |s| < |what| then s
    else if StartsWith(s, what) then value + Replaced(s[|what|..], what, value)
    else [s[0]] + Replaced(s[1..], what, value)
  }

  // ---------------------------------------------------------------- the environment

  datatype Rule = Required | Optional | Forbidden

  /** A manifest row, in the column of one environment. */
  datatype Row = Row(name: string, group: string, secret: bool, rule: Rule)

  /** `quote` is json.dumps. */
  datatype Settings = Settings(environ: map<string, string>, rules: map<string, Rule>, quote: string -> string)

  datatype Error =
    | NotExact(key: string)
    | Missing(name: string)
    | NotWhole(line: nat)
    | NotHttps(source: string)
    | NoHost(source: string)

  function RulesOf(rows: seq<Row>): map<string, Rule> {
    if rows == [] then map[] else RulesOf(rows[..|rows| - 1])[rows[|rows| - 1].name := rows[|rows| - 1].rule]
  }

  function Get(environ: map<string, string>, name: string): string {
    if name in environ then environ[name] else ""
  }

  function UpTo(s: string, c: char): (t: string)
    ensures c !in t && StartsWith(s, t) && (|t| < |s| ==> s[|t|] == c)
  {
    if s == "" || s[0] == c then "" else [s[0]] + UpTo(s[1..], c)
  }

  function HostOf(url: string, source: string): (string, set<Error>) {
    if !StartsWith(url, "https://") then ("", {NotHttps(source)})
    else
      var host := UpTo(url[8..], '/');
      if host == "" || ':' in host then ("", {NoHost(source)}) else (host, {})
  }

  const DERIVED := map["API_DOMAIN" := "API_ORIGIN", "ADMIN_WEB_DOMAIN" := "ADMIN_WEB_URL"]

  /** value_of: a variable, or the host of the URL it is derived from. */
  function ValueOf(st: Settings, name: string): (string, set<Error>) {
    if name in DERIVED then
      var url := Get(st.environ, DERIVED[name]);
      if url == "" then ("", {}) else HostOf(url, DERIVED[name])
    else (Get(st.environ, name), {})
  }

  predicate IsSet(st: Settings, name: string) {
    ValueOf(st, name).0 != ""
  }

  predicate MayBeLeftOut(st: Settings, name: string) {
    name in st.rules && st.rules[name] == Optional
  }

  // ---------------------------------------------------------------- resolve

  datatype Walked = Walked(out: seq<Line>, filled: set<string>, dropped: set<string>, errors: set<Error>)

  const NOTHING := Walked([], {}, {}, {})

  function Plus(a: Walked, b: Walked): Walked {
    Walked(a.out + b.out, a.filled + b.filled, a.dropped + b.dropped, a.errors + b.errors)
  }

  predicate Continues(line: Line, indent: string) {
    StartsWith(line, indent + "  ") && !StartsWith(line, indent + "  -")
  }

  /** Where the entry ends whose lines so far end before `k`. */
  function BlockEnd(lines: seq<Line>, k: nat, indent: string): (end: nat)
    requires k <= |lines|
    ensures k <= end <= |lines|
    decreases |lines| - k
  {
    if k < |lines| && Continues(lines[k], indent) then BlockEnd(lines, k + 1, indent) else k
  }

  function ValueLines(block: seq<Line>): seq<Line> {
    if block == [] then []
    else ValueLines(block[..|block| - 1]) + (if StartsWith(Strip(block[|block| - 1]), "value:") then [block[|block| - 1]] else [])
  }

  predicate IsExact(block: seq<Line>, key: string) {
    |ValueLines(block)| == 1 && Strip(ValueLines(block)[0]) == "value: " + Placeholder(key)
  }

  function Filled(st: Settings, block: seq<Line>, key: string): seq<Line> {
    seq(|block|, k requires 0 <= k < |block| => Replaced(block[k], Placeholder(key), st.quote(ValueOf(st, key).0)))
  }

  /** What becomes of one env entry. */
  function OneBlock(st: Settings, block: seq<Line>, key: string): Walked {
    if !IsExact(block, key) then Walked([], {}, {}, {NotExact(key)})
    else if IsSet(st, key) then Walked(Filled(st, block, key), {key}, {}, ValueOf(st, key).1)
    else if MayBeLeftOut(st, key) then Walked([], {}, {key}, ValueOf(st, key).1)
    else Walked([], {}, {}, ValueOf(st, key).1 + {Missing(key)})
  }

  /** What becomes of any other line; `n` lines stand before it. */
  function OneLine(st: Settings, line: Line, n: nat): Walked {
    if IsComment(line) || !HasPlaceholder(line) then Walked([line], {}, {}, {})
    else if ParseValue(line).None? then Walked([line], {}, {}, {NotWhole(n + 1)})
    else
      var (prefix, name) := ParseValue(line).value;
      if IsSet(st, name) then Walked([prefix + st.quote(ValueOf(st, name).0)], {name}, {}, ValueOf(st, name).1)
      else Walked([line], {}, {}, ValueOf(st, name).1 + {Missing(name)})
  }

  predicate IsEntry(line: Line) {
    !IsComment(line) && ParseKey(line).Some?
  }

  /** Where the lines end that are taken together from line `k`: one env entry, or any other single line. */
  function ItemEnd(lines: seq<Line>, k: nat): (end: nat)
    requires k < |lines|
    ensures k < end <= |lines|
  {
    if IsEntry(lines[k]) then BlockEnd(lines, k + 1, ParseKey(lines[k]).value.0) else k + 1
  }

  function OneItem(st: Settings, lines: seq<Line>, k: nat): Walked
    requires k < |lines|
  {
    if IsEntry(lines[k]) then OneBlock(st, lines[k..ItemEnd(lines, k)], ParseKey(lines[k]).value.1) else OneLine(st, lines[k], k)
  }

  function Walk(st: Settings, lines: seq<Line>, k: nat): Walked
    requires k <= |lines|
    decreases |lines| - k
  {
    if k == |lines| then NOTHING else Plus(OneItem(st, lines, k), Walk(st, lines, ItemEnd(lines, k)))
  }

  /** resolve, before the launch phase is applied */
  method Resolve(st: Settings, lines: seq<Line>) returns (w: Walked)
    ensures w == Walk(st, lines, 0)
  {
    w := NOTHING;
    var i := 0;
    PlusNothing(Walk(st, lines, 0));
    while i < |lines|
      invariant 0 <= i <= |lines|
      invariant Walk(st, lines, 0) == Plus(w, Walk(st, lines, i))
    {
      PlusAssociates(w, OneItem(st, lines, i), Walk(st, lines, ItemEnd(lines, i)));
      if IsEntry(lines[i]) {
        var (indent, key) := ParseKey(lines[i]).value;
        var end := i + 1;
        while end < |lines| && Continues(lines[end], indent)
          invariant i < end <= |lines|
          invariant BlockEnd(lines, end, indent) == BlockEnd(lines, i + 1, indent)
        {
          end := end + 1;
        }
        w := ResolveBlock(st, lines[i..end], key, w);
        i := end;
      } else {
        w := ResolveLine(st, lines[i], i, w);
        i := i + 1;
      }
    }
    PlusNothing(w);
  }

  method ResolveBlock(st: Settings, block: seq<Line>, key: string, before: Walked) returns (w: Walked)
    ensures w == Plus(before, OneBlock(st, block, key))
  {
    w := before;
    if !IsExact(block, key) {
      return w.(errors := w.errors + {NotExact(key)});
    }
    var (value, errors) := ValueOf(st, key);
    w := w.(errors := w.errors + errors);
    if value == "" {
      if MayBeLeftOut(st, key) {
        w := w.(dropped := w.dropped + {key});
      } else {
        w := w.(errors := w.errors + {Missing(key)});
      }
    } else {
      w := w.(filled := w.filled + {key}, out := w.out + Filled(st, block, key));
    }
  }

  method ResolveLine(st: Settings, line: Line, n: nat, before: Walked) returns (w: Walked)
    ensures w == Plus(before, OneLine(st, line, n))
  {
    w := before.(out := before.out + [line]);
    if IsComment(line) || !HasPlaceholder(line) {
      return;
    }
    var value := ParseValue(line);
    if value.None? {
      return w.(errors := w.errors + {NotWhole(n + 1)});
    }
    var (prefix, name) := value.value;
    var (text, errors) := ValueOf(st, name);
    w := w.(errors := w.errors + errors);
    if text == "" {
      w := w.(errors := w.errors + {Missing(name)});
    } else {
      w := w.(filled := w.filled + {name}, out := before.out + [prefix + st.quote(text)]);
    }
  }

  lemma PlusAssociates(a: Walked, b: Walked, c: Walked)
    ensures Plus(Plus(a, b), c) == Plus(a, Plus(b, c))
  {
  }

  lemma PlusNothing(a: Walked)
    ensures Plus(a, NOTHING) == a && Plus(NOTHING, a) == a
  {
  }

  // ---------------------------------------------------------------- one component

  function NameLine(name: string): Line {
    "  - name: " + name
  }

  /** A key of the top level. */
  predicate IsTopKey(line: Line) {
    var n := WordRun(line);
    n > 0 && n < |line| && line[n] == ':'
  }

  predicate IsTopComment(line: Line) {
    StartsWith(line, "  #")
  }

  /** Where component_block ends a component, and where drop_component does. */
  predicate EndsBlock(line: Line) {
    StartsWith(line, "  - name: ") || IsTopKey(line)
  }

  predicate EndsDrop(line: Line) {
    EndsBlock(line) || IsTopComment(line)
  }

  function IndexOf(lines: seq<Line>, line: Line): (k: nat)
    requires line in lines
    ensures k < |lines| && lines[k] == line && line !in lines[..k]
  {
    if lines[0] == line then 0 else 1 + IndexOf(lines[1..], line)
  }

  function BlockStop(lines: seq<Line>, k: nat): (end: nat)
    requires k <= |lines|
    ensures k <= end <= |lines| && (forall j :: k <= j < end ==> !EndsBlock(lines[j])) && (end < |lines| ==> EndsBlock(lines[end]))
    decreases |lines| - k
  {
    if k < |lines| && !EndsBlock(lines[k]) then BlockStop(lines, k + 1) else k
  }

  /** component_block */
  function ComponentBlock(lines: seq<Line>, name: string): Option<seq<Line>> {
    if NameLine(name) !in lines then None
    else
      var start := IndexOf(lines, NameLine(name));
      Some(lines[start..BlockStop(lines, start + 1)])
  }

  /** The lines drop_component takes out: from the first comment directly above the name to the next end. */
  ghost predicate IsDropped(lines: seq<Line>, name: string, from: nat, to: nat) {
    && NameLine(name) in lines
    && var at := IndexOf(lines, NameLine(name));
       && from <= at < to <= |lines|
       && (forall j :: from <= j < at ==> IsTopComment(lines[j])) && (from > 0 ==> !IsTopComment(lines[from - 1]))
       && (forall j :: at < j < to ==> !EndsDrop(lines[j])) && (to < |lines| ==> EndsDrop(lines[to]))
  }

  /** drop_component */
  method DropComponent(lines: seq<Line>, name: string) returns (out: seq<Line>, from: nat, to: nat)
    requires NameLine(name) in lines
    ensures IsDropped(lines, name, from, to) && out == lines[..from] + lines[to..]
  {
    var at := IndexOf(lines, NameLine(name));
    to := at + 1;
    while to < |lines| && !EndsDrop(lines[to])
      invariant at < to <= |lines|
      invariant forall j :: at < j < to ==> !EndsDrop(lines[j])
    {
      to := to + 1;
    }
    from := at;
    while from > 0 && IsTopComment(lines[from - 1])
      invariant 0 <= from <= at
      invariant forall j :: from <= j < at ==> IsTopComment(lines[j])
    {
      from := from - 1;
    }
    out := lines[..from] + lines[to..];
  }

  /**
    * The two readings of a component agree if and only if no comment stands at its
    * lines' own depth: such a comment ends what is dropped, not the component.
    */
  lemma DropTakesTheBlockIff(lines: seq<Line>, name: string, from: nat, to: nat)
    requires IsDropped(lines, name, from, to)
    ensures var at := IndexOf(lines, NameLine(name)); var block := ComponentBlock(lines, name).value;
            lines[at..to] == block <==> forall j :: 0 < j < |block| ==> !IsTopComment(block[j])
  {
    var at := IndexOf(lines, NameLine(name));
    var stop := BlockStop(lines, at + 1);
    var block := lines[at..stop];
    assert to <= stop by {
      if stop < to {
        assert EndsDrop(lines[stop]);
        assert false;
      }
    }
    if to < stop {
      assert block[to - at] == lines[to] && IsTopComment(lines[to]);
    } else {
      forall j | 0 < j < |block| ensures !IsTopComment(block[j]) {
        assert block[j] == lines[at + j];
      }
    }
  }
}
