/**
  * What a resolve without errors does to the text, line by line, and when there are
  * no errors.
  */
module AppSpecText {
  import opened Options
  import opened AppSpec

  // ---------------------------------------------------------------- the line patterns mean what they say

  predicate AllSpace(s: string) {
    forall k :: 0 <= k < |s| ==> IsSpace(s[k])
  }

  lemma {:induction false} SkipSpacesOf(a: string, b: string)
    requires AllSpace(a) && (b != "" ==> !IsSpace(b[0]))
    ensures SkipSpaces(a + b) == |a|
    decreases |a|
  {
    if a == "" {
      assert a + b == b;
    } else {
      assert (a + b)[1..] == a[1..] + b;
      SkipSpacesOf(a[1..], b);
    }
  }

  /** KEY_LINE, both ways. */
  lemma ParseKeyIff(line: Line, indent: string, key: string)
    ensures ParseKey(line) == Some((indent, key)) <==> AllSpace(indent) && IsName(key) && line == indent + "- key: " + key
  {
    if ParseKey(line) == Some((indent, key)) {
      var n := SkipSpaces(line);
      assert line == line[..n] + line[n..][..7] + line[n + 7..];
    }
    if AllSpace(indent) && IsName(key) && line == indent + "- key: " + key {
      SkipSpacesOf(indent, "- key: " + key);
      assert line == indent + ("- key: " + key);
      assert line[|indent|..] == "- key: " + key;
      assert ("- key: " + key)[..7] == "- key: ";
      assert line[..|indent|] == indent;
    }
  }

  /** What counts as space: str.isspace. */
  lemma SpacesAre(c: char)
    ensures IsSpace(c) <==> c as int in {0x09, 0x0A, 0x0B, 0x0C, 0x0D, 0x1C, 0x1D, 0x1E, 0x1F, 0x20, 0x85, 0xA0, 0x1680,
                                        0x2000, 0x2001, 0x2002, 0x2003, 0x2004, 0x2005, 0x2006, 0x2007, 0x2008, 0x2009, 0x200A,
                                        0x2028, 0x2029, 0x202F, 0x205F, 0x3000}
  {
  }

  predicate IsCapital(c: char) {
    0x41 <= c as int <= 0x5A
  }

  predicate IsSmall(c: char) {
    0x61 <= c as int <= 0x7A || c as int == 0x5F
  }

  /** A capital, then capitals, digits and underscores. */
  lemma NameIff(s: string)
    ensures IsName(s) <==> s != "" && IsCapital(s[0]) && forall c :: c in s ==> IsCapital(c) || 0x30 <= c as int <= 0x39 || c as int == 0x5F
  {
    forall k | 0 <= k < |s| ensures s[k] in s {}
  }

  predicate IsSmallWord(s: string) {
    s != "" && forall c :: c in s ==> IsSmall(c)
  }

  lemma {:induction false} NameRunOf(name: string, rest: string)
    requires (forall k :: 0 <= k < |name| ==> IsNameChar(name[k])) && (rest != "" ==> !IsNameChar(rest[0]))
    ensures NameRun(name + rest) == |name|
    decreases |name|
  {
    if name == "" {
      assert name + rest == rest;
    } else {
      assert (name + rest)[1..] == name[1..] + rest;
      NameRunOf(name[1..], rest);
    }
  }

  lemma {:induction false} WordRunOf(word: string, rest: string)
    requires (forall k :: 0 <= k < |word| ==> IsWordChar(word[k])) && (rest != "" ==> !IsWordChar(rest[0]))
    ensures WordRun(word + rest) == |word|
    decreases |word|
  {
    if word == "" {
      assert word + rest == rest;
    } else {
      assert (word + rest)[1..] == word[1..] + rest;
      WordRunOf(word[1..], rest);
    }
  }

  /** PLACEHOLDER.search: a dollar, a brace, a name and a brace stand somewhere in the line. */
  lemma PlaceholderIff(line: Line)
    ensures HasPlaceholder(line) <==> exists a, name, b :: IsName(name) && line == a + ("${" + name + "}" + b)
  {
    if k :| 0 <= k < |line| && PlaceholderAt(line, k) {
      PlaceholderSplits(line, k);
    }
    if a, name, b :| IsName(name) && line == a + ("${" + name + "}" + b) {
      PlaceholderStands(line, a, name, b);
    }
  }

  lemma PlaceholderSplits(line: Line, k: nat)
    requires PlaceholderAt(line, k)
    ensures exists a, name, b :: IsName(name) && line == a + ("${" + name + "}" + b)
  {
    var n := NameRun(line[k + 2..]);
    var name, rest := line[k + 2..][..n], line[k + 2 + n..];
    assert n > 0 && IsName(name);
    assert line == line[..k] + ("${" + name + "}" + rest[1..]);
  }

  lemma PlaceholderStands(line: Line, a: string, name: string, b: string)
    requires IsName(name) && line == a + ("${" + name + "}" + b)
    ensures HasPlaceholder(line)
  {
    assert line[|a| + 2..] == name + ("}" + b);
    NameRunOf(name, "}" + b);
    assert PlaceholderAt(line, |a|);
  }

  /** A comment's first visible character is a number sign. */
  lemma CommentIff(line: Line)
    ensures IsComment(line) <==> exists indent, rest :: AllSpace(indent) && line == indent + ("#" + rest)
  {
    if IsComment(line) {
      var n := SkipSpaces(line);
      assert line[n..][..1] == "#" && AllSpace(line[..n]);
      assert line == line[..n] + ("#" + line[n + 1..]);
    }
    if indent, rest :| AllSpace(indent) && line == indent + ("#" + rest) {
      SkipSpacesOf(indent, "#" + rest);
      assert line[|indent|..] == "#" + rest && ("#" + rest)[..1] == "#";
    }
  }

  /** What VALUE_LINE matches before its placeholder: a key, perhaps a list item's, with its colon and a space. */
  ghost predicate IsValuePrefix(prefix: string, indent: string, dash: string, word: string) {
    AllSpace(indent) && (dash == "" || dash == "- ") && IsSmallWord(word) && prefix == indent + (dash + (word + ": "))
  }

  ghost predicate IsValueLineOf(line: Line, prefix: string, name: string) {
    IsName(name) && line == prefix + ("${" + name + "}") && exists indent, dash, word :: IsValuePrefix(prefix, indent, dash, word)
  }

  /** VALUE_LINE, both ways. */
  lemma ParseValueIff(line: Line, prefix: string, name: string)
    ensures ParseValue(line) == Some((prefix, name)) <==> IsValueLineOf(line, prefix, name)
  {
    if ParseValue(line) == Some((prefix, name)) {
      ParsedIsValueLine(line, prefix, name);
    }
    if IsValueLineOf(line, prefix, name) {
      var indent, dash, word :| IsValuePrefix(prefix, indent, dash, word);
      ValueLineParses(line, indent, dash, word, prefix, name, ": ${" + name + "}");
    }
  }

  lemma ParsedIsValueLine(line: Line, prefix: string, name: string)
    requires ParseValue(line) == Some((prefix, name))
    ensures IsValueLineOf(line, prefix, name)
  {
    var n := SkipSpaces(line);
    var d := if StartsWith(line[n..], "- ") then n + 2 else n;
    var w := WordEnd(line);
    ParseValueMeans(line);
    assert w > d by {
      WordIsThere(line, n, d, w);
    }
    var indent, dash, word := PrefixIs(line, n, d, w, prefix);
    assert prefix + Placeholder(name) == prefix + ("${" + name + "}");
  }

  lemma WordIsThere(line: Line, n: nat, d: nat, w: nat)
    requires HasWord(line) && n == SkipSpaces(line) && d == (if StartsWith(line[n..], "- ") then n + 2 else n) && w == WordEnd(line)
    ensures w > d
  {
    if d == n + 2 {
      assert line[n..][..2][1] == line[n + 1];
      assert !IsWordChar(line[d - 1]);
    } else if n > 0 {
      assert IsSpace(line[n - 1]);
    }
  }

  lemma PrefixIs(line: Line, n: nat, d: nat, w: nat, prefix: string) returns (indent: string, dash: string, word: string)
    requires n == SkipSpaces(line) && d == (if StartsWith(line[n..], "- ") then n + 2 else n) && d < w <= |line| && w == d + WordRun(line[d..])
    requires w + 2 <= |line| && line[w] == ':' && line[w + 1] == ' ' && prefix == line[..w + 2]
    ensures IsValuePrefix(prefix, indent, dash, word)
  {
    indent, dash, word := line[..n], line[n..d], line[d..w];
    SpacesFirst(line, n);
    DashIs(line, n, d);
    WordIs(line, d, w);
    PrefixParts(line, n, d, w);
  }

  lemma SpacesFirst(line: Line, n: nat)
    requires n == SkipSpaces(line)
    ensures AllSpace(line[..n])
  {
  }

  lemma DashIs(line: Line, n: nat, d: nat)
    requires n <= |line| && d == (if StartsWith(line[n..], "- ") then n + 2 else n) && d <= |line|
    ensures line[n..d] == "" || line[n..d] == "- "
  {
    if d == n + 2 {
      assert line[n..d] == line[n..][..2];
    }
  }

  lemma WordIs(line: Line, d: nat, w: nat)
    requires d < w <= |line| && w == d + WordRun(line[d..])
    ensures IsSmallWord(line[d..w])
  {
    var word := line[d..w];
    forall c | c in word ensures IsSmall(c) {
      var k :| 0 <= k < |word| && word[k] == c;
      assert line[d..][k] == c;
    }
  }

  lemma PrefixParts(line: Line, n: nat, d: nat, w: nat)
    requires n <= d < w && w + 2 <= |line| && line[w] == ':' && line[w + 1] == ' '
    ensures line[..w + 2] == line[..n] + (line[n..d] + (line[d..w] + ": "))
  {
  }

  lemma ValueLineParses(line: Line, indent: string, dash: string, word: string, prefix: string, name: string, rest: string)
    requires IsName(name) && rest == ": ${" + name + "}" && IsValuePrefix(prefix, indent, dash, word) && line == prefix + ("${" + name + "}")
    ensures ParseValue(line) == Some((prefix, name))
  {
    var w := WhereItEnds(line, indent, dash, word, prefix, name, rest);
    WholeValueOf(rest, name);
    ParsesAt(line, w, prefix, name);
  }

  lemma WhereItEnds(line: Line, indent: string, dash: string, word: string, prefix: string, name: string, rest: string) returns (w: nat)
    requires IsValuePrefix(prefix, indent, dash, word) && line == prefix + ("${" + name + "}") && rest == ": ${" + name + "}"
    ensures w == WordEnd(line) && 0 < w && w + 4 < |line| && line[w..] == rest && IsWordChar(line[w - 1])
    ensures line[..w + 2] == prefix && line[w + 4..|line| - 1] == name
  {
    w := |indent| + |dash| + |word|;
    LineParts(line, indent, dash, word, prefix, name, rest);
    FirstOfRest(rest, name);
    WordEndIs(line, indent, dash, word, rest);
    SmallWordEnds(word);
  }

  lemma FirstOfRest(rest: string, name: string)
    requires rest == ": ${" + name + "}"
    ensures rest != "" && rest[0] == ':'
  {
  }

  lemma SmallWordEnds(word: string)
    requires IsSmallWord(word)
    ensures IsWordChar(word[|word| - 1])
  {
    assert word[|word| - 1] in word;
  }

  lemma WholeValueOf(rest: string, name: string)
    requires IsName(name) && rest == ": ${" + name + "}"
    ensures IsWholeValue(rest)
  {
    assert rest[4..|rest| - 1] == name;
  }

  lemma ParsesAt(line: Line, w: nat, prefix: string, name: string)
    requires 0 < w && w + 4 < |line| && w == WordEnd(line) && IsWordChar(line[w - 1]) && IsWholeValue(line[w..])
    requires line[..w + 2] == prefix && line[w + 4..|line| - 1] == name
    ensures ParseValue(line) == Some((prefix, name))
  {
  }

  lemma LineParts(line: Line, indent: string, dash: string, word: string, prefix: string, name: string, rest: string)
    requires word != "" && prefix == indent + (dash + (word + ": ")) && line == prefix + ("${" + name + "}") && rest == ": ${" + name + "}"
    ensures line == indent + (dash + (word + rest))
    ensures var w := |indent| + |dash| + |word|;
            && w + 4 < |line| && line[w..] == rest && line[..w + 2] == prefix && line[w + 4..|line| - 1] == name
            && line[w - 1] == word[|word| - 1]
  {
    assert rest == ": " + ("${" + name + "}");
  }

  lemma WordEndIs(line: Line, indent: string, dash: string, word: string, rest: string)
    requires AllSpace(indent) && (dash == "" || dash == "- ") && IsSmallWord(word) && rest != "" && rest[0] == ':'
    requires line == indent + (dash + (word + rest))
    ensures WordEnd(line) == |indent| + |dash| + |word|
  {
    var tail := dash + (word + rest);
    assert word[0] in word;
    SkipSpacesOf(indent, tail);
    assert line[|indent|..] == tail;
    assert StartsWith(tail, "- ") <==> dash == "- " by {
      if dash == "- " {
        assert tail[..2] == "- ";
      } else {
        assert tail[0] == word[0];
      }
    }
    assert line[|indent| + |dash|..] == word + rest;
    forall k | 0 <= k < |word| ensures IsWordChar(word[k]) {
      assert word[k] in word;
    }
    WordRunOf(word, rest);
  }

  lemma ParseValueMeans(line: Line)
    requires ParseValue(line).Some?
    ensures var (prefix, name) := ParseValue(line).value; IsName(name) && line == prefix + Placeholder(name)
  {
    var w := WordEnd(line);
    NameOfRest(line, w, line[w..]);
    WholeValueIs(line, w);
  }

  lemma NameOfRest(line: Line, w: nat, rest: string)
    requires w + 4 < |line| && rest == line[w..]
    ensures rest[4..|rest| - 1] == line[w + 4..|line| - 1]
  {
  }

  lemma WholeValueIs(line: Line, w: nat)
    requires w + 4 < |line| && IsWholeValue(line[w..])
    ensures line == line[..w + 2] + Placeholder(line[w + 4..|line| - 1])
  {
    var rest := line[w..];
    assert rest[2] == line[w + 2] && rest[3] == line[w + 3] && rest[|rest| - 1] == line[|line| - 1];
    assert line == line[..w + 2] + "${" + line[w + 4..|line| - 1] + "}";
  }

  /** A stripped line is the line without the white space at its two ends. */
  lemma {:induction false} StripSplits(s: string) returns (a: string, b: string)
    ensures s == a + Strip(s) + b && AllSpace(a) && AllSpace(b)
    decreases |s|
  {
    if s != "" && IsSpace(s[|s| - 1]) {
      var b0;
      a, b0 := StripSplits(s[..|s| - 1]);
      b := b0 + [s[|s| - 1]];
      assert s == s[..|s| - 1] + [s[|s| - 1]];
      assert Strip(s) == Strip(s[..|s| - 1]);
    } else {
      a, b := s[..SkipSpaces(s)], "";
    }
  }

  predicate Contains(s: string, what: string) {
    exists k | 0 <= k <= |s| :: StartsWith(s[k..], what)
  }

  lemma {:induction false} NothingToReplace(s: string, what: string, value: string)
    requires what != "" && !Contains(s, what)
    ensures Replaced(s, what, value) == s
    decreases |s|
  {
    if |s| >= |what| {
      assert s[0..] == s;
      assert !StartsWith(s[0..], what);
      forall k | 0 <= k <= |s[1..]| ensures !StartsWith(s[1..][k..], what) {
        assert s[1..][k..] == s[k + 1..];
      }
      NothingToReplace(s[1..], what, value);
    }
  }

  lemma {:induction false} NoneWithoutItsHead(s: string, what: string, value: string)
    requires what != "" && what[0] !in s
    ensures Replaced(s, what, value) == s
    decreases |s|
  {
    if |s| >= |what| {
      NoneWithoutItsHead(s[1..], what, value);
    }
  }

  lemma {:induction false} ReplacedOnce(a: string, what: string, b: string, value: string)
    requires what != "" && what[0] !in a && what[0] !in b
    ensures Replaced(a + what + b, what, value) == a + value + b
    decreases |a|
  {
    var s := a + what + b;
    if a == "" {
      assert s[..|what|] == what && s[|what|..] == b;
      NoneWithoutItsHead(b, what, value);
    } else {
      var rest := a[1..] + what + b;
      assert s[0] == a[0] && s[1..] == rest;
      assert s[..|what|][0] == a[0];
      ReplacedOnce(a[1..], what, b, value);
      assert [a[0]] + (a[1..] + value + b) == a + value + b;
    }
  }

  /** An entry's further lines: two spaces deeper, and not a list item there. */
  lemma ContinuesIff(line: Line, indent: string)
    ensures Continues(line, indent) <==> exists rest :: line == indent + ("  " + rest) && (rest == "" || rest[0] != '-')
  {
    if StartsWith(line, indent + "  ") {
      var rest := line[|indent| + 2..];
      assert line == indent + ("  " + rest);
      DeeperLine(line, indent, rest);
    }
    if rest :| line == indent + ("  " + rest) && (rest == "" || rest[0] != '-') {
      DeeperLine(line, indent, rest);
    }
  }

  lemma DeeperLine(line: Line, indent: string, rest: string)
    requires line == indent + ("  " + rest)
    ensures StartsWith(line, indent + "  ") && (StartsWith(line, indent + "  -") <==> rest != "" && rest[0] == '-')
  {
    assert line[..|indent| + 2] == indent + "  ";
    if rest != "" {
      assert line[..|indent| + 3] == indent + "  " + [rest[0]];
      assert (indent + "  -")[|indent| + 2] == '-' && (indent + "  " + [rest[0]])[|indent| + 2] == rest[0];
    }
  }

  // ---------------------------------------------------------------- what the environment supplies

  /** The variable a name is read from: the two domains come from the URLs of their origins. */
  function SourceOf(name: string): string {
    if name == "API_DOMAIN" then "API_ORIGIN" else if name == "ADMIN_WEB_DOMAIN" then "ADMIN_WEB_URL" else name
  }

  predicate IsDomain(name: string) {
    name == "API_DOMAIN" || name == "ADMIN_WEB_DOMAIN"
  }

  /** An https URL of this host, which names no port. */
  ghost predicate IsUrlOf(url: string, host: string) {
    && host != "" && '/' !in host && ':' !in host
    && exists rest :: url == "https://" + host + rest && (rest == "" || rest[0] == '/')
  }

  /** The environment gives this name this value. */
  ghost predicate Supplies(st: Settings, name: string, value: string) {
    && SourceOf(name) in st.environ
    && if IsDomain(name) then IsUrlOf(st.environ[SourceOf(name)], value) else value != "" && st.environ[name] == value
  }

  ghost predicate IsSupplied(st: Settings, name: string) {
    exists value :: Supplies(st, name, value)
  }

  /** Its variable is not there, or empty. */
  ghost predicate IsUnset(st: Settings, name: string) {
    SourceOf(name) !in st.environ || st.environ[SourceOf(name)] == ""
  }

  ghost predicate IsOptional(st: Settings, name: string) {
    name in st.rules && st.rules[name] == Optional
  }

  lemma {:induction false} UpToFirst(a: string, c: char, b: string)
    requires c !in a && (b != "" ==> b[0] == c)
    ensures UpTo(a + b, c) == a
    decreases |a|
  {
    if a == "" {
      assert a + b == b;
    } else {
      assert (a + b)[1..] == a[1..] + b;
      UpToFirst(a[1..], c, b);
    }
  }

  lemma HostIff(url: string, source: string, host: string)
    ensures HostOf(url, source) == (host, {}) && host != "" <==> IsUrlOf(url, host)
  {
    if HostOf(url, source) == (host, {}) && host != "" {
      var rest := url[8..][|host|..];
      assert url[..8] == "https://" && url[8..][..|host|] == host;
      assert url == "https://" + host + rest;
    }
    if IsUrlOf(url, host) {
      var rest :| url == "https://" + host + rest && (rest == "" || rest[0] == '/');
      assert url[..8] == "https://" && url[8..] == host + rest;
      UpToFirst(host, '/', rest);
    }
  }

  /** A URL that is not https is refused as such; one of no host, or of a port, as such. */
  lemma HostErrorIff(url: string, source: string)
    ensures HostOf(url, source).1 == {NotHttps(source)} <==> |url| < 8 || url[..8] != "https://"
    ensures HostOf(url, source).1 == {NoHost(source)} <==> |url| >= 8 && url[..8] == "https://" && forall host :: !IsUrlOf(url, host)
    ensures HostOf(url, source).1 == {} <==> exists host :: IsUrlOf(url, host)
  {
    assert NotHttps(source) in {NotHttps(source)} && NoHost(source) !in {NotHttps(source)};
    if host :| IsUrlOf(url, host) {
      HostIff(url, source, host);
    }
    HostIff(url, source, HostOf(url, source).0);
    forall host | IsUrlOf(url, host) ensures HostOf(url, source) == (host, {}) {
      HostIff(url, source, host);
    }
  }

  /** value_of answers exactly what the environment supplies, and nothing with an error beside it. */
  lemma ValueIff(st: Settings, name: string, value: string)
    ensures Supplies(st, name, value) <==> ValueOf(st, name) == (value, {}) && value != ""
    ensures IsSet(st, name) ==> ValueOf(st, name).1 == {}
    ensures IsUnset(st, name) <==> ValueOf(st, name) == ("", {})
  {
    if IsDomain(name) {
      HostIff(Get(st.environ, SourceOf(name)), SourceOf(name), value);
    }
  }

  lemma SuppliedIff(st: Settings, name: string)
    ensures IsSupplied(st, name) <==> IsSet(st, name)
    ensures IsSupplied(st, name) ==> Supplies(st, name, ValueOf(st, name).0) && ValueOf(st, name).1 == {}
    ensures IsUnset(st, name) ==> !IsSupplied(st, name) && ValueOf(st, name).1 == {}
    ensures !IsSupplied(st, name) && ValueOf(st, name).1 == {} ==> IsUnset(st, name)
  {
    ValueIff(st, name, ValueOf(st, name).0);
    if value :| Supplies(st, name, value) {
      ValueIff(st, name, value);
    }
  }

  // ---------------------------------------------------------------- one item

  /** A line that holds exactly this value for `key`, as `resolve` leaves it. */
  ghost predicate IsFilled(st: Settings, was: Line, now: Line, key: string, value: string) {
    exists a, b :: IsFilledAt(was, now, a, b, "${" + key + "}", st.quote(value))
  }

  ghost predicate IsFilledAt(was: Line, now: Line, a: string, b: string, what: string, value: string) {
    was == a + what + b && now == a + value + b
  }

  ghost predicate IsValueLine(line: Line) {
    StartsWith(Strip(line), "value:")
  }

  /** An entry, kept whole: its value line filled, every line without its placeholder as it was. */
  ghost predicate EntryKept(st: Settings, block: seq<Line>, key: string, part: seq<Line>) {
    exists value :: Supplies(st, key, value) && EntryFilled(st, block, key, part, value)
  }

  ghost predicate EntryFilled(st: Settings, block: seq<Line>, key: string, part: seq<Line>, value: string) {
    && |part| == |block|
    && (forall k :: 0 <= k < |block| && IsValueLine(block[k]) ==> IsFilled(st, block[k], part[k], key, value))
    && (forall k :: 0 <= k < |block| && !Contains(block[k], Placeholder(key)) ==> part[k] == block[k])
    && (exists k :: 0 <= k < |block| && IsTheValueLine(block, k))
  }

  ghost predicate IsTheValueLine(block: seq<Line>, k: nat) {
    k < |block| && IsValueLine(block[k]) && forall j :: 0 <= j < |block| && IsValueLine(block[j]) ==> j == k
  }

  ghost predicate LineKept(st: Settings, line: Line, part: seq<Line>) {
    && |part| == 1
    && (IsComment(line) || !HasPlaceholder(line) ==> part[0] == line)
    && (!IsComment(line) && HasPlaceholder(line) ==> exists prefix, name, value :: ValueFilled(st, line, part[0], prefix, name, value))
  }

  ghost predicate ValueFilled(st: Settings, was: Line, now: Line, prefix: string, name: string, value: string) {
    Supplies(st, name, value) && was == prefix + ("${" + name + "}") && now == prefix + st.quote(value)
  }

  /** What becomes of the item at line `k`. */
  ghost predicate ItemKept(st: Settings, lines: seq<Line>, k: nat, part: seq<Line>)
    requires k < |lines|
  {
    if IsEntry(lines[k]) then
      var key := ParseKey(lines[k]).value.1;
      || EntryKept(st, lines[k..ItemEnd(lines, k)], key, part)
      || (part == [] && IsUnset(st, key) && IsOptional(st, key))
    else LineKept(st, lines[k], part)
  }

  /** `out` is the items from line `k` on, in order, each kept as ItemKept says. */
  ghost predicate TextKept(st: Settings, lines: seq<Line>, k: nat, out: seq<Line>)
    requires k <= |lines|
    decreases |lines| - k
  {
    if k == |lines| then out == []
    else exists cut :: 0 <= cut <= |out| && ItemKept(st, lines, k, out[..cut]) && TextKept(st, lines, ItemEnd(lines, k), out[cut..])
  }

  lemma {:induction false} TheOneValueLine(block: seq<Line>) returns (k: nat)
    requires |ValueLines(block)| == 1
    ensures IsTheValueLine(block, k) && block[k] == ValueLines(block)[0]
    decreases |block|
  {
    var last := |block| - 1;
    if IsValueLine(block[last]) {
      k := last;
      NoValueLine(block[..last]);
      forall j | 0 <= j < last ensures !IsValueLine(block[j]) {
        assert block[..last][j] == block[j];
      }
    } else {
      k := TheOneValueLine(block[..last]);
      forall j | 0 <= j < |block| && IsValueLine(block[j]) ensures j == k {
        assert j < last ==> block[..last][j] == block[j];
      }
    }
  }

  lemma {:induction false} NoValueLine(block: seq<Line>)
    requires ValueLines(block) == []
    ensures forall j :: 0 <= j < |block| ==> !IsValueLine(block[j])
    decreases |block|
  {
    if block != [] {
      var last := |block| - 1;
      NoValueLine(block[..last]);
      forall j | 0 <= j < |block| ensures !IsValueLine(block[j]) {
        assert j < last ==> block[..last][j] == block[j];
      }
    }
  }

  lemma NoDollar(a: string, b: string)
    requires AllSpace(a) && AllSpace(b)
    ensures '$' !in a + "value: " && '$' !in b
  {
  }

  lemma FilledLine(st: Settings, line: Line, key: string)
    requires Strip(line) == "value: " + Placeholder(key)
    ensures IsFilled(st, line, Replaced(line, Placeholder(key), st.quote(ValueOf(st, key).0)), key, ValueOf(st, key).0)
  {
    var a, b := StripSplits(line);
    FilledAt(line, a, b, key, st.quote(ValueOf(st, key).0));
  }

  lemma FilledAt(line: Line, a: string, b: string, key: string, value: string)
    requires AllSpace(a) && AllSpace(b) && line == a + ("value: " + Placeholder(key)) + b
    ensures IsFilledAt(line, Replaced(line, Placeholder(key), value), a + "value: ", b, Placeholder(key), value)
  {
    var before := a + "value: ";
    assert line == before + Placeholder(key) + b;
    NoDollar(a, b);
    ReplacedOnce(before, Placeholder(key), b, value);
  }

  lemma BlockIsKept(st: Settings, block: seq<Line>, key: string)
    requires IsExact(block, key) && IsSet(st, key)
    ensures EntryKept(st, block, key, Filled(st, block, key))
  {
    var part := Filled(st, block, key);
    var v := TheOneValueLine(block);
    SuppliedIff(st, key);
    FilledLine(st, block[v], key);
    forall k | 0 <= k < |block| && !Contains(block[k], Placeholder(key)) ensures part[k] == block[k] {
      NothingToReplace(block[k], Placeholder(key), st.quote(ValueOf(st, key).0));
    }
  }

  lemma LineIsKept(st: Settings, line: Line, n: nat)
    requires OneLine(st, line, n).errors == {}
    ensures LineKept(st, line, OneLine(st, line, n).out)
  {
    if !IsComment(line) && HasPlaceholder(line) {
      ParseValueMeans(line);
      var (prefix, name) := ParseValue(line).value;
      ValueLineIsKept(st, line, n, prefix, name);
    }
  }

  lemma ValueLineIsKept(st: Settings, line: Line, n: nat, prefix: string, name: string)
    requires !IsComment(line) && HasPlaceholder(line) && ParseValue(line) == Some((prefix, name)) && line == prefix + Placeholder(name)
    requires OneLine(st, line, n).errors == {}
    ensures LineKept(st, line, OneLine(st, line, n).out)
  {
    SuppliedIff(st, name);
    EmptyUnion(ValueOf(st, name).1, {Missing(name)});
    assert ValueFilled(st, line, OneLine(st, line, n).out[0], prefix, name, ValueOf(st, name).0);
  }

  lemma ItemIsKept(st: Settings, lines: seq<Line>, k: nat)
    requires k < |lines| && OneItem(st, lines, k).errors == {}
    ensures ItemKept(st, lines, k, OneItem(st, lines, k).out)
  {
    if IsEntry(lines[k]) {
      var block, key := lines[k..ItemEnd(lines, k)], ParseKey(lines[k]).value.1;
      if IsExact(block, key) && IsSet(st, key) {
        BlockIsKept(st, block, key);
      }
    } else {
      LineIsKept(st, lines[k], k);
    }
  }

  /**
    * A resolve without errors: every entry is kept whole with its value filled, or left
    * out whole if it is optional and unset; every other line stays, in order, and only
    * a placeholder that is its whole value changes it.
    */
  lemma {:induction false} ResolveKeepsTheText(st: Settings, lines: seq<Line>, k: nat)
    requires k <= |lines| && Walk(st, lines, k).errors == {}
    ensures TextKept(st, lines, k, Walk(st, lines, k).out)
    decreases |lines| - k
  {
    if k < |lines| {
      var first, rest := OneItem(st, lines, k), Walk(st, lines, ItemEnd(lines, k));
      assert first.errors == {} && rest.errors == {} by {
        EmptyUnion(first.errors, rest.errors);
      }
      ItemIsKept(st, lines, k);
      ResolveKeepsTheText(st, lines, ItemEnd(lines, k));
      var out := Walk(st, lines, k).out;
      assert out == first.out + rest.out;
      assert out[..|first.out|] == first.out && out[|first.out|..] == rest.out;
    }
  }

  lemma EmptyUnion(a: set<Error>, b: set<Error>)
    ensures a + b == {} <==> a == {} && b == {}
  {
    forall e | e in a || e in b ensures e in a + b {}
  }

  // ---------------------------------------------------------------- when there are no errors

  /** The walk comes by line `j` as the start of an item. */
  ghost predicate ComesBy(lines: seq<Line>, k: nat, j: nat)
    requires k <= |lines|
    decreases |lines| - k
  {
    k < |lines| && (j == k || ComesBy(lines, ItemEnd(lines, k), j))
  }

  ghost predicate ItemIsFine(st: Settings, lines: seq<Line>, k: nat)
    requires k < |lines|
  {
    if IsEntry(lines[k]) then
      var key := ParseKey(lines[k]).value.1;
      && IsExact(lines[k..ItemEnd(lines, k)], key)
      && (IsSupplied(st, key) || (IsUnset(st, key) && IsOptional(st, key)))
    else
      !IsComment(lines[k]) && HasPlaceholder(lines[k]) ==>
        ParseValue(lines[k]).Some? && IsSupplied(st, ParseValue(lines[k]).value.1)
  }

  lemma OneItemErrorsIff(st: Settings, lines: seq<Line>, k: nat)
    requires k < |lines|
    ensures OneItem(st, lines, k).errors == {} <==> ItemIsFine(st, lines, k)
  {
    if IsEntry(lines[k]) {
      SuppliedIff(st, ParseKey(lines[k]).value.1);
      EmptyUnion(ValueOf(st, ParseKey(lines[k]).value.1).1, {Missing(ParseKey(lines[k]).value.1)});
    } else if ParseValue(lines[k]).Some? {
      SuppliedIff(st, ParseValue(lines[k]).value.1);
      EmptyUnion(ValueOf(st, ParseValue(lines[k]).value.1).1, {Missing(ParseValue(lines[k]).value.1)});
    }
  }

  /** There is no error exactly when every item the walk comes by is in order. */
  lemma {:induction false} NoErrorsIff(st: Settings, lines: seq<Line>, k: nat)
    requires k <= |lines|
    ensures Walk(st, lines, k).errors == {} <==> forall j: nat :: j < |lines| && ComesBy(lines, k, j) ==> ItemIsFine(st, lines, j)
    decreases |lines| - k
  {
    if k < |lines| {
      var next := ItemEnd(lines, k);
      EmptyUnion(OneItem(st, lines, k).errors, Walk(st, lines, next).errors);
      OneItemErrorsIff(st, lines, k);
      NoErrorsIff(st, lines, next);
      assert ComesBy(lines, k, k);
      forall j: nat | j < |lines| ensures ComesBy(lines, k, j) <==> j == k || ComesBy(lines, next, j) {}
    }
  }

  // ---------------------------------------------------------------- what is missing, dropped and filled

  /** At line `j` stands an exact entry of this key. */
  ghost predicate IsEntryAt(lines: seq<Line>, j: nat, key: string) {
    j < |lines| && IsEntry(lines[j]) && ParseKey(lines[j]).value.1 == key && IsExact(lines[j..ItemEnd(lines, j)], key)
  }

  /** Line `j` is a whole value, and no entry. */
  ghost predicate IsValueAt(lines: seq<Line>, j: nat, name: string) {
    && j < |lines| && !IsEntry(lines[j]) && !IsComment(lines[j]) && HasPlaceholder(lines[j])
    && ParseValue(lines[j]).Some? && ParseValue(lines[j]).value.1 == name
  }

  /** Some exact entry the walk comes by is of this key. */
  ghost predicate HasEntry(lines: seq<Line>, k: nat, key: string)
    requires k <= |lines|
  {
    exists j: nat :: ComesBy(lines, k, j) && IsEntryAt(lines, j, key)
  }

  ghost predicate HasValue(lines: seq<Line>, k: nat, name: string)
    requires k <= |lines|
  {
    exists j: nat :: ComesBy(lines, k, j) && IsValueAt(lines, j, name)
  }

  lemma OneItemNames(st: Settings, lines: seq<Line>, k: nat, name: string)
    requires k < |lines|
    ensures var w := OneItem(st, lines, k);
            && (Missing(name) in w.errors <==>
                  !IsSupplied(st, name) && ((IsEntryAt(lines, k, name) && !IsOptional(st, name)) || IsValueAt(lines, k, name)))
            && (name in w.dropped <==> !IsSupplied(st, name) && IsEntryAt(lines, k, name) && IsOptional(st, name))
            && (name in w.filled <==> IsSupplied(st, name) && (IsEntryAt(lines, k, name) || IsValueAt(lines, k, name)))
  {
    SuppliedIff(st, name);
    if IsEntry(lines[k]) {
      NoMissing(st, ParseKey(lines[k]).value.1);
    } else if ParseValue(lines[k]).Some? {
      NoMissing(st, ParseValue(lines[k]).value.1);
    }
  }

  lemma NoMissing(st: Settings, name: string)
    ensures forall other :: Missing(other) !in ValueOf(st, name).1
  {
  }

  lemma ComesByFirst(lines: seq<Line>, k: nat, j: nat)
    requires k < |lines|
    ensures ComesBy(lines, k, j) <==> j == k || ComesBy(lines, ItemEnd(lines, k), j)
  {
  }

  lemma HasEntryFirst(lines: seq<Line>, k: nat, name: string)
    requires k < |lines|
    ensures HasEntry(lines, k, name) <==> IsEntryAt(lines, k, name) || HasEntry(lines, ItemEnd(lines, k), name)
    ensures HasValue(lines, k, name) <==> IsValueAt(lines, k, name) || HasValue(lines, ItemEnd(lines, k), name)
  {
    ComesByFirst(lines, k, k);
    if j: nat :| ComesBy(lines, k, j) && IsEntryAt(lines, j, name) {
      ComesByFirst(lines, k, j);
    }
    if j: nat :| ComesBy(lines, ItemEnd(lines, k), j) && IsEntryAt(lines, j, name) {
      ComesByFirst(lines, k, j);
    }
    if j: nat :| ComesBy(lines, k, j) && IsValueAt(lines, j, name) {
      ComesByFirst(lines, k, j);
    }
    if j: nat :| ComesBy(lines, ItemEnd(lines, k), j) && IsValueAt(lines, j, name) {
      ComesByFirst(lines, k, j);
    }
  }

  /**
    * Missing is said exactly of a name without a value that stands in a value, or in an
    * entry that is not optional; dropped are exactly the optional entries without one; and
    * filled are exactly the names with one.
    */
  lemma {:induction false} NamesIff(st: Settings, lines: seq<Line>, k: nat, name: string)
    requires k <= |lines|
    ensures var w := Walk(st, lines, k);
            && (Missing(name) in w.errors <==>
                  !IsSupplied(st, name) && ((HasEntry(lines, k, name) && !IsOptional(st, name)) || HasValue(lines, k, name)))
            && (name in w.dropped <==> !IsSupplied(st, name) && HasEntry(lines, k, name) && IsOptional(st, name))
            && (name in w.filled <==> IsSupplied(st, name) && (HasEntry(lines, k, name) || HasValue(lines, k, name)))
    decreases |lines| - k
  {
    if k < |lines| {
      OneItemNames(st, lines, k, name);
      HasEntryFirst(lines, k, name);
      NamesIff(st, lines, ItemEnd(lines, k), name);
    }
  }

  // ---------------------------------------------------------------- what else is refused

  ghost predicate HasInexact(lines: seq<Line>, k: nat, key: string)
    requires k <= |lines|
  {
    exists j: nat :: ComesBy(lines, k, j) && IsInexactAt(lines, j, key)
  }

  ghost predicate IsInexactAt(lines: seq<Line>, j: nat, key: string) {
    j < |lines| && IsEntry(lines[j]) && ParseKey(lines[j]).value.1 == key && !IsExact(lines[j..ItemEnd(lines, j)], key)
  }

  /** A placeholder stands there that is no whole value. */
  ghost predicate IsPartAt(lines: seq<Line>, j: nat) {
    && j < |lines| && !IsEntry(lines[j]) && !IsComment(lines[j]) && HasPlaceholder(lines[j])
    && !exists prefix, name :: IsValueLineOf(lines[j], prefix, name)
  }

  lemma OneItemRefused(st: Settings, lines: seq<Line>, k: nat, key: string, n: nat)
    requires k < |lines|
    ensures NotExact(key) in OneItem(st, lines, k).errors <==> IsInexactAt(lines, k, key)
    ensures NotWhole(n) in OneItem(st, lines, k).errors <==> n == k + 1 && IsPartAt(lines, k)
  {
    if IsEntry(lines[k]) {
      OnlyValueErrors(st, ParseKey(lines[k]).value.1);
    } else {
      PartIff(lines, k);
      LineRefused(st, lines[k], k, key, n);
    }
  }

  lemma PartIff(lines: seq<Line>, k: nat)
    requires k < |lines|
    ensures IsPartAt(lines, k) <==> !IsEntry(lines[k]) && !IsComment(lines[k]) && HasPlaceholder(lines[k]) && ParseValue(lines[k]).None?
  {
    if ParseValue(lines[k]).Some? {
      var (prefix, name) := ParseValue(lines[k]).value;
      ParseValueIff(lines[k], prefix, name);
    }
    forall prefix, name | IsValueLineOf(lines[k], prefix, name) ensures ParseValue(lines[k]).Some? {
      ParseValueIff(lines[k], prefix, name);
    }
  }

  lemma LineRefused(st: Settings, line: Line, k: nat, key: string, n: nat)
    ensures NotExact(key) !in OneLine(st, line, k).errors
    ensures NotWhole(n) in OneLine(st, line, k).errors <==> n == k + 1 && !IsComment(line) && HasPlaceholder(line) && ParseValue(line).None?
  {
    if ParseValue(line).Some? {
      OnlyValueErrors(st, ParseValue(line).value.1);
    }
  }

  lemma OnlyValueErrors(st: Settings, name: string)
    ensures forall key :: NotExact(key) !in ValueOf(st, name).1
    ensures forall n :: NotWhole(n) !in ValueOf(st, name).1
  {
  }

  /** An entry is refused exactly if it is not exact, and a line, by its number, exactly if its placeholder is not its whole value. */
  lemma {:induction false} RefusedIff(st: Settings, lines: seq<Line>, k: nat, key: string, n: nat)
    requires k <= |lines|
    ensures NotExact(key) in Walk(st, lines, k).errors <==> HasInexact(lines, k, key)
    ensures NotWhole(n) in Walk(st, lines, k).errors <==> n > 0 && ComesBy(lines, k, n - 1) && IsPartAt(lines, n - 1)
    decreases |lines| - k
  {
    if k < |lines| {
      var next := ItemEnd(lines, k);
      OneItemRefused(st, lines, k, key, n);
      RefusedIff(st, lines, next, key, n);
      InexactFirst(lines, k, key);
      if n > 0 {
        ComesByFirst(lines, k, n - 1);
      }
    }
  }

  lemma InexactFirst(lines: seq<Line>, k: nat, key: string)
    requires k < |lines|
    ensures HasInexact(lines, k, key) <==> IsInexactAt(lines, k, key) || HasInexact(lines, ItemEnd(lines, k), key)
  {
    ComesByFirst(lines, k, k);
    if j: nat :| ComesBy(lines, k, j) && IsInexactAt(lines, j, key) {
      ComesByFirst(lines, k, j);
    }
    if j: nat :| ComesBy(lines, ItemEnd(lines, k), j) && IsInexactAt(lines, j, key) {
      ComesByFirst(lines, k, j);
    }
  }

  // ---------------------------------------------------------------- what ends a component

  /** A top key: small letters or underscores, and a colon. */
  lemma TopKeyIff(line: Line)
    ensures IsTopKey(line) <==> exists word, rest :: IsSmallWord(word) && line == word + (":" + rest)
  {
    if IsTopKey(line) {
      var n := WordRun(line);
      SmallRun(line, n);
      assert line == line[..n] + (":" + line[n + 1..]);
    }
    if word, rest :| IsSmallWord(word) && line == word + (":" + rest) {
      forall k | 0 <= k < |word| ensures IsWordChar(word[k]) {
        assert word[k] in word;
      }
      WordRunOf(word, ":" + rest);
    }
  }

  lemma SmallRun(line: Line, n: nat)
    requires n == WordRun(line) && n > 0
    ensures IsSmallWord(line[..n])
  {
    forall c | c in line[..n] ensures IsSmall(c) {
      var k :| 0 <= k < n && line[..n][k] == c;
    }
  }

  /** A component ends at the next one's name or at a top key; what is dropped ends at a comment of that depth as well. */
  lemma EndsIff(line: Line)
    ensures EndsBlock(line) <==> (exists rest :: line == "  - name: " + rest) || exists word, rest :: IsSmallWord(word) && line == word + (":" + rest)
    ensures EndsDrop(line) <==> EndsBlock(line) || exists rest :: line == "  #" + rest
  {
    TopKeyIff(line);
    StartsIff(line, "  - name: ");
    StartsIff(line, "  #");
  }

  lemma StartsIff(line: Line, p: string)
    ensures StartsWith(line, p) <==> exists rest :: line == p + rest
  {
    if StartsWith(line, p) {
      assert line == p + line[|p|..];
    }
  }
}
