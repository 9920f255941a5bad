/**
  * The lines `render` itself writes around the entries, and so what the resolved spec of
  * either environment has: its keys, and at launch no Redis component.
  */
module AppSpecTemplate {
  import opened Options
  import opened AppSpec
  import opened AppSpecText
  import opened AppSpecKeys
  import opened AppSpecLaunch

  /** A fixed line: its indentation, and its text. */
  datatype Fixed = Fixed(indent: nat, text: string)

  /** After its indentation neither `- k` nor `- n` comes. */
  predicate IsPlain(f: Fixed) {
    f.text != "" && !IsSpace(f.text[0]) && (f.text[0] == '-' ==> |f.text| > 2 && f.text[2] != 'k' && f.text[2] != 'n')
  }

  type PlainLine = f: Fixed | IsPlain(f) witness Fixed(0, "#")

  /** A line of a component's own depth, with no placeholder. */
  type BodyLine = f: PlainLine | f.indent > 2 && '$' !in f.text witness Fixed(4, "#")

  predicate IsKey(key: string) {
    key != "" && 'a' <= key[0] <= 'z'
  }

  function Note(n: nat, text: string): PlainLine {
    Fixed(n, "#" + text)
  }

  function Key(n: nat, key: string): PlainLine
    requires IsKey(key)
  {
    Fixed(n, key + ":")
  }

  function Field(n: nat, key: string, value: string): PlainLine
    requires IsKey(key)
  {
    Fixed(n, key + ": " + value)
  }

  function Item(n: nat, text: string): PlainLine
    requires text != "" && text[0] !in "kn"
  {
    Fixed(n, "- " + text)
  }

  function Body(f: PlainLine): BodyLine
    requires f.indent > 2 && '$' !in f.text
  {
    f
  }

  function Spaces(n: nat): string {
    seq(n, _ => ' ')
  }

  function LineOf(f: Fixed): Line {
    Spaces(f.indent) + f.text
  }

  function Lines(fs: seq<PlainLine>): seq<Line> {
    seq(|fs|, k requires 0 <= k < |fs| => LineOf(fs[k]))
  }

  // ---------------------------------------------------------------- render's lines

  /** What the comments say, block by block; nothing depends on it. */
  type Says = nat -> seq<string>

  function Notes(n: nat, texts: seq<string>): seq<PlainLine> {
    seq(|texts|, k requires 0 <= k < |texts| => Note(n, texts[k]))
  }

  function ImageBlock(repository: string, tagVar: string): seq<PlainLine> {
    [Key(4, "image"),
     Field(6, "registry_type", "GHCR"),
     Field(6, "registry", "mohamedemadlasheen"),
     Field(6, "repository", repository),
     Field(6, "tag", Placeholder(tagVar)),
     Field(6, "registry_credentials", "${GHCR_PULL_CREDENTIALS}")]
  }

  function Size(slug: string): seq<PlainLine> {
    [Field(4, "instance_size_slug", slug), Field(4, "instance_count", "1")]
  }

  function Domain(domain: string, kind: string): seq<PlainLine> {
    [Item(2, "domain: " + Placeholder(domain)), Field(4, "type", kind), Field(4, "minimum_tls_version", "\"1.2\"")]
  }

  function Route(domain: string, component: string): seq<PlainLine> {
    [Item(4, "match:"),
     Key(8, "authority"),
     Field(10, "exact", Placeholder(domain)),
     Key(8, "path"),
     Field(10, "prefix", "/"),
     Key(6, "component"),
     Field(8, "name", component)]
  }

  function AppLines(env: string, say: Says): seq<PlainLine> {
    Notes(0, say(0)) + [Field(0, "name", "jawwid-chat-" + env)] + Notes(0, say(1))
    + [Field(0, "region", "fra"), Key(0, "alerts"), Item(2, "rule: DEPLOYMENT_FAILED"), Item(2, "rule: DOMAIN_FAILED")]
  }

  function HeadLines(env: string, say: Says): seq<PlainLine> {
    AppLines(env, say)
    + (Notes(0, say(2)) + ([Key(0, "domains")] + (Domain("API_DOMAIN", "PRIMARY") + Domain("ADMIN_WEB_DOMAIN", "ALIAS"))))
    + ([Key(0, "ingress"), Key(2, "rules")] + (Route("API_DOMAIN", "api") + Route("ADMIN_WEB_DOMAIN", "admin-web")))
    + ([Key(0, "services")] + Notes(2, say(3)))
  }

  function Probe(key: string, path: string, delay: string, period: string): seq<PlainLine>
    requires IsKey(key)
  {
    [Key(4, key),
     Field(6, "http_path", path),
     Field(6, "initial_delay_seconds", delay),
     Field(6, "period_seconds", period),
     Field(6, "timeout_seconds", "5"),
     Field(6, "failure_threshold", "3")]
  }

  function ApiLines(say: Says): seq<PlainLine> {
    (ImageBlock("jawwid-chat/api", "API_IMAGE_TAG")
     + ([Field(4, "run_command", "node dist/main.js"), Field(4, "http_port", "3000")] + Size("apps-s-1vcpu-1gb")))
    + (Notes(4, say(4)) + (Probe("health_check", "/health/ready", "10", "10") + [Field(6, "success_threshold", "1")]))
    + (Notes(4, say(5)) + Probe("liveness_health_check", "/health/live", "20", "30"))
    + (Notes(4, say(6)) + [Key(4, "termination"), Field(6, "grace_period_seconds", "20"), Key(4, "envs")])
  }

  function WebLines(): seq<PlainLine> {
    ImageBlock("jawwid-chat/admin-web", "ADMIN_WEB_IMAGE_TAG")
    + ([Field(4, "http_port", "8080")] + Size("apps-s-1vcpu-0.5gb"))
    + [Key(4, "health_check"), Field(6, "http_path", "/healthz"), Key(4, "liveness_health_check"), Field(6, "http_path", "/healthz")]
  }

  function RedisCommand(): (command: string)
    ensures '$' !in command
  {
    "valkey-server " + "--port 6379 " + "--protected-mode no " + "--appendonly no " + "--maxmemory 256mb " + "--maxmemory-policy " + "noeviction"
  }

  function RedisImage(): seq<BodyLine> {
    [Body(Key(4, "image")),
     Body(Field(6, "registry_type", "DOCKER_HUB")),
     Body(Field(6, "registry", "valkey")),
     Body(Field(6, "repository", "valkey")),
     Body(Field(6, "tag", "8.1.11-alpine"))]
  }

  function RedisPorts(): seq<BodyLine> {
    [Body(Field(4, "run_command", RedisCommand())),
     Body(Key(4, "internal_ports")),
     Body(Item(6, "6379")),
     Body(Field(4, "instance_size_slug", "apps-s-1vcpu-0.5gb")),
     Body(Field(4, "instance_count", "1")),
     Body(Key(4, "health_check")),
     Body(Field(6, "port", "6379"))]
  }

  function RedisBody(): seq<BodyLine> {
    RedisImage() + RedisPorts()
  }

  function WorkerLines(): seq<PlainLine> {
    ImageBlock("jawwid-chat/api", "API_IMAGE_TAG")
    + ([Field(4, "run_command", "node dist/worker.js")] + Size("apps-s-1vcpu-0.5gb"))
    + [Key(4, "termination"), Field(6, "grace_period_seconds", "20"), Key(4, "envs")]
  }

  /** Lines, the name of one component, and the lines below it. */
  function Opening(above: seq<PlainLine>, name: string, below: seq<PlainLine>): seq<Line> {
    Lines(above) + [NameLine(name)] + Lines(below)
  }

  function HeadOf(env: string, say: Says): seq<Line> {
    Opening(HeadLines(env, say), "api", ApiLines(say))
  }

  function WebOf(say: Says): seq<Line> {
    Opening(Notes(2, say(7)), "admin-web", WebLines() + [Key(4, "envs")])
  }

  function RedisOf(say: Says): Part {
    Part(Lines(Notes(2, say(8))), "redis", Lines(RedisBody()))
  }

  function WorkerOf(say: Says): seq<Line> {
    Opening([Key(0, "workers")] + Notes(2, say(9)), "worker", WorkerLines())
  }

  /** render, but for its entries: the same lines in either environment, under its own name. */
  function LayoutOf(env: string, say: Says): Layout {
    Layout(HeadOf(env, say), WebOf(say), RedisOf(say), WorkerOf(say))
  }

  // ---------------------------------------------------------------- they hold no key and open one component each

  lemma CharOf(s: string, p: string, k: nat)
    requires StartsWith(s, p) && k < |p|
    ensures s[k] == p[k]
  {
    assert s[..|p|][k] == s[k];
  }

  lemma PlainHasNoKey(f: PlainLine)
    ensures ParseKey(LineOf(f)).None? && ComponentOf(LineOf(f)).None?
  {
    var line := LineOf(f);
    SkipSpacesOf(Spaces(f.indent), f.text);
    assert line[f.indent..] == f.text;
    if StartsWith(f.text, "- key: ") {
      CharOf(f.text, "- key: ", 0);
      CharOf(f.text, "- key: ", 2);
    }
    PlainIsNoName(f);
  }

  lemma PlainIsNoName(f: PlainLine)
    ensures !StartsWith(LineOf(f), NameLine(""))
  {
    var line, name := LineOf(f), NameLine("");
    assert line[f.indent] == f.text[0];
    assert name[0] == ' ' && name[1] == ' ' && name[2] == '-' && name[4] == 'n';
    assert |f.text| > 2 ==> line[f.indent + 2] == f.text[2];
    if f.indent < 2 {
      CharDiffers(line, name, f.indent);
    } else if f.indent > 2 || f.text[0] != '-' {
      CharDiffers(line, name, 2);
    } else {
      CharDiffers(line, name, 4);
    }
  }

  lemma NameLineOpens(c: Option<string>, name: string)
    requires IsComponentName(name)
    ensures ParseKey(NameLine(name)).None? && After(c, [NameLine(name)]) == Some(name)
  {
    var rest := "- name: " + name;
    assert NameLine(name) == "  " + rest;
    SkipSpacesOf("  ", rest);
    CharDiffers(rest, "- key: ", 2);
    NameLineNames(name);
    assert [NameLine(name)][1..] == [];
  }

  lemma {:induction false} PlainLines(c: Option<string>, fs: seq<PlainLine>)
    ensures After(c, Lines(fs)) == c && NoEntry(Lines(fs)) && forall k :: 0 <= k < |fs| ==> ComponentOf(Lines(fs)[k]).None?
    decreases |fs|
  {
    if fs != [] {
      PlainHasNoKey(fs[0]);
      PlainLines(c, fs[1..]);
      assert Lines(fs)[1..] == Lines(fs[1..]);
      assert forall k :: 0 < k < |fs| ==> Lines(fs)[k] == Lines(fs[1..])[k - 1];
    }
  }

  /** A component's name between plain lines: no entry, and that component from there on. */
  lemma OpeningOpens(above: seq<PlainLine>, name: string, below: seq<PlainLine>)
    requires IsComponentName(name)
    ensures var lines := Opening(above, name, below);
            && NoEntry(lines) && (forall c :: After(c, lines) == Some(name)) && (forall other :: other != name ==> NotNamed(lines, other))
  {
    var a, b := Lines(above), Lines(below);
    NameLineOpens(None, name);
    PlainLines(None, above);
    PlainLines(None, below);
    NameLineNames(name);
    forall c ensures After(c, a + [NameLine(name)] + b) == Some(name) {
      PlainLines(c, above);
      NameLineOpens(c, name);
      PlainLines(Some(name), below);
      AfterBoth(c, a, [NameLine(name)]);
      AfterBoth(c, a + [NameLine(name)], b);
    }
  }

  // ---------------------------------------------------------------- so they are a template

  lemma ShallowEnds(line: Line, n: nat)
    requires n < |line| && n < 8 && line[n] != ' '
    ensures !Continues(line, INDENT)
  {
    if StartsWith(line, INDENT + "  ") {
      CharOf(line, INDENT + "  ", n);
    }
  }

  lemma FirstLine(above: seq<PlainLine>, name: string, below: seq<PlainLine>)
    requires above != []
    ensures Opening(above, name, below) != [] && Opening(above, name, below)[0] == LineOf(above[0])
  {
  }

  lemma LastLine(above: seq<PlainLine>, name: string, below: seq<PlainLine>, last: PlainLine)
    ensures var lines := Opening(above, name, below + [last]); lines[|lines| - 1] == LineOf(last)
  {
  }

  /** No entry, and this component from there on, whichever stood before. */
  ghost predicate Opens(lines: seq<Line>, name: string) {
    NoEntry(lines) && (forall c :: After(c, lines) == Some(name)) && (forall other :: other != name ==> NotNamed(lines, other))
  }

  lemma HeadOpens(env: string, say: Says)
    ensures Opens(HeadOf(env, say), "api")
  {
    OpeningOpens(HeadLines(env, say), "api", ApiLines(say));
  }

  lemma WebOpens(say: Says)
    ensures Opens(WebOf(say), "admin-web")
  {
    OpeningOpens(Notes(2, say(7)), "admin-web", WebLines() + [Key(4, "envs")]);
  }

  lemma WorkerOpens(say: Says)
    ensures Opens(WorkerOf(say), "worker")
  {
    OpeningOpens([Key(0, "workers")] + Notes(2, say(9)), "worker", WorkerLines());
  }

  lemma RedisOpens(say: Says)
    ensures Opens(PartLines(RedisOf(say)), "redis")
  {
    OpeningOpens(Notes(2, say(8)), "redis", RedisBody());
  }

  /** Comments of two spaces, or none, and a component's name. */
  lemma NotesStart(texts: seq<string>, name: string, rest: seq<Line>)
    ensures var lines := Lines(Notes(2, texts)) + [NameLine(name)] + rest; lines != [] && !Continues(lines[0], INDENT)
  {
    var line := if texts == [] then NameLine(name) else LineOf(Note(2, texts[0]));
    assert line[2] == if texts == [] then '-' else '#';
    ShallowEnds(line, 2);
    assert (Lines(Notes(2, texts)) + [NameLine(name)] + rest)[0] == line;
  }

  lemma WorkerStarts(say: Says)
    ensures WorkerOf(say) != [] && WorkerOf(say)[0] == LineOf(Key(0, "workers")) && !Continues(WorkerOf(say)[0], INDENT)
  {
    FirstLine([Key(0, "workers")] + Notes(2, say(9)), "worker", WorkerLines());
    ShallowEnds(LineOf(Key(0, "workers")), 0);
  }

  lemma IsALayout(l: Layout)
    requires Opens(l.head, "api") && Opens(l.web, "admin-web") && Opens(PartLines(l.redis), "redis") && Opens(l.worker, "worker")
    requires l.web != [] && !Continues(l.web[0], INDENT) && l.worker != [] && !Continues(l.worker[0], INDENT)
    requires PartLines(l.redis) != [] && !Continues(PartLines(l.redis)[0], INDENT)
    ensures IsLayout(l) && OpensComponents(l)
  {
  }

  lemma FixedLinesAreALayout(env: string, say: Says)
    ensures IsLayout(LayoutOf(env, say)) && OpensComponents(LayoutOf(env, say))
  {
    HeadOpens(env, say);
    WebOpens(say);
    WorkerOpens(say);
    RedisOpens(say);
    NotesStart(say(8), "redis", Lines(RedisBody()));
    NotesStart(say(7), "admin-web", Lines(WebLines() + [Key(4, "envs")]));
    WorkerStarts(say);
    IsALayout(LayoutOf(env, say));
  }

  // ---------------------------------------------------------------- and the Redis component is its own

  lemma NoDollarNoPlaceholder(line: Line)
    requires '$' !in line
    ensures !HasPlaceholder(line)
  {
    assert forall k :: 0 <= k < |line| ==> !PlaceholderAt(line, k);
  }

  lemma BodyEndsNothing(f: BodyLine)
    ensures !HasPlaceholder(LineOf(f)) && !EndsDrop(LineOf(f))
  {
    var line := LineOf(f);
    assert '$' !in Spaces(f.indent);
    NoDollarNoPlaceholder(line);
    PlainIsNoName(f);
    assert line[0] == ' ' && line[2] == ' ';
    CharDiffers(line, "  #", 2);
  }

  /** A word and a colon, not indented, ends whatever stands before. */
  lemma TopKeyEnds(key: string)
    requires IsKey(key) && '$' !in key && forall k :: 0 <= k < |key| ==> IsWordChar(key[k])
    ensures EndsDrop(LineOf(Key(0, key))) && !HasPlaceholder(LineOf(Key(0, key)))
  {
    var line := LineOf(Key(0, key));
    assert line == key + ":";
    WordRunOf(key, ":");
    NoDollarNoPlaceholder(line);
  }

  lemma LastOfWeb(say: Says)
    ensures var web := WebOf(say); web != [] && !HasPlaceholder(web[|web| - 1]) && EndsInNoComment(web)
  {
    var line := LineOf(Key(4, "envs"));
    LastLine(Notes(2, say(7)), "admin-web", WebLines(), Key(4, "envs"));
    assert '$' !in Spaces(4);
    NoDollarNoPlaceholder(line);
    assert line[2] == ' ';
    CharDiffers(line, "  #", 2);
  }

  lemma TopNotes(texts: seq<string>)
    ensures forall k :: 0 <= k < |texts| ==> IsTopComment(Lines(Notes(2, texts))[k])
  {
    forall k | 0 <= k < |texts| ensures IsTopComment(Lines(Notes(2, texts))[k]) {
      assert Spaces(2) == "  ";
      assert Lines(Notes(2, texts))[k] == ("  " + "#") + texts[k];
    }
  }

  lemma BodyLines(fs: seq<BodyLine>)
    ensures forall k :: 0 <= k < |fs| ==> !HasPlaceholder(Lines(fs)[k]) && !EndsDrop(Lines(fs)[k])
  {
    forall k | 0 <= k < |fs| ensures !HasPlaceholder(Lines(fs)[k]) && !EndsDrop(Lines(fs)[k]) {
      BodyEndsNothing(fs[k]);
    }
  }

  lemma RedisIsItsOwn(env: string, say: Says)
    ensures IsRedisPart(LayoutOf(env, say))
  {
    TopNotes(say(8));
    BodyLines(RedisBody());
    HeadOpens(env, say);
    WebOpens(say);
    LastOfWeb(say);
    WorkerStarts(say);
    TopKeyEnds("workers");
  }

  // ---------------------------------------------------------------- the manifest's rows

  lemma {:induction false} RowNames(rows: seq<Row>)
    requires NamesAreUpperCase(rows)
    ensures NamesAreUpperCase(AppEnvRows(rows)) && NamesAreUpperCase(WorkerRows(rows))
    decreases |rows|
  {
    if rows != [] {
      assert forall k :: 0 <= k < |rows[1..]| ==> rows[1..][k] == rows[k + 1];
      RowNames(rows[1..]);
    }
  }

  lemma {:induction false} WebNames(keys: seq<string>)
    requires forall k :: 0 <= k < |keys| ==> IsName(keys[k])
    ensures NamesAreUpperCase(WebRows(keys))
    decreases |keys|
  {
    if keys != [] {
      assert forall k :: 0 <= k < |keys[1..]| ==> keys[1..][k] == keys[k + 1];
      WebNames(keys[1..]);
    }
  }

  lemma WebNamesFit()
    ensures NamesAreUpperCase(WebRows(ADMIN_WEB_ENV))
  {
    WebNames(ADMIN_WEB_ENV);
  }

  lemma NamesFit(rows: seq<Row>)
    requires NamesAreUpperCase(rows)
    ensures NamesAreUpperCase(AppEnvRows(rows)) && NamesAreUpperCase(WorkerRows(AppEnvRows(rows))) && NamesAreUpperCase(WebRows(ADMIN_WEB_ENV))
  {
    RowNames(rows);
    RowNames(AppEnvRows(rows));
    WebNamesFit();
  }

  lemma IsTheTemplate(st: Settings, env: string, say: Says, rows: seq<Row>)
    requires QuotesInQuotes(st) && NamesAreUpperCase(rows)
    ensures IsTemplate(st, LayoutOf(env, say), rows)
  {
    FixedLinesAreALayout(env, say);
    NamesFit(rows);
  }

  /** What either environment's rendered spec is resolved to: exactly these keys, of these types. */
  lemma RenderedKeys(st: Settings, env: string, say: Says, rows: seq<Row>)
    requires QuotesInQuotes(st) && NamesAreUpperCase(rows)
    ensures KeysFrom(None, Walk(st, Render(LayoutOf(env, say), rows), 0).out) == AllKeys(st, rows)
  {
    IsTheTemplate(st, env, say, rows);
    KeysAreTheManifests(st, LayoutOf(env, say), rows);
  }

  /** At launch it loses its Redis component with the comments above it, and no key. */
  lemma RenderedLaunch(st: Settings, env: string, say: Says, rows: seq<Row>, from: nat, to: nat)
    requires QuotesInQuotes(st) && NamesAreUpperCase(rows)
    requires IsDropped(Walk(st, Render(LayoutOf(env, say), rows), 0).out, "redis", from, to)
    ensures var out := Walk(st, Render(LayoutOf(env, say), rows), 0).out;
            && out[from..to] == PartLines(RedisOf(say))
            && KeysFrom(None, out[..from] + out[to..]) == AllKeys(st, rows)
  {
    IsTheTemplate(st, env, say, rows);
    RedisIsItsOwn(env, say);
    LaunchDropsRedisAlone(st, LayoutOf(env, say), rows, from, to);
  }

  // ---------------------------------------------------------------- in the manifest's and the environment's own terms

  lemma {:induction false} SetKeysAre(st: Settings, c: Option<string>, rows: seq<Row>, e: Env)
    ensures e in SetKeys(st, c, rows)
            <==> exists r :: r in rows && IsSupplied(st, r.name) && e == Env(c, r.name, Some(if r.secret then "SECRET" else "GENERAL"))
    decreases |rows|
  {
    if rows != [] {
      SuppliedIff(st, rows[0].name);
      SetKeysAre(st, c, rows[1..], e);
      assert rows == [rows[0]] + rows[1..];
    }
  }

  /** The manifest allows this row here, and the environment supplies it. */
  ghost predicate IsGiven(st: Settings, rows: seq<Row>, r: Row) {
    r in rows && r.rule != Forbidden && r.group != "backup" && IsSupplied(st, r.name)
  }

  /** Admin Web's own five. */
  predicate IsWebName(name: string) {
    name == "API_ORIGIN" || name == "REALTIME_ORIGIN" || name == "LIVEKIT_ORIGIN" || name == "STORAGE_ORIGIN" || name == "MATERIALS_FRAME_ORIGINS"
  }

  lemma WebNamesAre(name: string)
    ensures name in ADMIN_WEB_ENV <==> IsWebName(name)
  {
  }

  /** A resolved key, of its component and its type: exactly of a row that is given. */
  ghost predicate IsRightKey(st: Settings, rows: seq<Row>, e: Env) {
    || (e.component == Some("api") && exists r :: IsGiven(st, rows, r) && e.key == r.name && e.kind == Some(if r.secret then "SECRET" else "GENERAL"))
    || (e.component == Some("worker") && e.key != "LESSON_APPROVALS_SIGNING_KEY"
        && exists r :: IsGiven(st, rows, r) && e.key == r.name && e.kind == Some(if r.secret then "SECRET" else "GENERAL"))
    || (e.component == Some("admin-web") && IsWebName(e.key) && IsSupplied(st, e.key) && e.kind == Some("GENERAL"))
  }

  lemma ApiKeysAre(st: Settings, rows: seq<Row>, e: Env)
    ensures e in SetKeys(st, Some("api"), AppEnvRows(rows)) <==> e.component == Some("api") && IsRightKey(st, rows, e)
  {
    SetKeysAre(st, Some("api"), AppEnvRows(rows), e);
    forall r ensures r in AppEnvRows(rows) <==> r in rows && r.rule != Forbidden && r.group != "backup" {
      AppEnvIs(rows, r);
    }
  }

  lemma WorkerKeysAre(st: Settings, rows: seq<Row>, e: Env)
    ensures e in SetKeys(st, Some("worker"), WorkerRows(AppEnvRows(rows))) <==> e.component == Some("worker") && IsRightKey(st, rows, e)
  {
    SetKeysAre(st, Some("worker"), WorkerRows(AppEnvRows(rows)), e);
    forall r ensures r in WorkerRows(AppEnvRows(rows))
                     <==> r in rows && r.rule != Forbidden && r.group != "backup" && r.name != "LESSON_APPROVALS_SIGNING_KEY" {
      WorkerIs(AppEnvRows(rows), r);
      AppEnvIs(rows, r);
    }
  }

  lemma WebKeysAre(st: Settings, rows: seq<Row>, e: Env)
    ensures e in SetKeys(st, Some("admin-web"), WebRows(ADMIN_WEB_ENV)) <==> e.component == Some("admin-web") && IsRightKey(st, rows, e)
  {
    WebNamesAre(e.key);
    NamedKeysAre(st, ADMIN_WEB_ENV, e);
  }

  lemma NamedKeysAre(st: Settings, keys: seq<string>, e: Env)
    ensures e in SetKeys(st, Some("admin-web"), WebRows(keys))
            <==> e.component == Some("admin-web") && e.key in keys && IsSupplied(st, e.key) && e.kind == Some("GENERAL")
  {
    SetKeysAre(st, Some("admin-web"), WebRows(keys), e);
    forall r ensures r in WebRows(keys) <==> r.name in keys && r == Row(r.name, "", false, Required) {
      WebIs(keys, r);
    }
    if e.key in keys {
      assert Row(e.key, "", false, Required) in WebRows(keys);
    }
  }

  /** Exactly the given rows are keys of the resolved spec, of their components and types. */
  lemma RenderedKeysAreGiven(st: Settings, env: string, say: Says, rows: seq<Row>, e: Env)
    requires QuotesInQuotes(st) && NamesAreUpperCase(rows)
    ensures e in KeysFrom(None, Walk(st, Render(LayoutOf(env, say), rows), 0).out) <==> IsRightKey(st, rows, e)
  {
    RenderedKeys(st, env, say, rows);
    AllKeysAre(st, rows, e);
  }

  lemma AllKeysAre(st: Settings, rows: seq<Row>, e: Env)
    ensures e in AllKeys(st, rows) <==> IsRightKey(st, rows, e)
  {
    ApiKeysAre(st, rows, e);
    WorkerKeysAre(st, rows, e);
    WebKeysAre(st, rows, e);
  }

  ghost predicate NamedOnce(rows: seq<Row>) {
    forall i, j :: 0 <= i < j < |rows| ==> rows[i].name != rows[j].name
  }

  /** It is said to be missing, and not left out. */
  ghost predicate IsRefused(w: Walked, name: string) {
    Missing(name) in w.errors && name !in w.dropped
  }

  /** A rendered template that resolves without errors: every required row it may have is supplied. */
  lemma RequiredIsSupplied(st: Settings, env: string, say: Says, rows: seq<Row>, r: Row)
    requires NamesAreUpperCase(rows) && st.rules == RulesOf(rows)
    requires NamedOnce(rows)
    requires r in rows && r.rule == Required && r.group != "backup"
    ensures !IsSupplied(st, r.name) ==> IsRefused(Walk(st, Render(LayoutOf(env, say), rows), 0), r.name)
  {
    FixedLinesAreALayout(env, say);
    RequiredIn(st, LayoutOf(env, say), rows, r);
  }

  lemma RequiredIn(st: Settings, l: Layout, rows: seq<Row>, r: Row)
    requires IsLayout(l) && NamesAreUpperCase(rows) && st.rules == RulesOf(rows)
    requires NamedOnce(rows)
    requires r in rows && r.rule == Required && r.group != "backup"
    ensures !IsSupplied(st, r.name) ==> IsRefused(Walk(st, Render(l, rows), 0), r.name)
  {
    AppEnvIs(rows, r);
    RowNames(rows);
    RowHasEntry(l, rows, r);
    RuleIs(rows, r);
    NamesIff(st, Render(l, rows), 0, r.name);
  }
}
