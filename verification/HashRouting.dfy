/**
  * The dashboard's hash resolution (gui/src/app-routing.ts, over gui/src/hash-routing.ts): the
  * page a hash paints on a cold load, and the hash a retired or unowned one is replaced with.
  */
module HashRouting {
  import opened Options
  import PoolSettings

  datatype Page =
    | Dashboard | Startup | Routing | Providers | Models | Subagents | Sessions
    | Logs | Usage | Tasks | Storage | Api | Integrations | Harnesses

  function PageText(p: Page): string {
    match p
    case Dashboard => "dashboard"
    case Startup => "startup"
    case Routing => "routing"
    case Providers => "providers"
    case Models => "models"
    case Subagents => "subagents"
    case Sessions => "sessions"
    case Logs => "logs"
    case Usage => "usage"
    case Tasks => "tasks"
    case Storage => "storage"
    case Api => "api"
    case Integrations => "integrations"
    case Harnesses => "harnesses"
  }

  /** The page a root word names, if it names one. */
  function PageNamed(word: string): Option<Page> {
    if word == "dashboard" then Some(Dashboard)
    else if word == "startup" then Some(Startup)
    else if word == "routing" then Some(Routing)
    else if word == "providers" then Some(Providers)
    else if word == "models" then Some(Models)
    else if word == "subagents" then Some(Subagents)
    else if word == "sessions" then Some(Sessions)
    else if word == "logs" then Some(Logs)
    else if word == "usage" then Some(Usage)
    else if word == "tasks" then Some(Tasks)
    else if word == "storage" then Some(Storage)
    else if word == "api" then Some(Api)
    else if word == "integrations" then Some(Integrations)
    else if word == "harnesses" then Some(Harnesses)
    else None
  }

  // ---------------------------------------------------------------- hashes

  /** Drops one `#` or `#/` marker. */
  function Normalize(hash: string): string {
    if hash != [] && hash[0] == '#' then
      if |hash| > 1 && hash[1] == '/' then hash[2..] else hash[1..]
    else hash
  }

  function Before(s: string, c: char): string {
    if s == [] || s[0] == c then [] else [s[0]] + Before(s[1..], c)
  }

  function After(s: string, c: char): (r: string)
    ensures |r| <= |s| && (s != [] ==> |r| < |s|)
  {
    if s == [] then [] else if s[0] == c then s[1..] else After(s[1..], c)
  }

  function PathOf(hash: string): string {
    Before(Normalize(hash), '?')
  }

  function QueryOf(hash: string): string {
    After(Normalize(hash), '?')
  }

  /** At least one parameter: some piece between the ampersands is not empty. */
  predicate HasQuery(query: string) {
    var q := if query != [] && query[0] == '?' then query[1..] else query;
    exists c :: c in q && c != '&'
  }

  /** The first two segments of a path. */
  function Root(path: string): string {
    Before(path, '/')
  }

  function Surface(path: string): string {
    Before(After(path, '/'), '/')
  }

  /** `raw` is the prefix or continues it with a new segment. */
  predicate MatchesPrefix(raw: string, prefix: string) {
    raw == prefix || prefix + ['/'] <= raw
  }

  // ---------------------------------------------------------------- ownership

  /** The validators of the three pages whose hash carries query state, over path and query text. */
  datatype Validators = Validators(
    sessions: (string, string) -> bool,
    logs: (string, string) -> bool,
    storage: (string, string) -> bool)

  /** The validators accept their page's own root, and Logs accepts the debug surface. */
  ghost predicate AcceptOwnRoots(v: Validators) {
    v.sessions("sessions", "") && v.logs("logs", "") && v.logs("logs/debug", "") && v.storage("storage", "")
  }

  const LOGS_DEBUG_HASH := "logs/debug"

  function ProviderAccessHash(name: string): string {
    "providers" + ['/'] + (name + (['/'] + "access"))
  }

  /** The provider a hash of the form `providers/<name>/access` names. */
  function ReadProviderAccess(hash: string): Option<string> {
    var rest := After(PathOf(hash), '/');
    if HasQuery(QueryOf(hash)) then None
    else if Root(PathOf(hash)) == "providers" && Before(rest, '/') != [] && After(rest, '/') == "access"
    then Some(Before(rest, '/'))
    else None
  }

  predicate OwnsPath(page: Page, path: string) {
    || path == PageText(page)
    || (match page
        case Dashboard => path == "dashboard/providers" || path == "dashboard/models"
        case Routing =>
          path == "routing/combos" || path == "routing/evaluation" || path == "routing/analytics"
          || path == "routing/compatibility"
        case Usage =>
          path == "usage/breakdown" || path == "usage/breakdown/providers" || path == "usage/breakdown/accounts"
          || path == "usage/coverage"
        case Api => path == "api/clients" || path == "api/endpoints" || path == "api/models" || path == "api/examples"
        case Harnesses => "harnesses/" <= path
        case Providers => ReadProviderAccess(path).Some?
        case _ => false)
  }

  predicate Belongs(v: Validators, hash: string, page: Page) {
    var path := PathOf(hash);
    var query := QueryOf(hash);
    match page
    case Sessions => v.sessions(path, query)
    case Logs => v.logs(path, query)
    case Storage => v.storage(path, query)
    case _ => !HasQuery(query) && OwnsPath(page, path)
  }

  // ---------------------------------------------------------------- the cold-load page

  function RetiredRoot(root: string): Option<Page> {
    if root == "debug" then Some(Logs)
    else if root == "codex-auth" then Some(Providers)
    else if root == "combos" || root == "evaluation" || root == "analytics" || root == "lab" then Some(Routing)
    else if root == "claude" || root == "grok" then Some(Harnesses)
    else None
  }

  const STARTUP_SURFACES := ["combos", "routing", "evaluation", "analytics", "compatibility"]
  const MODELS_SURFACES := ["combos", "routing", "compatibility"]

  /** A former host and one of the surfaces it gave up to Routing. */
  predicate FormerRoutingSurface(root: string, surface: string) {
    (root == "startup" && surface in STARTUP_SURFACES) || (root == "models" && surface in MODELS_SURFACES)
  }

  function IntegrationsInheritor(raw: string): Page {
    if MatchesPrefix(raw, "integrations/keys") then Api else Harnesses
  }

  function ReadPage(hash: string): Page {
    var raw := Normalize(hash);
    var path := PathOf(raw);
    if RetiredRoot(Root(path)).Some? then RetiredRoot(Root(path)).value
    else if FormerRoutingSurface(Root(path), Surface(path)) then Routing
    else if Root(path) == "integrations" then IntegrationsInheritor(raw)
    else if PageNamed(Root(path)).Some? then PageNamed(Root(path)).value
    else Dashboard
  }

  // ---------------------------------------------------------------- resolution

  datatype Action = Action(page: Page, replaceTo: Option<string>)

  function RoutingHash(surface: string): string {
    if surface == "routing" then "routing"
    else if surface == "combos" then "routing/combos"
    else if surface == "evaluation" then "routing/evaluation"
    else if surface == "analytics" then "routing/analytics"
    else if surface == "compatibility" then "routing/compatibility"
    else "routing"
  }

  /** The first of a host's surfaces the hash is under. */
  function FirstSurface(raw: string, host: string, surfaces: seq<string>): Option<string> {
    if surfaces == [] then None
    else if MatchesPrefix(raw, host + ['/'] + surfaces[0]) then Some(surfaces[0])
    else FirstSurface(raw, host, surfaces[1..])
  }

  /** The surface word a rule for retired routing hashes finds. */
  function RetiredRoutingSurface(raw: string): Option<string> {
    if MatchesPrefix(raw, "combos") then Some("combos")
    else if MatchesPrefix(raw, "evaluation") then Some("evaluation")
    else if MatchesPrefix(raw, "analytics") then Some("analytics")
    else if MatchesPrefix(raw, "lab") then Some("compatibility")
    else if FirstSurface(raw, "startup", STARTUP_SURFACES).Some? then FirstSurface(raw, "startup", STARTUP_SURFACES)
    else FirstSurface(raw, "models", MODELS_SURFACES)
  }

  predicate RetiredApiSpelling(raw: string) {
    raw == "api/keys" || MatchesPrefix(raw, "integrations/keys")
  }

  function RetiredHarnessTarget(raw: string): Option<string> {
    if raw == "integrations/claude/desktop" then Some("harnesses/claude-desktop")
    else if raw == "integrations" || raw == "integrations/" then Some("harnesses")
    else if "integrations/" <= raw then
      var id := raw[|"integrations/"|..];
      Some(if id == "" then "harnesses" else "harnesses/" + id)
    else if raw == "claude" then Some("harnesses/claude")
    else if raw == "grok" then Some("harnesses/grok")
    else None
  }

  function Resolve(v: Validators, raw: string): Action {
    var page := ReadPage(raw);
    if MatchesPrefix(raw, "debug") then Action(Logs, Some(LOGS_DEBUG_HASH))
    else if MatchesPrefix(raw, "codex-auth") then Action(Providers, Some(ProviderAccessHash("openai")))
    else if RetiredRoutingSurface(raw).Some? then Action(Routing, Some(RoutingHash(RetiredRoutingSurface(raw).value)))
    else if RetiredApiSpelling(raw) then Action(Api, Some("api"))
    else if RetiredHarnessTarget(raw).Some? then Action(Harnesses, RetiredHarnessTarget(raw))
    else if raw == "providers/workspace" then Action(Providers, Some("providers"))
    else if !Belongs(v, raw, page) then Action(page, Some(PageText(page)))
    else Action(page, None)
  }

  // ---------------------------------------------------------------- words and segments

  /** A segment the route tables are made of. */
  predicate Word(w: string) {
    w != [] && forall c :: c in w ==> c != '/' && c != '?' && c != '#'
  }

  lemma {:induction false} BeforeOf(w: string, c: char, rest: string)
    requires c !in w && (rest == [] || rest[0] == c)
    ensures Before(w + rest, c) == w
    ensures After(w + rest, c) == if rest == [] then [] else rest[1..]
  {
    if w == [] {
      assert w + rest == rest;
    } else {
      assert (w + rest)[0] == w[0] && (w + rest)[1..] == w[1..] + rest;
      BeforeOf(w[1..], c, rest);
    }
  }

  lemma {:induction false} BeforePast(w: string, c: char, rest: string)
    requires c !in w
    ensures Before(w + rest, c) == w + Before(rest, c)
  {
    if w == [] {
      assert w + rest == rest && w + Before(rest, c) == Before(rest, c);
    } else {
      assert (w + rest)[0] == w[0] && (w + rest)[1..] == w[1..] + rest;
      BeforePast(w[1..], c, rest);
    }
  }

  lemma Unmarked(w: string, rest: string)
    requires Word(w)
    ensures Normalize(w + rest) == w + rest
  {
    assert (w + rest)[0] == w[0] && w[0] in w;
  }

  /** A hash under one word has that word as its root. */
  lemma RootOfMatch(raw: string, w: string)
    requires Word(w) && MatchesPrefix(raw, w)
    ensures Normalize(raw) == raw && Root(PathOf(raw)) == w
  {
    var rest := raw[|w|..];
    assert raw == w + rest;
    Unmarked(w, rest);
    BeforePast(w, '?', rest);
    BeforeOf(w, '/', Before(rest, '?'));
  }

  /** A hash under two words has them as its first two segments. */
  lemma SurfaceOfMatch(raw: string, w: string, u: string)
    requires Word(w) && Word(u) && MatchesPrefix(raw, w + ['/'] + u)
    ensures Normalize(raw) == raw && Root(PathOf(raw)) == w && Surface(PathOf(raw)) == u
  {
    var rest := raw[|w| + 1 + |u|..];
    SplitThree(raw, w, u);
    Unmarked(w, ['/'] + (u + rest));
    var tail := Before(rest, '?');
    BeforePast(w, '?', ['/'] + (u + rest));
    BeforePast(['/'], '?', u + rest);
    BeforePast(u, '?', rest);
    BeforeOf(w, '/', ['/'] + (u + tail));
    assert (['/'] + (u + tail))[1..] == u + tail;
    BeforeOf(u, '/', tail);
  }

  lemma SplitThree(raw: string, w: string, u: string)
    requires MatchesPrefix(raw, w + ['/'] + u)
    ensures |w| + 1 + |u| <= |raw|
    ensures var rest := raw[|w| + 1 + |u|..];
            raw == w + (['/'] + (u + rest)) && (rest == [] || rest[0] == '/')
  {
    var front := w + ['/'] + u;
    assert |front| == |w| + 1 + |u|;
    assert raw == front + raw[|front|..];
  }

  lemma {:induction false} NoCharBefore(s: string, c: char)
    requires c !in s
    ensures Before(s, c) == s && After(s, c) == []
  {
    BeforeOf(s, c, []);
    assert s + [] == s;
  }

  // ---------------------------------------------------------------- what a rule says about the root

  /** The roots and surfaces the retired spellings live under. */
  predicate RetiredPlace(raw: string) {
    var path := PathOf(raw);
    RetiredRoot(Root(path)).Some? || FormerRoutingSurface(Root(path), Surface(path)) || Root(path) == "integrations"
  }

  lemma {:induction false} FirstSurfaceFinds(raw: string, host: string, surfaces: seq<string>)
    requires FirstSurface(raw, host, surfaces).Some?
    ensures var u := FirstSurface(raw, host, surfaces).value;
            u in surfaces && MatchesPrefix(raw, host + ['/'] + u)
  {
    if !MatchesPrefix(raw, host + ['/'] + surfaces[0]) {
      FirstSurfaceFinds(raw, host, surfaces[1..]);
    }
  }

  lemma SurfaceWords(u: string)
    requires u in STARTUP_SURFACES || u in MODELS_SURFACES
    ensures Word(u)
  {
  }

  lemma FormerSurfaceAgrees(raw: string, host: string, u: string)
    requires Word(host) && Word(u) && MatchesPrefix(raw, host + ['/'] + u) && FormerRoutingSurface(host, u)
    requires RetiredRoot(host).None?
    ensures ReadPage(raw) == Routing && RetiredPlace(raw)
  {
    SurfaceOfMatch(raw, host, u);
  }

  lemma RetiredRootAgrees(raw: string, w: string)
    requires Word(w) && MatchesPrefix(raw, w) && RetiredRoot(w).Some?
    ensures ReadPage(raw) == RetiredRoot(w).value && RetiredPlace(raw)
  {
    RootOfMatch(raw, w);
  }

  lemma RoutingAgrees(raw: string)
    requires RetiredRoutingSurface(raw).Some?
    ensures ReadPage(raw) == Routing && RetiredPlace(raw)
  {
    if MatchesPrefix(raw, "combos") {
      RetiredRootAgrees(raw, "combos");
    } else if MatchesPrefix(raw, "evaluation") {
      RetiredRootAgrees(raw, "evaluation");
    } else if MatchesPrefix(raw, "analytics") {
      RetiredRootAgrees(raw, "analytics");
    } else if MatchesPrefix(raw, "lab") {
      RetiredRootAgrees(raw, "lab");
    } else if FirstSurface(raw, "startup", STARTUP_SURFACES).Some? {
      StartupAgrees(raw);
    } else {
      ModelsAgrees(raw);
    }
  }

  lemma StartupAgrees(raw: string)
    requires FirstSurface(raw, "startup", STARTUP_SURFACES).Some?
    ensures ReadPage(raw) == Routing && RetiredPlace(raw)
  {
    var u := FirstSurface(raw, "startup", STARTUP_SURFACES).value;
    FirstSurfaceFinds(raw, "startup", STARTUP_SURFACES);
    SurfaceWords(u);
    PageWords(Startup);
    FormerSurfaceAgrees(raw, PageText(Startup), u);
  }

  lemma ModelsAgrees(raw: string)
    requires FirstSurface(raw, "models", MODELS_SURFACES).Some?
    ensures ReadPage(raw) == Routing && RetiredPlace(raw)
  {
    var u := FirstSurface(raw, "models", MODELS_SURFACES).value;
    FirstSurfaceFinds(raw, "models", MODELS_SURFACES);
    SurfaceWords(u);
    PageWords(Models);
    FormerSurfaceAgrees(raw, PageText(Models), u);
  }

  lemma IntegrationsAgrees(raw: string)
    requires MatchesPrefix(raw, PageText(Integrations))
    ensures ReadPage(raw) == IntegrationsInheritor(raw) && RetiredPlace(raw)
  {
    PageWords(Integrations);
    RootOfMatch(raw, PageText(Integrations));
    assert !FormerRoutingSurface("integrations", Surface(PathOf(raw)));
  }

  lemma KeysAreIntegrations(raw: string)
    requires MatchesPrefix(raw, "integrations/keys")
    ensures MatchesPrefix(raw, "integrations")
  {
    assert "integrations/keys" == "integrations" + ['/'] + "keys";
  }

  lemma UnderIntegrations(raw: string)
    requires raw == "integrations/claude/desktop" || raw == "integrations" || "integrations/" <= raw
    ensures MatchesPrefix(raw, PageText(Integrations))
  {
    assert "integrations/" == PageText(Integrations) + ['/'];
  }

  lemma HarnessAgrees(raw: string)
    requires RetiredHarnessTarget(raw).Some? && !MatchesPrefix(raw, "integrations/keys")
    ensures ReadPage(raw) == Harnesses && RetiredPlace(raw)
  {
    if raw == "claude" {
      ClaudeAgrees(raw);
    } else if raw == "grok" {
      GrokAgrees(raw);
    } else {
      UnderIntegrations(raw);
      IntegrationsAgrees(raw);
    }
  }

  lemma ClaudeAgrees(raw: string)
    requires raw == "claude"
    ensures ReadPage(raw) == Harnesses && RetiredPlace(raw)
  {
    RetiredRootAgrees(raw, raw);
  }

  lemma GrokAgrees(raw: string)
    requires raw == "grok"
    ensures ReadPage(raw) == Harnesses && RetiredPlace(raw)
  {
    RetiredRootAgrees(raw, raw);
  }

  /** A page root, or something under it that no retired place claims, paints that page. */
  lemma PlainRootAgrees(raw: string, page: Page)
    requires MatchesPrefix(raw, PageText(page)) && Word(PageText(page))
    requires page != Integrations && !FormerRoutingSurface(PageText(page), Surface(PathOf(raw)))
    ensures ReadPage(raw) == page && !RetiredPlace(raw)
  {
    RootOfMatch(raw, PageText(page));
    PageWords(page);
    PageNames(page);
  }

  lemma PageWords(page: Page)
    ensures Word(PageText(page))
    ensures RetiredRoot(PageText(page)).None?
    ensures PageText(page) == "integrations" <==> page == Integrations
  {
  }

  lemma PageNames(page: Page)
    ensures PageNamed(PageText(page)) == Some(page)
  {
  }

  // ---------------------------------------------------------------- resolution and cold load agree

  /** Some rule for retired spellings fires. */
  predicate RuleFires(raw: string) {
    || MatchesPrefix(raw, "debug") || MatchesPrefix(raw, "codex-auth")
    || RetiredRoutingSurface(raw).Some? || RetiredApiSpelling(raw)
    || RetiredHarnessTarget(raw).Some? || raw == "providers/workspace"
  }

  predicate OneOffSpelling(raw: string) {
    raw == "api/keys" || raw == "providers/workspace"
  }

  lemma ApiSpellingAgrees(raw: string)
    requires RetiredApiSpelling(raw)
    ensures ReadPage(raw) == Api
    ensures raw != "api/keys" ==> RetiredPlace(raw)
  {
    if raw == "api/keys" {
      assert "api" + ['/'] == "api/" && "api/" <= raw;
      PlainRootAgrees(raw, Api);
    } else {
      KeysAreIntegrations(raw);
      IntegrationsAgrees(raw);
    }
  }

  lemma WorkspaceAgrees()
    ensures ReadPage("providers/workspace") == Providers
  {
    var raw := "providers/workspace";
    assert "providers" + ['/'] <= raw;
    PlainRootAgrees(raw, Providers);
  }

  /** The page a resolution renders is the page a cold load of the same hash paints. */
  lemma ResolvedPageIsColdPage(v: Validators, raw: string)
    ensures Resolve(v, raw).page == ReadPage(raw)
  {
    if MatchesPrefix(raw, "debug") {
      RetiredRootAgrees(raw, "debug");
    } else if MatchesPrefix(raw, "codex-auth") {
      RetiredRootAgrees(raw, "codex-auth");
    } else if RetiredRoutingSurface(raw).Some? {
      RoutingAgrees(raw);
    } else if RetiredApiSpelling(raw) {
      ApiSpellingAgrees(raw);
    } else if RetiredHarnessTarget(raw).Some? {
      HarnessAgrees(raw);
    } else if raw == "providers/workspace" {
      WorkspaceAgrees();
    }
  }

  /** Rules fire only in the retired places and on the two one-off spellings. */
  lemma RuleMeansPlace(raw: string)
    requires RuleFires(raw)
    ensures RetiredPlace(raw) || OneOffSpelling(raw)
  {
    if MatchesPrefix(raw, "debug") {
      RetiredRootAgrees(raw, "debug");
    } else if MatchesPrefix(raw, "codex-auth") {
      RetiredRootAgrees(raw, "codex-auth");
    } else if RetiredRoutingSurface(raw).Some? {
      RoutingAgrees(raw);
    } else if RetiredApiSpelling(raw) {
      ApiSpellingAgrees(raw);
    } else if RetiredHarnessTarget(raw).Some? {
      HarnessAgrees(raw);
    }
  }

  /** Where no rule fires, resolution only asks whether the page owns the hash. */
  lemma UnruledResolution(v: Validators, raw: string)
    requires !RetiredPlace(raw) && !OneOffSpelling(raw)
    ensures var page := ReadPage(raw);
            Resolve(v, raw) == Action(page, if Belongs(v, raw, page) then None else Some(PageText(page)))
  {
    if RuleFires(raw) {
      RuleMeansPlace(raw);
    }
  }

  // ---------------------------------------------------------------- every target settles

  /** A hash without a query is its own path. */
  lemma PlainPath(w: string, rest: string)
    requires Word(w) && '?' !in w + rest
    ensures PathOf(w + rest) == w + rest && QueryOf(w + rest) == []
  {
    Unmarked(w, rest);
    NoCharBefore(w + rest, '?');
  }

  /** The hash needs no rewrite and paints `page`. */
  ghost predicate Stable(v: Validators, hash: string, page: Page) {
    ReadPage(hash) == page && Resolve(v, hash) == Action(page, None)
  }

  lemma PageRootStable(v: Validators, page: Page)
    requires AcceptOwnRoots(v) && page != Integrations
    ensures Stable(v, PageText(page), page)
  {
    var raw := PageText(page);
    PageWords(page);
    PageSurfaceEmpty(page);
    EmptyIsNoSurface(raw);
    PlainRootAgrees(raw, page);
    assert raw + [] == raw;
    PlainPath(raw, []);
    OneOffsAreNested(page);
    UnruledResolution(v, raw);
  }

  lemma EmptyIsNoSurface(root: string)
    ensures !FormerRoutingSurface(root, [])
  {
  }

  lemma PageSurfaceEmpty(page: Page)
    ensures Surface(PathOf(PageText(page))) == []
  {
    var raw := PageText(page);
    PageWords(page);
    assert raw + [] == raw;
    PlainPath(raw, []);
    NoCharBefore(raw, '/');
  }

  lemma OneOffsAreNested(page: Page)
    ensures !OneOffSpelling(PageText(page))
  {
    PageWords(page);
    assert '/' in "api/keys" by { assert "api/keys"[3] == '/'; }
    assert '/' in "providers/workspace" by { assert "providers/workspace"[9] == '/'; }
  }

  /** A fixed target under a page root: it paints the page, and it stays if the page owns it. */
  lemma NestedTargetStable(v: Validators, page: Page, rest: string, raw: string)
    requires page != Integrations && page != Startup && page != Models
    requires raw == PageText(page) + ['/'] + rest
    requires !OneOffSpelling(raw) && Belongs(v, raw, page)
    ensures Stable(v, raw, page)
  {
    PageWords(page);
    PlainRootAgrees(raw, page);
    UnruledResolution(v, raw);
  }

  lemma LogsDebugParts()
    ensures LOGS_DEBUG_HASH == PageText(Logs) + ['/'] + "debug"
    ensures !OneOffSpelling(LOGS_DEBUG_HASH)
  {
  }

  lemma LogsDebugOwned(v: Validators)
    requires AcceptOwnRoots(v)
    ensures Belongs(v, LOGS_DEBUG_HASH, Logs)
  {
    LogsDebugParts();
    PageWords(Logs);
    assert PageText(Logs) + ['/'] + "debug" == PageText(Logs) + "/debug";
    PlainPath(PageText(Logs), "/debug");
  }

  lemma LogsDebugStable(v: Validators)
    requires AcceptOwnRoots(v)
    ensures Stable(v, LOGS_DEBUG_HASH, Logs)
  {
    LogsDebugOwned(v);
    LogsDebugParts();
    NestedTargetStable(v, Logs, "debug", LOGS_DEBUG_HASH);
  }

  /** What can stand between two slashes of a path. */
  predicate Segment(u: string) {
    u != [] && '/' !in u && '?' !in u
  }

  /** A path of three segments splits into them. */
  lemma ThreeSegments(w: string, u: string, x: string)
    requires Word(w) && Segment(u) && Segment(x)
    ensures var path := w + ['/'] + (u + (['/'] + x));
            && PathOf(path) == path && QueryOf(path) == [] && Normalize(path) == path
            && Root(path) == w && After(path, '/') == u + (['/'] + x)
            && Before(After(path, '/'), '/') == u && After(After(path, '/'), '/') == x
  {
    var rest := u + (['/'] + x);
    var path := w + ['/'] + rest;
    assert path == w + (['/'] + rest);
    PlainPath(w, ['/'] + rest);
    Unmarked(w, ['/'] + rest);
    BeforeOf(w, '/', ['/'] + rest);
    assert (['/'] + rest)[1..] == rest;
    BeforeOf(u, '/', ['/'] + x);
    assert (['/'] + x)[1..] == x;
  }

  lemma AccessIsSegment()
    ensures Word("providers") && Segment("access") && |"access"| == 6
  {
  }

  lemma ProviderAccessOwned(v: Validators, name: string)
    requires Segment(name)
    ensures ReadProviderAccess(ProviderAccessHash(name)) == Some(name)
    ensures Belongs(v, ProviderAccessHash(name), Providers)
  {
    AccessIsSegment();
    ThreeSegments("providers", name, "access");
  }

  lemma {:induction false} BeforeLacks(s: string, c: char)
    ensures c !in Before(s, c) && forall x :: x in Before(s, c) ==> x in s
  {
    if s != [] && s[0] != c {
      BeforeLacks(s[1..], c);
    }
  }

  lemma {:induction false} AfterWithin(s: string, c: char)
    ensures forall x :: x in After(s, c) ==> x in s
  {
    if s != [] && s[0] != c {
      AfterWithin(s[1..], c);
    }
  }

  /** A name that is read from an access hash is one segment. */
  lemma ReadNameIsSegment(hash: string)
    requires ReadProviderAccess(hash).Some?
    ensures Segment(ReadProviderAccess(hash).value)
  {
    var path := PathOf(hash);
    BeforeLacks(Normalize(hash), '?');
    AfterWithin(path, '/');
    BeforeLacks(After(path, '/'), '/');
  }

  /** A written access hash is read back as its provider exactly when the name is one segment. */
  lemma ProviderAccessRoundTrip(name: string)
    ensures ReadProviderAccess(ProviderAccessHash(name)) == Some(name) <==> Segment(name)
  {
    if Segment(name) {
      AccessIsSegment();
      ThreeSegments("providers", name, "access");
    } else if ReadProviderAccess(ProviderAccessHash(name)) == Some(name) {
      ReadNameIsSegment(ProviderAccessHash(name));
    }
  }

  lemma ProviderAccessStable(v: Validators, name: string)
    requires Segment(name)
    ensures Stable(v, ProviderAccessHash(name), Providers)
  {
    ProviderAccessOwned(v, name);
    AccessIsNoOneOff(name);
    NestedTargetStable(v, Providers, name + (['/'] + "access"), ProviderAccessHash(name));
  }

  lemma AccessIsNoOneOff(name: string)
    ensures !OneOffSpelling(ProviderAccessHash(name))
  {
    var h := ProviderAccessHash(name);
    assert h[|h| - 1] == 's';
  }

  lemma RoutingSurfaceStable(v: Validators, u: string)
    requires Word(u) && OwnsPath(Routing, "routing/" + u)
    ensures Stable(v, "routing/" + u, Routing)
  {
    var raw := "routing/" + u;
    assert raw == PageText(Routing) + ['/'] + u == PageText(Routing) + (['/'] + u);
    PageWords(Routing);
    PlainPath("routing", ['/'] + u);
    assert raw[0] == 'r' && "api/keys"[0] == 'a' && "providers/workspace"[0] == 'p';
    NestedTargetStable(v, Routing, u, raw);
  }

  lemma RoutingHashStable(v: Validators, surface: string)
    requires AcceptOwnRoots(v)
    ensures Stable(v, RoutingHash(surface), Routing)
  {
    if surface == "combos" {
      assert "routing/combos" == "routing/" + "combos";
      RoutingSurfaceStable(v, "combos");
    } else if surface == "evaluation" {
      assert "routing/evaluation" == "routing/" + "evaluation";
      RoutingSurfaceStable(v, "evaluation");
    } else if surface == "analytics" {
      assert "routing/analytics" == "routing/" + "analytics";
      RoutingSurfaceStable(v, "analytics");
    } else if surface == "compatibility" {
      assert "routing/compatibility" == "routing/" + "compatibility";
      RoutingSurfaceStable(v, "compatibility");
    } else {
      PageRootStable(v, Routing);
    }
  }

  /** A harness hash is the page's own unless it carries a query. */
  lemma HarnessOwned(v: Validators, id: string)
    ensures Belongs(v, "harnesses/" + id, Harnesses) <==> !HasQuery(QueryOf("harnesses/" + id))
  {
    var h := "harnesses/" + id;
    assert h == "harnesses" + (['/'] + id);
    Unmarked("harnesses", ['/'] + id);
    BeforePast("harnesses/", '?', id);
  }

  lemma HarnessPage(id: string)
    ensures ReadPage("harnesses/" + id) == Harnesses
    ensures !RetiredPlace("harnesses/" + id) && !OneOffSpelling("harnesses/" + id)
  {
    var h := "harnesses/" + id;
    assert "harnesses/" == PageText(Harnesses) + ['/'];
    PageWords(Harnesses);
    PlainRootAgrees(h, Harnesses);
    assert h[0] == 'h' && "api/keys"[0] == 'a' && "providers/workspace"[0] == 'p';
  }

  /** A harness target keeps its id and whatever query the retired hash carried; only a query is rewritten. */
  lemma HarnessTargetResolves(v: Validators, id: string)
    ensures ReadPage("harnesses/" + id) == Harnesses
    ensures Resolve(v, "harnesses/" + id)
         == Action(Harnesses, if HasQuery(QueryOf("harnesses/" + id)) then Some("harnesses") else None)
  {
    HarnessPage(id);
    HarnessOwned(v, id);
    UnruledResolution(v, "harnesses/" + id);
  }

  /** Where a rewrite leads: to a stable hash of the same page, at once or after one more rewrite. */
  ghost predicate Settles(v: Validators, hash: string, page: Page) {
    || Stable(v, hash, page)
    || (ReadPage(hash) == page && Resolve(v, hash) == Action(page, Some(PageText(page))) && Stable(v, PageText(page), page))
  }

  lemma HarnessIdSettles(v: Validators, id: string)
    requires AcceptOwnRoots(v)
    ensures Settles(v, "harnesses/" + id, Harnesses)
  {
    HarnessTargetResolves(v, id);
    PageRootStable(v, Harnesses);
  }

  lemma HarnessTargetForm(raw: string) returns (id: Option<string>)
    requires RetiredHarnessTarget(raw).Some?
    ensures RetiredHarnessTarget(raw).value == if id.None? then PageText(Harnesses) else "harnesses/" + id.value
    ensures id.Some? && '?' !in raw ==> '?' !in id.value
  {
    if raw == "integrations/claude/desktop" {
      id := Some("claude-desktop");
    } else if raw == "integrations" || raw == "integrations/" {
      id := None;
    } else if "integrations/" <= raw {
      id := Some(raw[|"integrations/"|..]);
    } else {
      id := Some(raw);
    }
  }

  lemma HarnessTargetSettles(v: Validators, raw: string)
    requires AcceptOwnRoots(v) && RetiredHarnessTarget(raw).Some?
    ensures Settles(v, RetiredHarnessTarget(raw).value, Harnesses)
  {
    var id := HarnessTargetForm(raw);
    if id.Some? {
      HarnessIdSettles(v, id.value);
    } else {
      PageRootStable(v, Harnesses);
    }
  }

  lemma ColdPageIsNotIntegrations(hash: string)
    ensures ReadPage(hash) != Integrations
  {
    var path := PathOf(Normalize(hash));
    if PageNamed(Root(path)) == Some(Integrations) {
      assert Root(path) == "integrations";
    }
  }

  /** The action rewrites, and its target settles on the action's page. */
  ghost predicate RewriteSettles(v: Validators, a: Action) {
    a.replaceTo.Some? && Settles(v, a.replaceTo.value, a.page)
  }

  /** The action rewrites to a hash that needs no further rewrite. */
  ghost predicate RewriteStable(v: Validators, a: Action) {
    a.replaceTo.Some? && Stable(v, a.replaceTo.value, a.page)
  }

  lemma DebugTargetStable(v: Validators, raw: string)
    requires AcceptOwnRoots(v) && MatchesPrefix(raw, "debug")
    ensures RewriteStable(v, Resolve(v, raw))
  {
    LogsDebugStable(v);
  }

  lemma CodexTargetStable(v: Validators, raw: string)
    requires !MatchesPrefix(raw, "debug") && MatchesPrefix(raw, "codex-auth")
    ensures RewriteStable(v, Resolve(v, raw))
  {
    ProviderAccessStable(v, "openai");
  }

  /** Neither of the two rules that come first. */
  predicate PastFixedRoots(raw: string) {
    !MatchesPrefix(raw, "debug") && !MatchesPrefix(raw, "codex-auth")
  }

  lemma RoutingTargetStable(v: Validators, raw: string)
    requires AcceptOwnRoots(v) && PastFixedRoots(raw) && RetiredRoutingSurface(raw).Some?
    ensures RewriteStable(v, Resolve(v, raw))
  {
    RoutingHashStable(v, RetiredRoutingSurface(raw).value);
  }

  lemma RootRewriteStable(v: Validators, page: Page)
    requires AcceptOwnRoots(v) && page != Integrations
    ensures RewriteStable(v, Action(page, Some(PageText(page))))
  {
    PageRootStable(v, page);
  }

  lemma ApiRewrite(v: Validators, raw: string)
    requires PastFixedRoots(raw) && RetiredRoutingSurface(raw).None? && RetiredApiSpelling(raw)
    ensures Resolve(v, raw) == Action(Api, Some(PageText(Api)))
  {
  }

  lemma WorkspaceRewrite(v: Validators, raw: string)
    requires PastFixedRoots(raw) && RetiredRoutingSurface(raw).None? && !RetiredApiSpelling(raw)
    requires RetiredHarnessTarget(raw).None? && raw == "providers/workspace"
    ensures Resolve(v, raw) == Action(Providers, Some(PageText(Providers)))
  {
  }

  /** The rule that turns an integrations hash into a harness hash is the one that applies. */
  predicate HarnessRule(raw: string) {
    && PastFixedRoots(raw) && RetiredRoutingSurface(raw).None? && !RetiredApiSpelling(raw)
    && RetiredHarnessTarget(raw).Some?
  }

  lemma OtherRulesStable(v: Validators, raw: string)
    requires AcceptOwnRoots(v) && RuleFires(raw) && !HarnessRule(raw)
    ensures RewriteStable(v, Resolve(v, raw))
  {
    if MatchesPrefix(raw, "debug") {
      DebugTargetStable(v, raw);
    } else if MatchesPrefix(raw, "codex-auth") {
      CodexTargetStable(v, raw);
    } else if RetiredRoutingSurface(raw).Some? {
      RoutingTargetStable(v, raw);
    } else if RetiredApiSpelling(raw) {
      ApiRewrite(v, raw);
      RootRewriteStable(v, Api);
    } else {
      WorkspaceRewrite(v, raw);
      RootRewriteStable(v, Providers);
    }
  }

  lemma HarnessRewrite(v: Validators, raw: string)
    requires HarnessRule(raw)
    ensures Resolve(v, raw) == Action(Harnesses, RetiredHarnessTarget(raw))
  {
  }

  lemma RuledTargetSettles(v: Validators, raw: string)
    requires AcceptOwnRoots(v) && RuleFires(raw)
    ensures RewriteSettles(v, Resolve(v, raw))
  {
    if HarnessRule(raw) {
      HarnessRewrite(v, raw);
      HarnessTargetSettles(v, raw);
    } else {
      OtherRulesStable(v, raw);
    }
  }

  /**
    * For every hash: the page rendered is the cold-load page, and following rewrites reaches a
    * hash that needs none within two of them, painting that same page all the way.
    */
  lemma RewritingSettles(v: Validators, raw: string)
    requires AcceptOwnRoots(v)
    ensures var a := Resolve(v, raw);
            a.page == ReadPage(raw) && (a.replaceTo.Some? ==> Settles(v, a.replaceTo.value, a.page))
  {
    ResolvedPageIsColdPage(v, raw);
    if RuleFires(raw) {
      RuledTargetSettles(v, raw);
    } else {
      ColdPageIsNotIntegrations(raw);
      PageRootStable(v, ReadPage(raw));
    }
  }

  // ---------------------------------------------------------------- when the second rewrite happens

  lemma {:induction false} AfterPast(w: string, c: char, rest: string)
    requires c !in w
    ensures After(w + rest, c) == After(rest, c)
  {
    if w == [] {
      assert w + rest == rest;
    } else {
      assert (w + rest)[0] == w[0] && (w + rest)[1..] == w[1..] + rest;
      AfterPast(w[1..], c, rest);
    }
  }

  /** The query under a page root does not depend on the root. */
  lemma QueryUnder(w: string, id: string)
    requires Word(w)
    ensures QueryOf(w + (['/'] + id)) == After(id, '?')
  {
    Unmarked(w, ['/'] + id);
    AfterPast(w, '?', ['/'] + id);
    AfterPast(['/'], '?', id);
  }

  lemma HarnessQuery(id: string)
    ensures QueryOf("harnesses/" + id) == After(id, '?')
  {
    PageWords(Harnesses);
    assert "harnesses/" + id == PageText(Harnesses) + (['/'] + id);
    QueryUnder(PageText(Harnesses), id);
  }

  lemma IntegrationsQuery(raw: string)
    requires "integrations/" <= raw
    ensures QueryOf(raw) == After(raw[|"integrations/"|..], '?')
  {
    var id := raw[|"integrations/"|..];
    PageWords(Integrations);
    assert raw == "integrations/" + id == PageText(Integrations) + (['/'] + id);
    QueryUnder(PageText(Integrations), id);
  }

  predicate RewritesAgain(v: Validators, a: Action) {
    a.replaceTo.Some? && Resolve(v, a.replaceTo.value).replaceTo.Some?
  }

  lemma StableIsLast(v: Validators, hash: string, page: Page)
    requires Stable(v, hash, page)
    ensures !RewritesAgain(v, Action(page, Some(hash)))
  {
  }

  /** A harness id with a query in it is the one target that is rewritten once more. */
  lemma HarnessIdRewrites(v: Validators, id: string)
    ensures RewritesAgain(v, Action(Harnesses, Some("harnesses/" + id))) <==> HasQuery(After(id, '?'))
  {
    HarnessTargetResolves(v, id);
    HarnessQuery(id);
  }

  lemma NoQueryWithoutMark(id: string)
    requires '?' !in id
    ensures !HasQuery(After(id, '?'))
  {
    NoCharBefore(id, '?');
  }

  lemma NoQueryInUnmarked(raw: string)
    requires '?' !in raw
    ensures !HasQuery(QueryOf(raw))
  {
    NoCharBefore(Normalize(raw), '?');
  }

  predicate QueriedIntegration(raw: string) {
    "integrations/" <= raw && HasQuery(QueryOf(raw))
  }

  lemma FixedSpellingsUnmarked(raw: string)
    requires raw == "integrations/claude/desktop" || raw == "integrations" || raw == "integrations/"
          || raw == "claude" || raw == "grok"
    ensures '?' !in raw
  {
  }

  lemma NestedTarget(raw: string)
    requires "integrations/" <= raw && raw != "integrations/claude/desktop" && raw != "integrations/"
    ensures RetiredHarnessTarget(raw) == Some("harnesses/" + raw[|"integrations/"|..])
  {
    assert raw == "integrations/" + raw[|"integrations/"|..];
    assert |raw| > |"integrations"|;
  }

  /** The target is a harness id with a query exactly when the retired hash had one. */
  lemma HarnessTargetQuery(v: Validators, raw: string)
    requires AcceptOwnRoots(v) && RetiredHarnessTarget(raw).Some?
    ensures RewritesAgain(v, Action(Harnesses, RetiredHarnessTarget(raw))) <==> QueriedIntegration(raw)
  {
    if "integrations/" <= raw && raw != "integrations/claude/desktop" && raw != "integrations/" {
      NestedTarget(raw);
      HarnessIdRewrites(v, raw[|"integrations/"|..]);
      IntegrationsQuery(raw);
    } else {
      FixedSpellingsUnmarked(raw);
      NoQueryInUnmarked(raw);
      FixedTargetStable(v, raw);
      StableIsLast(v, RetiredHarnessTarget(raw).value, Harnesses);
    }
  }

  lemma UnmarkedHarnessStable(v: Validators, id: string)
    requires '?' !in id
    ensures Stable(v, "harnesses/" + id, Harnesses)
  {
    HarnessTargetResolves(v, id);
    HarnessQuery(id);
    NoQueryWithoutMark(id);
  }

  lemma FixedTargetStable(v: Validators, raw: string)
    requires AcceptOwnRoots(v) && RetiredHarnessTarget(raw).Some? && '?' !in raw
    ensures Stable(v, RetiredHarnessTarget(raw).value, Harnesses)
  {
    var id := HarnessTargetForm(raw);
    if id.None? {
      PageRootStable(v, Harnesses);
    } else {
      UnmarkedHarnessStable(v, id.value);
    }
  }

  lemma UnruledIsLast(v: Validators, raw: string)
    requires AcceptOwnRoots(v) && !RuleFires(raw)
    ensures !RewritesAgain(v, Resolve(v, raw))
  {
    ColdPageIsNotIntegrations(raw);
    PageRootStable(v, ReadPage(raw));
    StableIsLast(v, PageText(ReadPage(raw)), ReadPage(raw));
  }

  /**
    * The bound of two is met exactly by the integrations hashes with a query that become harness
    * hashes; every other rewrite is the last.
    */
  lemma SecondRewriteExactly(v: Validators, raw: string)
    requires AcceptOwnRoots(v)
    ensures RewritesAgain(v, Resolve(v, raw)) <==> HarnessRule(raw) && QueriedIntegration(raw)
  {
    if HarnessRule(raw) {
      HarnessRewrite(v, raw);
      HarnessTargetQuery(v, raw);
    } else if RuleFires(raw) {
      OtherRulesStable(v, raw);
      StableIsLast(v, Resolve(v, raw).replaceTo.value, Resolve(v, raw).page);
    } else {
      UnruledIsLast(v, raw);
    }
  }

  // ---------------------------------------------------------------- a rewrite keeps the harness id

  lemma PathUnder(w: string, id: string)
    requires Word(w)
    ensures Root(PathOf(w + (['/'] + id))) == w
    ensures After(PathOf(w + (['/'] + id)), '/') == Before(id, '?')
  {
    var rest := ['/'] + Before(id, '?');
    Unmarked(w, ['/'] + id);
    BeforePast(w, '?', ['/'] + id);
    BeforePast(['/'], '?', id);
    BeforeOf(w, '/', rest);
    assert rest[1..] == Before(id, '?');
  }

  /** `b` continues past its own root exactly as `a` does past its own. */
  ghost predicate SameBelowRoot(a: string, b: string) {
    After(PathOf(a), '/') == After(PathOf(b), '/') && QueryOf(a) == QueryOf(b)
  }

  lemma SameUnderTwoRoots(w: string, u: string, id: string)
    requires Word(w) && Word(u)
    ensures SameBelowRoot(w + (['/'] + id), u + (['/'] + id))
  {
    PathUnder(w, id);
    PathUnder(u, id);
    QueryUnder(w, id);
    QueryUnder(u, id);
  }

  /** The target of a retired integrations hash, but for the one renamed, differs from it in the root alone. */
  lemma HarnessIdIsKept(v: Validators, raw: string)
    requires HarnessRule(raw) && "integrations/" <= raw
    requires raw != "integrations/claude/desktop" && raw != "integrations/"
    ensures var a := Resolve(v, raw);
            && a.page == Harnesses && a.replaceTo.Some?
            && Root(PathOf(a.replaceTo.value)) == PageText(Harnesses)
            && SameBelowRoot(raw, a.replaceTo.value)
  {
    var id := raw[|"integrations/"|..];
    HarnessRewrite(v, raw);
    NestedTarget(raw);
    TwoSpellings(raw, id);
    PageWords(Harnesses);
    PageWords(Integrations);
    SameUnderTwoRoots(PageText(Integrations), PageText(Harnesses), id);
    PathUnder(PageText(Harnesses), id);
  }

  lemma TwoSpellings(raw: string, id: string)
    requires "integrations/" <= raw && id == raw[|"integrations/"|..]
    ensures raw == PageText(Integrations) + (['/'] + id)
    ensures "harnesses/" + id == PageText(Harnesses) + (['/'] + id)
  {
    assert raw == "integrations/" + id;
  }

  // ---------------------------------------------------------------- a rewrite keeps the surface

  /** Under a former host the retired surface is the second segment of the hash itself. */
  lemma FirstSurfaceIsSecondSegment(raw: string, host: Page, surfaces: seq<string>)
    requires FirstSurface(raw, PageText(host), surfaces).Some? && forall u :: u in surfaces ==> Word(u)
    ensures Root(PathOf(raw)) == PageText(host)
    ensures FirstSurface(raw, PageText(host), surfaces) == Some(Surface(PathOf(raw)))
  {
    FirstSurfaceFinds(raw, PageText(host), surfaces);
    PageWords(host);
    SurfaceOfMatch(raw, PageText(host), FirstSurface(raw, PageText(host), surfaces).value);
  }

  lemma RoutingTargetSurface(u: string)
    requires Word(u)
    ensures Root(PathOf("routing/" + u)) == "routing" && Surface(PathOf("routing/" + u)) == u
  {
    var raw := "routing/" + u;
    PageWords(Routing);
    assert raw == PageText(Routing) + ['/'] + u;
    SurfaceOfMatch(raw, PageText(Routing), u);
  }

  lemma RoutingHashKeepsSurface(u: string)
    requires u == "combos" || u == "evaluation" || u == "analytics" || u == "compatibility"
    ensures RoutingHash(u) == "routing/" + u
  {
  }

  lemma UnretiredRootMatchesNone(raw: string, page: Page, w: string)
    requires Root(PathOf(raw)) == PageText(page) && Word(w) && RetiredRoot(w).Some?
    ensures !MatchesPrefix(raw, w)
  {
    PageWords(page);
    if MatchesPrefix(raw, w) {
      RootOfMatch(raw, w);
      assert false;
    }
  }

  lemma PastRetiredRoots(raw: string, page: Page)
    requires Root(PathOf(raw)) == PageText(page)
    ensures PastFixedRoots(raw)
    ensures !MatchesPrefix(raw, "combos") && !MatchesPrefix(raw, "evaluation")
    ensures !MatchesPrefix(raw, "analytics") && !MatchesPrefix(raw, "lab")
  {
    UnretiredRootMatchesNone(raw, page, "debug");
    UnretiredRootMatchesNone(raw, page, "codex-auth");
    UnretiredRootMatchesNone(raw, page, "combos");
    UnretiredRootMatchesNone(raw, page, "evaluation");
    UnretiredRootMatchesNone(raw, page, "analytics");
    UnretiredRootMatchesNone(raw, page, "lab");
  }

  predicate UnderFormerHost(raw: string) {
    FirstSurface(raw, "startup", STARTUP_SURFACES).Some? || FirstSurface(raw, "models", MODELS_SURFACES).Some?
  }

  lemma FormerHostSurface(raw: string)
    requires UnderFormerHost(raw)
    ensures RetiredRoutingSurface(raw) == Some(Surface(PathOf(raw))) && PastFixedRoots(raw)
    ensures Root(PathOf(raw)) == PageText(Startup) || Root(PathOf(raw)) == PageText(Models)
  {
    forall u | u in STARTUP_SURFACES || u in MODELS_SURFACES ensures Word(u) { SurfaceWords(u); }
    if FirstSurface(raw, "startup", STARTUP_SURFACES).Some? {
      FirstSurfaceIsSecondSegment(raw, Startup, STARTUP_SURFACES);
      PastRetiredRoots(raw, Startup);
    } else {
      FirstSurfaceIsSecondSegment(raw, Models, MODELS_SURFACES);
      PastRetiredRoots(raw, Models);
    }
  }

  lemma RoutingHashSurface(u: string)
    requires u in STARTUP_SURFACES
    ensures Root(PathOf(RoutingHash(u))) == PageText(Routing)
    ensures Surface(PathOf(RoutingHash(u))) == if u == PageText(Routing) then [] else u
  {
    PageWords(Routing);
    if u == PageText(Routing) {
      PageSurfaceEmpty(Routing);
      RootOfMatch(u, u);
    } else {
      SurfaceWords(u);
      RoutingHashKeepsSurface(u);
      RoutingTargetSurface(u);
    }
  }

  lemma FormerHostSurfaceListed(raw: string)
    requires UnderFormerHost(raw) && RetiredRoutingSurface(raw) == Some(Surface(PathOf(raw)))
    requires Root(PathOf(raw)) == PageText(Startup) || Root(PathOf(raw)) == PageText(Models)
    ensures Surface(PathOf(raw)) in STARTUP_SURFACES
  {
    var page := if Root(PathOf(raw)) == PageText(Startup) then Startup else Models;
    PastRetiredRoots(raw, page);
    if FirstSurface(raw, "startup", STARTUP_SURFACES).Some? {
      FirstSurfaceFinds(raw, "startup", STARTUP_SURFACES);
    } else {
      FirstSurfaceFinds(raw, "models", MODELS_SURFACES);
    }
  }

  /** A bookmark of a surface Routing absorbed is rewritten to that same surface under Routing. */
  lemma RetiredSurfaceIsKept(v: Validators, raw: string)
    requires UnderFormerHost(raw)
    ensures var u := Surface(PathOf(raw));
            var a := Resolve(v, raw);
            && a.page == Routing && a.replaceTo.Some?
            && Root(PathOf(a.replaceTo.value)) == PageText(Routing)
            && Surface(PathOf(a.replaceTo.value)) == if u == PageText(Routing) then [] else u
  {
    FormerHostSurface(raw);
    FormerHostSurfaceListed(raw);
    RoutingHashSurface(Surface(PathOf(raw)));
  }

  // ---------------------------------------------------------------- the three validators

  /** The parameters of a query: the pieces between ampersands that are not empty. */
  function Pieces(q: string): seq<string>
    decreases |q|
  {
    if q == [] then []
    else (if Before(q, '&') == [] then [] else [Before(q, '&')]) + Pieces(After(q, '&'))
  }

  function Params(query: string): seq<string> {
    Pieces(if query != [] && query[0] == '?' then query[1..] else query)
  }

  predicate LogsAllowed(decode: string -> string, path: string, query: string) {
    if path == LOGS_DEBUG_HASH then Params(query) == []
    else path == "logs" && forall p :: p in Params(query) ==> decode(Before(p, '=')) == "sessionId"
  }

  predicate SessionsAllowed(decode: string -> string, path: string, query: string) {
    && path == "sessions"
    && (|Params(query)| == 1 ==>
          var p := Params(query)[0];
          && (decode(Before(p, '=')) == "policy" || decode(Before(p, '=')) == "combo")
          && PoolSettings.Trim(decode(After(p, '='))) != [])
    && |Params(query)| <= 1
  }

  predicate StorageAllowed(path: string, query: string) {
    Params(query) == [] && (path == "storage" || path == "storage/cleanup" || path == "storage/quarantine")
  }

  /** The dashboard's own validators, over the form decoding of keys and values. */
  function PageValidators(decode: string -> string): Validators {
    Validators(
      (path, query) => SessionsAllowed(decode, path, query),
      (path, query) => LogsAllowed(decode, path, query),
      (path, query) => StorageAllowed(path, query))
  }

  lemma PageValidatorsAccept(decode: string -> string)
    ensures AcceptOwnRoots(PageValidators(decode))
  {
    assert Params("") == [];
  }

  lemma {:induction false} PiecesAreWhatIsLeft(q: string)
    ensures Pieces(q) != [] <==> exists c :: c in q && c != '&'
    decreases |q|
  {
    if q != [] && q[0] == '&' {
      assert q == ['&'] + q[1..] && After(q, '&') == q[1..];
      assert Pieces(q) == Pieces(q[1..]);
      PiecesAreWhatIsLeft(q[1..]);
      forall c | c != '&'
        ensures c in q <==> c in q[1..]
      {
      }
    } else if q != [] {
      assert q[0] in q && Before(q, '&') != [];
    }
  }

  /** The pages without query state and the three validators mean the same by a parameter. */
  lemma HasQueryCountsParams(query: string)
    ensures HasQuery(query) <==> Params(query) != []
  {
    PiecesAreWhatIsLeft(if query != [] && query[0] == '?' then query[1..] else query);
  }

  /** With the dashboard's own validators nothing is left to assume: rewriting settles on every hash. */
  lemma DashboardRewritingSettles(decode: string -> string, raw: string)
    ensures var v := PageValidators(decode);
            var a := Resolve(v, raw);
            && a.page == ReadPage(raw)
            && (a.replaceTo.Some? ==> Settles(v, a.replaceTo.value, a.page))
            && (RewritesAgain(v, a) <==> HarnessRule(raw) && QueriedIntegration(raw))
  {
    PageValidatorsAccept(decode);
    RewritingSettles(PageValidators(decode), raw);
    SecondRewriteExactly(PageValidators(decode), raw);
  }

  // ---------------------------------------------------------------- where each retired root leads

  lemma OneRootOnly(raw: string, w: string, u: string)
    requires Word(w) && Word(u) && w != u && MatchesPrefix(raw, w)
    ensures !MatchesPrefix(raw, u)
  {
    RootOfMatch(raw, w);
    if MatchesPrefix(raw, u) {
      RootOfMatch(raw, u);
      assert false;
    }
  }

  lemma RetiredWords()
    ensures Word("debug") && Word("codex-auth") && Word("combos") && Word("evaluation")
    ensures Word("analytics") && Word("lab") && Word("claude") && Word("grok")
  {
  }

  lemma PastFixed(raw: string, w: string)
    requires Word(w) && MatchesPrefix(raw, w) && w != "debug" && w != "codex-auth"
    ensures PastFixedRoots(raw)
  {
    RetiredWords();
    OneRootOnly(raw, w, "debug");
    OneRootOnly(raw, w, "codex-auth");
  }

  lemma DebugLeadsTo(v: Validators, raw: string)
    requires MatchesPrefix(raw, "debug")
    ensures Resolve(v, raw) == Action(Logs, Some("logs/debug"))
  {
  }

  lemma CodexAuthLeadsTo(v: Validators, raw: string)
    requires MatchesPrefix(raw, "codex-auth")
    ensures Resolve(v, raw) == Action(Providers, Some("providers/openai/access"))
  {
    RetiredWords();
    OneRootOnly(raw, "codex-auth", "debug");
    assert ProviderAccessHash("openai") == "providers/openai/access";
  }

  lemma CombosLeadsTo(v: Validators, raw: string)
    requires MatchesPrefix(raw, "combos")
    ensures Resolve(v, raw) == Action(Routing, Some("routing/combos"))
  {
    RetiredWords();
    PastFixed(raw, "combos");
  }

  lemma EvaluationLeadsTo(v: Validators, raw: string)
    requires MatchesPrefix(raw, "evaluation")
    ensures Resolve(v, raw) == Action(Routing, Some("routing/evaluation"))
  {
    RetiredWords();
    PastFixed(raw, "evaluation");
    OneRootOnly(raw, "evaluation", "combos");
  }

  lemma AnalyticsLeadsTo(v: Validators, raw: string)
    requires MatchesPrefix(raw, "analytics")
    ensures Resolve(v, raw) == Action(Routing, Some("routing/analytics"))
  {
    RetiredWords();
    PastFixed(raw, "analytics");
    OneRootOnly(raw, "analytics", "combos");
    OneRootOnly(raw, "analytics", "evaluation");
  }

  lemma LabLeadsTo(v: Validators, raw: string)
    requires MatchesPrefix(raw, "lab")
    ensures Resolve(v, raw) == Action(Routing, Some("routing/compatibility"))
  {
    RetiredWords();
    PastFixed(raw, "lab");
    OneRootOnly(raw, "lab", "combos");
    OneRootOnly(raw, "lab", "evaluation");
    OneRootOnly(raw, "lab", "analytics");
  }

  /** A harness root is claimed by no rule before the harness rule. */
  lemma HarnessRootRule(raw: string, w: string)
    requires raw == w && (w == "claude" || w == "grok")
    ensures PastFixedRoots(raw) && !MatchesPrefix(raw, "combos") && !MatchesPrefix(raw, "evaluation")
    ensures !MatchesPrefix(raw, "analytics") && !MatchesPrefix(raw, "lab") && Root(PathOf(raw)) == w
  {
    RetiredWords();
    PastFixed(raw, w);
    OneRootOnly(raw, w, "combos");
    OneRootOnly(raw, w, "evaluation");
    OneRootOnly(raw, w, "analytics");
    OneRootOnly(raw, w, "lab");
    RootOfMatch(raw, w);
  }

  lemma RootIsNoHost(raw: string)
    requires Root(PathOf(raw)) == "claude" || Root(PathOf(raw)) == "grok"
    ensures !UnderFormerHost(raw) && !MatchesPrefix(raw, "integrations/keys")
  {
    if UnderFormerHost(raw) {
      FormerHostSurface(raw);
      assert false;
    }
    if MatchesPrefix(raw, "integrations/keys") {
      KeysAreIntegrations(raw);
      PageWords(Integrations);
      RootOfMatch(raw, PageText(Integrations));
      assert false;
    }
  }

  /** The two standalone harness roots lead to their harness. */
  lemma HarnessRootLeadsTo(v: Validators, raw: string)
    requires raw == "claude" || raw == "grok"
    ensures Resolve(v, raw) == Action(Harnesses, Some(if raw == "claude" then "harnesses/claude" else "harnesses/grok"))
  {
    HarnessRootRule(raw, raw);
    RootIsNoHost(raw);
    HarnessRewrite(v, raw);
  }

  // ---------------------------------------------------------------- every owned hash stays

  /** The nested hashes of the pages that list theirs. */
  predicate Listed(page: Page, sub: string) {
    match page
    case Dashboard => sub == "providers" || sub == "models"
    case Routing => sub == "combos" || sub == "evaluation" || sub == "analytics" || sub == "compatibility"
    case Usage =>
      sub == "breakdown" || sub == "breakdown/providers" || sub == "breakdown/accounts" || sub == "coverage"
    case Api => sub == "clients" || sub == "endpoints" || sub == "models" || sub == "examples"
    case _ => false
  }

  lemma DashboardListed(sub: string)
    requires Listed(Dashboard, sub)
    ensures OwnsPath(Dashboard, PageText(Dashboard) + ['/'] + sub) && '?' !in sub
  {
  }

  lemma RoutingListed(sub: string)
    requires Listed(Routing, sub)
    ensures OwnsPath(Routing, PageText(Routing) + ['/'] + sub) && '?' !in sub
  {
  }

  lemma UsageListed(sub: string)
    requires Listed(Usage, sub)
    ensures OwnsPath(Usage, PageText(Usage) + ['/'] + sub) && '?' !in sub
  {
    if sub == "breakdown" || sub == "coverage" {
      ShortUsageListed(sub);
    } else {
      BreakdownUnmarked(sub);
      if sub == "breakdown/providers" {
        BreakdownProvidersListed(sub);
      } else {
        BreakdownAccountsListed(sub);
      }
    }
  }

  lemma ShortUsageListed(sub: string)
    requires sub == "breakdown" || sub == "coverage"
    ensures OwnsPath(Usage, PageText(Usage) + ['/'] + sub) && '?' !in sub
  {
  }

  lemma BreakdownProvidersListed(sub: string)
    requires sub == "breakdown/providers"
    ensures OwnsPath(Usage, PageText(Usage) + ['/'] + sub)
  {
    assert PageText(Usage) + ['/'] + sub == "usage/breakdown/providers";
  }

  lemma BreakdownAccountsListed(sub: string)
    requires sub == "breakdown/accounts"
    ensures OwnsPath(Usage, PageText(Usage) + ['/'] + sub)
  {
    assert PageText(Usage) + ['/'] + sub == "usage/breakdown/accounts";
  }

  lemma BreakdownUnmarked(sub: string)
    requires sub == "breakdown/providers" || sub == "breakdown/accounts"
    ensures '?' !in sub
  {
  }

  lemma ApiListed(sub: string)
    requires Listed(Api, sub)
    ensures OwnsPath(Api, PageText(Api) + ['/'] + sub) && '?' !in sub
    ensures PageText(Api) + ['/'] + sub != "api/keys"
  {
  }

  lemma PageInitials(page: Page, sub: string)
    requires page == Dashboard || page == Routing || page == Usage || page == Api
    ensures (PageText(page) + ['/'] + sub)[0] != 'p' && (page != Api ==> (PageText(page) + ['/'] + sub)[0] != 'a')
  {
  }

  lemma ListedIsOwned(page: Page, sub: string)
    requires Listed(page, sub)
    ensures OwnsPath(page, PageText(page) + ['/'] + sub) && '?' !in sub
    ensures !OneOffSpelling(PageText(page) + ['/'] + sub)
  {
    PageInitials(page, sub);
    assert "api/keys"[0] == 'a' && "providers/workspace"[0] == 'p';
    match page {
      case Dashboard => DashboardListed(sub);
      case Routing => RoutingListed(sub);
      case Usage => UsageListed(sub);
      case Api => ApiListed(sub);
    }
  }

  /** Each of them paints its page and needs no rewrite. */
  lemma ListedHashStays(v: Validators, page: Page, sub: string)
    requires Listed(page, sub)
    ensures Stable(v, PageText(page) + ['/'] + sub, page)
  {
    var raw := PageText(page) + ['/'] + sub;
    ListedIsOwned(page, sub);
    PageWords(page);
    assert raw == PageText(page) + (['/'] + sub);
    PlainPath(PageText(page), ['/'] + sub);
    NestedTargetStable(v, page, sub, raw);
  }

  /** A hash whose root is no page, current or retired, paints the dashboard. */
  lemma UnknownRootIsDashboard(raw: string, w: string)
    requires Word(w) && MatchesPrefix(raw, w) && RetiredRoot(w).None? && forall p :: PageText(p) != w
    ensures ReadPage(raw) == Dashboard
  {
    RootOfMatch(raw, w);
    assert PageText(Integrations) != w && PageText(Startup) != w && PageText(Models) != w;
    if PageNamed(w).Some? {
      NamedIsText(w);
    }
  }

  lemma NamedIsText(w: string)
    requires PageNamed(w).Some?
    ensures PageText(PageNamed(w).value) == w
  {
  }

  // ---------------------------------------------------------------- what the validators take

  /** One parameter, written out. */
  predicate Parameter(key: string, val: string) {
    key != [] && forall c :: c in key + val ==> c != '&' && c != '=' && c != '?'
  }

  lemma OneParameter(key: string, val: string)
    requires Parameter(key, val)
    ensures var p := key + (['='] + val);
            && Params(p) == [p] && Before(p, '=') == key && After(p, '=') == val
  {
    var p := key + (['='] + val);
    assert (['='] + val)[1..] == val;
    ParameterChars(key, val);
    BeforeOf(key, '=', ['='] + val);
    NoCharBefore(p, '&');
    assert p[0] == key[0] && key[0] in key + val;
    assert Pieces([]) == [];
  }

  lemma ParameterChars(key: string, val: string)
    requires Parameter(key, val)
    ensures '=' !in key && '&' !in key + (['='] + val)
  {
    assert forall c :: c in key ==> c in key + val;
    assert forall c :: c in val ==> c in key + val;
  }

  /** Sessions takes one parameter, a policy or a combo that is not blank, or none. */
  lemma SessionsTakes(decode: string -> string, key: string, val: string)
    requires Parameter(key, val)
    ensures var allowed := PageValidators(decode).sessions;
            && allowed("sessions", "")
            && (allowed("sessions", key + (['='] + val)) <==>
                  (decode(key) == "policy" || decode(key) == "combo") && PoolSettings.Trim(decode(val)) != [])
  {
    OneParameter(key, val);
    assert Params("") == [];
  }

  /** Logs takes session ids on its root, and nothing on its debug surface. */
  lemma LogsTakes(decode: string -> string, key: string, val: string)
    requires Parameter(key, val)
    ensures var allowed := PageValidators(decode).logs;
            && (allowed("logs", key + (['='] + val)) <==> decode(key) == "sessionId")
            && !allowed("logs/debug", key + (['='] + val))
  {
    OneParameter(key, val);
  }

  /** Storage takes its two tabs beside its root, and no parameter anywhere. */
  lemma StorageTakes(decode: string -> string, path: string, query: string)
    ensures PageValidators(decode).storage(path, query) <==>
            !HasQuery(query) && (path == "storage" || path == "storage/cleanup" || path == "storage/quarantine")
  {
    HasQueryCountsParams(query);
  }

  /** Every spelling of the retired key pages leads to Api. */
  lemma KeysLeadTo(v: Validators, raw: string)
    requires raw == "api/keys" || MatchesPrefix(raw, "integrations/keys")
    ensures Resolve(v, raw).page == Api
  {
    ResolvedPageIsColdPage(v, raw);
    ApiSpellingAgrees(raw);
  }

  // ---------------------------------------------------------------- markers and former hosts

  /** One marker is dropped, with its slash if it has one; a hash without one stays. */
  lemma NormalizeDropsMarker(x: string)
    ensures Normalize("#/" + x) == x
    ensures x == [] || x[0] != '/' ==> Normalize("#" + x) == x
    ensures x == [] || x[0] != '#' ==> Normalize(x) == x
  {
    var slashed, plain := "#/" + x, "#" + x;
    assert slashed[0] == '#' && slashed[1] == '/' && slashed[2..] == x;
    assert plain[0] == '#' && plain[1..] == x;
  }

  /** What Startup and Models gave up to Routing. */
  predicate GivenUp(host: Page, u: string) {
    || (host == Startup && (u == "combos" || u == "routing" || u == "evaluation" || u == "analytics" || u == "compatibility"))
    || (host == Models && (u == "combos" || u == "routing" || u == "compatibility"))
  }

  lemma GivenUpIsListed(host: Page, u: string)
    ensures GivenUp(host, u) <==> (host == Startup && u in STARTUP_SURFACES) || (host == Models && u in MODELS_SURFACES)
  {
  }

  lemma {:induction false} FirstSurfaceSome(raw: string, host: string, surfaces: seq<string>, u: string)
    requires u in surfaces && MatchesPrefix(raw, host + ['/'] + u)
    ensures FirstSurface(raw, host, surfaces).Some?
  {
    if !MatchesPrefix(raw, host + ['/'] + surfaces[0]) {
      FirstSurfaceSome(raw, host, surfaces[1..], u);
    }
  }

  /** A hash is under a former host exactly when it is under one of these surfaces. */
  lemma FormerHostsAre(raw: string)
    ensures UnderFormerHost(raw) <==>
            exists host, u :: GivenUp(host, u) && MatchesPrefix(raw, PageText(host) + ['/'] + u)
  {
    if FirstSurface(raw, "startup", STARTUP_SURFACES).Some? {
      FirstSurfaceFinds(raw, "startup", STARTUP_SURFACES);
      GivenUpIsListed(Startup, FirstSurface(raw, "startup", STARTUP_SURFACES).value);
      assert PageText(Startup) == "startup";
    } else if FirstSurface(raw, "models", MODELS_SURFACES).Some? {
      FirstSurfaceFinds(raw, "models", MODELS_SURFACES);
      GivenUpIsListed(Models, FirstSurface(raw, "models", MODELS_SURFACES).value);
      assert PageText(Models) == "models";
    }
    if host, u :| GivenUp(host, u) && MatchesPrefix(raw, PageText(host) + ['/'] + u) {
      GivenUpIsListed(host, u);
      FirstSurfaceSome(raw, PageText(host), if host == Startup then STARTUP_SURFACES else MODELS_SURFACES, u);
    }
  }
}
