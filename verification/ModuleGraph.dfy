/**
  * Which modules the dashboard can load at run time (gui/scripts/i18n-module-graph.ts):
  * the module specifiers a dynamic import can evaluate to, and the worklist over a project's
  * modules. Parsing a module into its loads and the path arithmetic that turns a specifier into
  * candidate files are parameters of the project.
  */
module ModuleGraph {
  import opened Options

  type Path = string

  datatype Load =
    | Spec(spec: string, line: nat)
    | Unsupported(reason: string, detail: string, line: nat)

  /** The modules with their runtime loads, and the candidate files of a specifier in a module. */
  datatype Project = Project(files: map<Path, seq<Load>>, candidates: (Path, string) -> seq<Path>)

  // ---------------------------------------------------------------- paths

  function ForwardSlashes(p: string): string {
    if p == [] then [] else [if p[0] == '\\' then '/' else p[0]] + ForwardSlashes(p[1..])
  }

  function NormalizePath(p: string): Path {
    var q := ForwardSlashes(p);
    if "./" <= q then q[2..] else q
  }

  predicate EndsWith(s: string, ending: string) {
    |ending| <= |s| && s[|s| - |ending|..] == ending
  }

  predicate IsAsset(spec: string) {
    EndsWith(spec, ".css") || EndsWith(spec, ".svg") || EndsWith(spec, ".json")
  }

  /** Every backslash becomes a slash, and nothing else changes. */
  lemma {:induction false} SlashesForward(p: string, i: nat)
    requires i < |p|
    ensures |ForwardSlashes(p)| == |p| && ForwardSlashes(p)[i] == if p[i] == '\\' then '/' else p[i]
  {
    if |p| > 1 {
      SlashesForward(p[1..], if i > 0 then i - 1 else 0);
    }
  }

  lemma {:induction false} NoBackslashLeft(p: string)
    ensures '\\' !in ForwardSlashes(p) && |ForwardSlashes(p)| == |p|
  {
    if p != [] {
      NoBackslashLeft(p[1..]);
    }
  }

  lemma DotSlash(q: string)
    ensures "./" <= q <==> |q| >= 2 && q[0] == '.' && q[1] == '/'
  {
    if |q| >= 2 && q[0] == '.' && q[1] == '/' {
      assert q[..2] == "./";
    }
  }

  /** The path begins in its own directory, with either kind of slash. */
  predicate StartsHere(p: string) {
    |p| >= 2 && p[0] == '.' && (p[1] == '/' || p[1] == '\\')
  }

  lemma StartsHereForward(p: string)
    ensures StartsHere(p) <==> "./" <= ForwardSlashes(p)
  {
    NoBackslashLeft(p);
    DotSlash(ForwardSlashes(p));
    if |p| >= 2 {
      SlashesForward(p, 0);
      SlashesForward(p, 1);
    }
  }

  lemma TailLacks(q: string, c: char)
    requires c !in q && 2 <= |q|
    ensures c !in q[2..]
  {
  }

  /** A normalized path has no backslash, and lost exactly one leading `./` if it had one. */
  lemma NormalizedPath(p: string)
    ensures '\\' !in NormalizePath(p)
    ensures |ForwardSlashes(p)| == |p|
    ensures NormalizePath(p) == if StartsHere(p) then ForwardSlashes(p)[2..] else ForwardSlashes(p)
  {
    NoBackslashLeft(p);
    StartsHereForward(p);
    if StartsHere(p) {
      TailLacks(ForwardSlashes(p), '\\');
    }
  }

  lemma EndsWithMeans(s: string, ending: string)
    ensures EndsWith(s, ending) <==> exists stem :: s == stem + ending
  {
    if EndsWith(s, ending) {
      assert s == s[..|s| - |ending|] + ending;
    }
    if stem :| s == stem + ending {
      assert s[|s| - |ending|..] == ending;
    }
  }

  /** Style sheets, vector images and JSON are assets, and nothing else is. */
  lemma AssetsAre(spec: string)
    ensures IsAsset(spec) <==> exists stem :: spec == stem + ".css" || spec == stem + ".svg" || spec == stem + ".json"
  {
    EndsWithMeans(spec, ".css");
    EndsWithMeans(spec, ".svg");
    EndsWithMeans(spec, ".json");
  }

  // ---------------------------------------------------------------- resolution

  function FirstKnown(files: map<Path, seq<Load>>, candidates: seq<Path>): Option<Path> {
    if candidates == [] then None
    else if NormalizePath(candidates[0]) in files then Some(NormalizePath(candidates[0]))
    else FirstKnown(files, candidates[1..])
  }

  function ResolveDependency(g: Project, from: Path, spec: string): Option<Path> {
    FirstKnown(g.files, g.candidates(from, spec))
  }

  /** The first candidate that is a module of the project, and nothing when none is. */
  lemma {:induction false} FirstKnownFinds(files: map<Path, seq<Load>>, candidates: seq<Path>)
    ensures var r := FirstKnown(files, candidates);
            match r
            case None => forall i :: 0 <= i < |candidates| ==> NormalizePath(candidates[i]) !in files
            case Some(p) =>
              && p in files
              && exists k :: 0 <= k < |candidates| && p == NormalizePath(candidates[k])
                          && forall i :: 0 <= i < k ==> NormalizePath(candidates[i]) !in files
  {
    if candidates != [] && NormalizePath(candidates[0]) !in files {
      var rest := candidates[1..];
      FirstKnownFinds(files, rest);
      match FirstKnown(files, rest)
      case None =>
        forall i | 0 <= i < |candidates| ensures NormalizePath(candidates[i]) !in files {
          if i > 0 { assert candidates[i] == rest[i - 1]; }
        }
      case Some(p) =>
        var k :| 0 <= k < |rest| && p == NormalizePath(rest[k])
              && forall i :: 0 <= i < k ==> NormalizePath(rest[i]) !in files;
        assert candidates[k + 1] == rest[k];
        forall i | 0 <= i < k + 1 ensures NormalizePath(candidates[i]) !in files {
          if i > 0 { assert candidates[i] == rest[i - 1]; }
        }
    }
  }

  /** The loop over the candidates, stopping at the first hit. */
  method ResolveRuntimeDependency(g: Project, from: Path, spec: string) returns (r: Option<Path>)
    ensures r == ResolveDependency(g, from, spec)
  {
    var candidates := g.candidates(from, spec);
    var i := 0;
    while i < |candidates|
      invariant 0 <= i <= |candidates|
      invariant FirstKnown(g.files, candidates) == FirstKnown(g.files, candidates[i..])
    {
      var normalized := NormalizePath(candidates[i]);
      if normalized in g.files {
        return Some(normalized);
      }
      assert candidates[i..][1..] == candidates[i + 1..];
      i := i + 1;
    }
    return None;
  }

  // ---------------------------------------------------------------- the graph

  /** A resolved module with the empty path reads as unresolved. */
  predicate Resolves(g: Project, from: Path, spec: string) {
    var r := ResolveDependency(g, from, spec);
    r.Some? && r.value != ""
  }

  /** The module a load brings in at run time, if it brings one in. */
  function TargetOf(g: Project, from: Path, load: Load): Option<Path> {
    if load.Spec? && !IsAsset(load.spec) && Resolves(g, from, load.spec)
    then ResolveDependency(g, from, load.spec) else None
  }

  predicate Edge(g: Project, from: Path, to: Path) {
    from in g.files && exists i :: 0 <= i < |g.files[from]| && TargetOf(g, from, g.files[from][i]) == Some(to)
  }

  function KnownEntries(g: Project, entries: seq<string>): set<Path> {
    set e | e in entries && NormalizePath(e) in g.files :: NormalizePath(e)
  }

  /** Every resolved import of a member is a member. */
  ghost predicate Closed(g: Project, s: set<Path>) {
    forall a, b :: a in s && Edge(g, a, b) ==> b in s
  }

  /** `p` is reached from an entry point along resolved runtime imports. */
  ghost predicate Trail(g: Project, entries: seq<string>, trail: seq<Path>, p: Path) {
    && trail != [] && trail[0] in KnownEntries(g, entries) && trail[|trail| - 1] == p
    && forall i :: 0 < i < |trail| ==> Edge(g, trail[i - 1], trail[i])
  }

  /** The least set that holds the known entry points and is closed under resolved imports. */
  ghost predicate IsLeastClosed(g: Project, entries: seq<string>, r: set<Path>) {
    && KnownEntries(g, entries) <= r && Closed(g, r)
    && forall s: set<Path> :: KnownEntries(g, entries) <= s && Closed(g, s) ==> r <= s
  }

  lemma TargetIsKnown(g: Project, from: Path, load: Load)
    requires TargetOf(g, from, load).Some?
    ensures TargetOf(g, from, load).value in g.files
  {
    FirstKnownFinds(g.files, g.candidates(from, load.spec));
  }

  // ---------------------------------------------------------------- reports

  datatype Unresolved = Unresolved(from: Path, spec: string, line: nat)
  datatype Refused = Refused(from: Path, line: nat, reason: string, detail: string)

  function UnresolvedOfLoad(g: Project, from: Path, load: Load): seq<Unresolved> {
    if load.Spec? && !IsAsset(load.spec) && !Resolves(g, from, load.spec) && "." <= load.spec
    then [Unresolved(from, load.spec, load.line)] else []
  }

  function RefusedOfLoad(from: Path, load: Load): seq<Refused> {
    if load.Unsupported? then [Refused(from, load.line, load.reason, load.detail)] else []
  }

  function UnresolvedOf(g: Project, from: Path, loads: seq<Load>): seq<Unresolved> {
    if loads == [] then []
    else UnresolvedOf(g, from, loads[..|loads| - 1]) + UnresolvedOfLoad(g, from, loads[|loads| - 1])
  }

  function RefusedOf(from: Path, loads: seq<Load>): seq<Refused> {
    if loads == [] then []
    else RefusedOf(from, loads[..|loads| - 1]) + RefusedOfLoad(from, loads[|loads| - 1])
  }

  /** The reports of the modules in the order they were visited. */
  function AllUnresolved(g: Project, order: seq<Path>): seq<Unresolved>
    requires forall p :: p in order ==> p in g.files
  {
    if order == [] then []
    else
      var last := order[|order| - 1];
      AllUnresolved(g, order[..|order| - 1]) + UnresolvedOf(g, last, g.files[last])
  }

  function AllRefused(g: Project, order: seq<Path>): seq<Refused>
    requires forall p :: p in order ==> p in g.files
  {
    if order == [] then []
    else
      var last := order[|order| - 1];
      AllRefused(g, order[..|order| - 1]) + RefusedOf(last, g.files[last])
  }

  predicate Distinct(s: seq<Path>) {
    forall i, j :: 0 <= i < j < |s| ==> s[i] != s[j]
  }

  /** Each module of `reachable` occurs exactly once in `order`. */
  predicate VisitsOnce(order: seq<Path>, reachable: set<Path>) {
    Distinct(order) && (set p | p in order) == reachable
  }

  // ---------------------------------------------------------------- the worklist

  datatype Reachability = Reachability(reachable: set<Path>, unresolved: seq<Unresolved>, refused: seq<Refused>)

  /** What the worklist holds between two pops. */
  ghost predicate Exploring(g: Project, entries: seq<string>, reachable: set<Path>, queue: seq<Path>) {
    && reachable <= g.files.Keys
    && (forall p :: p in queue ==> p in g.files)
    && (forall p :: p in KnownEntries(g, entries) ==> p in reachable || p in queue)
    && (forall a, b :: a in reachable && Edge(g, a, b) ==> b in reachable || b in queue)
  }

  /** Everything met so far lies in every closed set that holds the entries. */
  ghost predicate Forced(g: Project, entries: seq<string>, reachable: set<Path>, queue: seq<Path>) {
    forall s: set<Path>, p :: KnownEntries(g, entries) <= s && Closed(g, s) && (p in reachable || p in queue) ==> p in s
  }

  method EntryQueue(g: Project, entries: seq<string>) returns (queue: seq<Path>)
    ensures forall p :: p in queue <==> p in KnownEntries(g, entries)
  {
    queue := [];
    var i := 0;
    while i < |entries|
      invariant 0 <= i <= |entries|
      invariant forall p :: p in queue <==> p in KnownEntries(g, entries[..i])
    {
      var entry := NormalizePath(entries[i]);
      assert entries[..i + 1] == entries[..i] + [entries[i]];
      if entry in g.files {
        queue := queue + [entry];
      }
      i := i + 1;
    }
    assert entries[..i] == entries;
  }

  /** What one load adds to the queue. */
  function FoundByLoad(g: Project, from: Path, load: Load, reachable: set<Path>): seq<Path> {
    var t := TargetOf(g, from, load);
    if t.Some? && t.value !in reachable then [t.value] else []
  }

  function Found(g: Project, from: Path, loads: seq<Load>, reachable: set<Path>): seq<Path> {
    if loads == [] then []
    else Found(g, from, loads[..|loads| - 1], reachable) + FoundByLoad(g, from, loads[|loads| - 1], reachable)
  }

  predicate Brings(g: Project, from: Path, loads: seq<Load>, p: Path) {
    exists i :: 0 <= i < |loads| && TargetOf(g, from, loads[i]) == Some(p)
  }

  lemma {:induction false} FoundIsNew(g: Project, from: Path, loads: seq<Load>, reachable: set<Path>, p: Path)
    ensures p in Found(g, from, loads, reachable) <==> p !in reachable && Brings(g, from, loads, p)
  {
    if loads != [] {
      var n := |loads| - 1;
      FoundIsNew(g, from, loads[..n], reachable, p);
      BringsOneMore(g, from, loads, p);
    }
  }

  lemma BringsOneMore(g: Project, from: Path, loads: seq<Load>, p: Path)
    requires loads != []
    ensures var n := |loads| - 1;
            Brings(g, from, loads, p) <==> Brings(g, from, loads[..n], p) || TargetOf(g, from, loads[n]) == Some(p)
  {
    var n := |loads| - 1;
    if Brings(g, from, loads[..n], p) {
      var i :| 0 <= i < n && TargetOf(g, from, loads[..n][i]) == Some(p);
      assert loads[i] == loads[..n][i];
    }
    if Brings(g, from, loads, p) {
      var i :| 0 <= i < |loads| && TargetOf(g, from, loads[i]) == Some(p);
      assert i == n || loads[i] == loads[..n][i];
    }
  }

  /** The body of the load loop: at most one of the three lists grows, by one. */
  method VisitLoad(g: Project, current: Path, load: Load, reachable: set<Path>)
    returns (found: seq<Path>, unresolved: seq<Unresolved>, refused: seq<Refused>)
    ensures found == FoundByLoad(g, current, load, reachable)
    ensures unresolved == UnresolvedOfLoad(g, current, load)
    ensures refused == RefusedOfLoad(current, load)
  {
    found, unresolved, refused := [], [], [];
    if load.Unsupported? {
      refused := [Refused(current, load.line, load.reason, load.detail)];
      return;
    }
    if IsAsset(load.spec) {
      return;
    }
    var resolved := ResolveRuntimeDependency(g, current, load.spec);
    if resolved.None? || resolved.value == "" {
      if "." <= load.spec {
        unresolved := [Unresolved(current, load.spec, load.line)];
      }
      return;
    }
    if resolved.value !in reachable {
      found := [resolved.value];
    }
  }

  lemma OneMoreLoad(g: Project, from: Path, loads: seq<Load>, i: nat, reachable: set<Path>)
    requires i < |loads|
    ensures Found(g, from, loads[..i + 1], reachable)
         == Found(g, from, loads[..i], reachable) + FoundByLoad(g, from, loads[i], reachable)
    ensures UnresolvedOf(g, from, loads[..i + 1]) == UnresolvedOf(g, from, loads[..i]) + UnresolvedOfLoad(g, from, loads[i])
    ensures RefusedOf(from, loads[..i + 1]) == RefusedOf(from, loads[..i]) + RefusedOfLoad(from, loads[i])
  {
    assert loads[..i + 1][..i] == loads[..i] && loads[..i + 1][i] == loads[i];
  }

  /** One module's loads: its reports, and the modules it brings in that are not yet reached. */
  method VisitLoads(g: Project, current: Path, reachable: set<Path>)
    returns (found: seq<Path>, unresolved: seq<Unresolved>, refused: seq<Refused>)
    requires current in g.files
    ensures found == Found(g, current, g.files[current], reachable)
    ensures unresolved == UnresolvedOf(g, current, g.files[current])
    ensures refused == RefusedOf(current, g.files[current])
  {
    var loads := g.files[current];
    found, unresolved, refused := [], [], [];
    var i := 0;
    while i < |loads|
      invariant 0 <= i <= |loads|
      invariant found == Found(g, current, loads[..i], reachable)
      invariant unresolved == UnresolvedOf(g, current, loads[..i])
      invariant refused == RefusedOf(current, loads[..i])
    {
      var f, u, r := VisitLoad(g, current, loads[i], reachable);
      OneMoreLoad(g, current, loads, i, reachable);
      found, unresolved, refused := found + f, unresolved + u, refused + r;
      i := i + 1;
    }
    assert loads[..i] == loads;
  }

  // ---------------------------------------------------------------- one pop keeps the worklist facts

  lemma EdgeIsBrought(g: Project, from: Path, to: Path)
    ensures Edge(g, from, to) <==> from in g.files && Brings(g, from, g.files[from], to)
  {
  }

  lemma VisitExplores(g: Project, entries: seq<string>, reachable: set<Path>, rest: seq<Path>, current: Path)
    requires current in g.files && Exploring(g, entries, reachable, rest + [current])
    ensures Exploring(g, entries, reachable + {current}, rest + Found(g, current, g.files[current], reachable + {current}))
  {
    var r := reachable + {current};
    var found := Found(g, current, g.files[current], r);
    forall a, b | a in r && Edge(g, a, b) ensures b in r || b in rest + found {
      if a == current {
        EdgeIsBrought(g, current, b);
        FoundIsNew(g, current, g.files[current], r, b);
      }
    }
    forall p | p in rest + found ensures p in g.files {
      if p in found {
        FoundIsNew(g, current, g.files[current], r, p);
        BroughtIsKnown(g, current, g.files[current], p);
      }
    }
  }

  lemma BroughtIsKnown(g: Project, from: Path, loads: seq<Load>, p: Path)
    requires Brings(g, from, loads, p)
    ensures p in g.files
  {
    var i :| 0 <= i < |loads| && TargetOf(g, from, loads[i]) == Some(p);
    TargetIsKnown(g, from, loads[i]);
  }

  lemma VisitForced(g: Project, entries: seq<string>, reachable: set<Path>, rest: seq<Path>, current: Path)
    requires current in g.files && Forced(g, entries, reachable, rest + [current])
    ensures Forced(g, entries, reachable + {current}, rest + Found(g, current, g.files[current], reachable + {current}))
  {
    var r := reachable + {current};
    var found := Found(g, current, g.files[current], r);
    forall s: set<Path>, p | KnownEntries(g, entries) <= s && Closed(g, s) && (p in r || p in rest + found)
      ensures p in s
    {
      assert current in rest + [current];
      if p in found {
        FoundIsNew(g, current, g.files[current], r, p);
        EdgeIsBrought(g, current, p);
      }
    }
  }

  /** A module met before is dropped from the queue. */
  lemma SkipExplores(g: Project, entries: seq<string>, reachable: set<Path>, rest: seq<Path>, current: Path)
    requires current in reachable
    requires Exploring(g, entries, reachable, rest + [current]) && Forced(g, entries, reachable, rest + [current])
    ensures Exploring(g, entries, reachable, rest) && Forced(g, entries, reachable, rest)
  {
    forall p | p in rest ensures p in rest + [current] {
    }
  }

  lemma DoneIsLeast(g: Project, entries: seq<string>, reachable: set<Path>)
    requires Exploring(g, entries, reachable, []) && Forced(g, entries, reachable, [])
    ensures IsLeastClosed(g, entries, reachable)
  {
  }

  lemma OrderGrows(order: seq<Path>, reachable: set<Path>, p: Path)
    requires VisitsOnce(order, reachable) && p !in reachable
    ensures VisitsOnce(order + [p], reachable + {p})
  {
  }

  /**
    * The worklist ends on every finite project, cyclic or not. It returns exactly the least closed
    * set, and `order` is a witness that each reachable module's loads were processed exactly once.
    */
  method ReachableRuntimeModules(g: Project, entries: seq<string>) returns (r: Reachability, ghost order: seq<Path>)
    ensures IsLeastClosed(g, entries, r.reachable) && r.reachable <= g.files.Keys
    ensures forall p :: p in r.reachable <==> Reached(g, entries, p)
    ensures VisitsOnce(order, r.reachable)
    ensures forall p :: p in order ==> p in g.files
    ensures r.unresolved == AllUnresolved(g, order)
    ensures r.refused == AllRefused(g, order)
  {
    var reachable: set<Path> := {};
    var unresolved: seq<Unresolved> := [];
    var refused: seq<Refused> := [];
    var queue := EntryQueue(g, entries);
    order := [];
    while queue != []
      invariant Exploring(g, entries, reachable, queue)
      invariant Forced(g, entries, reachable, queue)
      invariant VisitsOnce(order, reachable)
      invariant forall p :: p in order ==> p in g.files
      invariant unresolved == AllUnresolved(g, order) && refused == AllRefused(g, order)
      decreases g.files.Keys - reachable, |queue|
    {
      var current, rest := queue[|queue| - 1], queue[..|queue| - 1];
      assert queue == rest + [current];
      queue := rest;
      if current in reachable {
        SkipExplores(g, entries, reachable, rest, current);
        continue;
      }
      VisitExplores(g, entries, reachable, rest, current);
      VisitForced(g, entries, reachable, rest, current);
      OrderGrows(order, reachable, current);
      reachable := reachable + {current};
      var found, u, x := VisitLoads(g, current, reachable);
      queue := queue + found;
      assert (order + [current])[..|order|] == order;
      order := order + [current];
      unresolved, refused := unresolved + u, refused + x;
    }
    DoneIsLeast(g, entries, reachable);
    forall p ensures p in reachable <==> Reached(g, entries, p) {
      LeastClosedIsReached(g, entries, reachable, p);
    }
    r := Reachability(reachable, unresolved, refused);
  }

  // ---------------------------------------------------------------- what the reports hold

  lemma {:induction false} RefusedOfHolds(from: Path, loads: seq<Load>, r: Refused)
    ensures r in RefusedOf(from, loads) <==>
            r.from == from && Unsupported(r.reason, r.detail, r.line) in loads
  {
    if loads != [] {
      var n := |loads| - 1;
      RefusedOfHolds(from, loads[..n], r);
      assert loads == loads[..n] + [loads[n]];
    }
  }

  predicate Missing(g: Project, from: Path, spec: string) {
    "." <= spec && !IsAsset(spec) && !Resolves(g, from, spec)
  }

  lemma {:induction false} UnresolvedOfHolds(g: Project, from: Path, loads: seq<Load>, u: Unresolved)
    ensures u in UnresolvedOf(g, from, loads) <==>
            u.from == from && Spec(u.spec, u.line) in loads && Missing(g, from, u.spec)
  {
    if loads != [] {
      var n := |loads| - 1;
      UnresolvedOfHolds(g, from, loads[..n], u);
      assert loads == loads[..n] + [loads[n]];
    }
  }

  /** The refused loads reported are exactly those of the modules visited. */
  lemma {:induction false} RefusedAreExactly(g: Project, order: seq<Path>, r: Refused)
    requires forall p :: p in order ==> p in g.files
    ensures r in AllRefused(g, order) <==>
            r.from in order && Unsupported(r.reason, r.detail, r.line) in g.files[r.from]
  {
    if order != [] {
      var n := |order| - 1;
      RefusedAreExactly(g, order[..n], r);
      RefusedOfHolds(order[n], g.files[order[n]], r);
      assert order == order[..n] + [order[n]];
    }
  }

  /** The unresolved specifiers reported are exactly the relative, non-asset ones no candidate serves. */
  lemma {:induction false} UnresolvedAreExactly(g: Project, order: seq<Path>, u: Unresolved)
    requires forall p :: p in order ==> p in g.files
    ensures u in AllUnresolved(g, order) <==>
            u.from in order && Spec(u.spec, u.line) in g.files[u.from] && Missing(g, u.from, u.spec)
  {
    if order != [] {
      var n := |order| - 1;
      UnresolvedAreExactly(g, order[..n], u);
      UnresolvedOfHolds(g, order[n], g.files[order[n]], u);
      assert order == order[..n] + [order[n]];
    }
  }

  // ---------------------------------------------------------------- reached along imports

  lemma {:induction false} TrailStaysIn(g: Project, entries: seq<string>, trail: seq<Path>, p: Path, s: set<Path>)
    requires Trail(g, entries, trail, p) && KnownEntries(g, entries) <= s && Closed(g, s)
    ensures p in s
    decreases |trail|
  {
    if |trail| > 1 {
      var front := trail[..|trail| - 1];
      TrailStaysIn(g, entries, front, front[|front| - 1], s);
      assert Edge(g, trail[|trail| - 2], trail[|trail| - 1]);
    }
  }

  ghost predicate Reached(g: Project, entries: seq<string>, p: Path) {
    exists trail :: Trail(g, entries, trail, p)
  }

  lemma ReachedGrows(g: Project, entries: seq<string>, a: Path, b: Path)
    requires Reached(g, entries, a) && Edge(g, a, b)
    ensures Reached(g, entries, b)
  {
    var trail :| Trail(g, entries, trail, a);
    assert Trail(g, entries, trail + [b], b);
  }

  lemma EntryIsReached(g: Project, entries: seq<string>, p: Path)
    requires p in KnownEntries(g, entries)
    ensures Reached(g, entries, p)
  {
    assert Trail(g, entries, [p], p);
  }

  /** The least closed set is exactly the set of modules some trail of imports leads to. */
  lemma LeastClosedIsReached(g: Project, entries: seq<string>, r: set<Path>, p: Path)
    requires IsLeastClosed(g, entries, r)
    ensures p in r <==> Reached(g, entries, p)
  {
    if Reached(g, entries, p) {
      var trail :| Trail(g, entries, trail, p);
      TrailStaysIn(g, entries, trail, p, r);
    }
    var s := set q | q in r && Reached(g, entries, q);
    forall q | q in KnownEntries(g, entries) ensures q in s {
      EntryIsReached(g, entries, q);
    }
    forall a, b | a in s && Edge(g, a, b) ensures b in s {
      ReachedGrows(g, entries, a, b);
    }
    assert r <= s;
  }

  // ---------------------------------------------------------------- dynamic import arguments

  /** The argument of a dynamic import; `Or` is `||`, `Coalesce` is `??`, and `Other` is anything else. */
  datatype Expr =
    | Literal(text: string)
    | Paren(inner: Expr)
    | Conditional(test: Expr, whenTrue: Expr, whenFalse: Expr)
    | Or(left: Expr, right: Expr)
    | Coalesce(left: Expr, right: Expr)
    | Other(id: nat)

  function Unwrapped(e: Expr): (r: Expr)
    ensures !r.Paren? && (r == e || r < e)
  {
    if e.Paren? then Unwrapped(e.inner) else e
  }

  method UnwrapImportArg(expr: Expr) returns (current: Expr)
    ensures current == Unwrapped(expr)
  {
    current := expr;
    while current.Paren?
      invariant Unwrapped(current) == Unwrapped(expr)
      decreases current
    {
      current := current.inner;
    }
  }

  /** Appends what is not there yet: the insertion order of a JavaScript set. */
  function AddAll(seen: seq<string>, more: seq<string>): seq<string>
    decreases |more|
  {
    if more == [] then seen
    else AddAll(if more[0] in seen then seen else seen + [more[0]], more[1..])
  }

  function Both(left: Option<seq<string>>, right: Option<seq<string>>): Option<seq<string>> {
    if left.None? || right.None? then None else Some(AddAll([], left.value + right.value))
  }

  function FiniteImportSpecs(expr: Expr): Option<seq<string>> {
    match Unwrapped(expr)
    case Literal(text) => Some([text])
    case Conditional(_, t, f) => Both(FiniteImportSpecs(t), FiniteImportSpecs(f))
    case Or(l, r) => Both(FiniteImportSpecs(l), FiniteImportSpecs(r))
    case Coalesce(l, r) => Both(FiniteImportSpecs(l), FiniteImportSpecs(r))
    case Other(_) => None
  }

  // The value of an expression, given the values of the expressions the rule does not look into.

  datatype Value = Text(text: string) | Nullish | Thing(truthy: bool)

  predicate Truthy(v: Value) {
    match v
    case Text(t) => t != ""
    case Nullish => false
    case Thing(b) => b
  }

  function Eval(e: Expr, env: nat -> Value): Value {
    match e
    case Literal(t) => Text(t)
    case Paren(i) => Eval(i, env)
    case Conditional(c, t, f) => if Truthy(Eval(c, env)) then Eval(t, env) else Eval(f, env)
    case Or(l, r) => if Truthy(Eval(l, env)) then Eval(l, env) else Eval(r, env)
    case Coalesce(l, r) => if Eval(l, env).Nullish? then Eval(r, env) else Eval(l, env)
    case Other(id) => env(id)
  }

  /** Some operand that could be the value is neither a literal nor built from literals. */
  predicate HasOpaque(e: Expr) {
    match e
    case Literal(_) => false
    case Paren(i) => HasOpaque(i)
    case Conditional(_, t, f) => HasOpaque(t) || HasOpaque(f)
    case Or(l, r) => HasOpaque(l) || HasOpaque(r)
    case Coalesce(l, r) => HasOpaque(l) || HasOpaque(r)
    case Other(_) => true
  }

  /** The literals in value position; the test of a conditional is not one. */
  function Literals(e: Expr): set<string> {
    match e
    case Literal(t) => {t}
    case Paren(i) => Literals(i)
    case Conditional(_, t, f) => Literals(t) + Literals(f)
    case Or(l, r) => Literals(l) + Literals(r)
    case Coalesce(l, r) => Literals(l) + Literals(r)
    case Other(_) => {}
  }

  lemma {:induction false} AddAllUnion(seen: seq<string>, more: seq<string>)
    requires Distinct(seen)
    ensures Distinct(AddAll(seen, more))
    ensures forall x :: x in AddAll(seen, more) <==> x in seen || x in more
    decreases |more|
  {
    if more != [] {
      AddAllUnion(if more[0] in seen then seen else seen + [more[0]], more[1..]);
    }
  }

  lemma {:induction false} UnwrappedMeans(e: Expr, env: nat -> Value)
    ensures HasOpaque(Unwrapped(e)) == HasOpaque(e)
    ensures Literals(Unwrapped(e)) == Literals(e)
    ensures Eval(Unwrapped(e), env) == Eval(e, env)
    ensures FiniteImportSpecs(Unwrapped(e)) == FiniteImportSpecs(e)
  {
    if e.Paren? {
      UnwrappedMeans(e.inner, env);
    }
  }

  ghost predicate Lists(specs: seq<string>, s: set<string>) {
    Distinct(specs) && forall x :: x in specs <==> x in s
  }

  lemma BothList(left: Option<seq<string>>, right: Option<seq<string>>, a: set<string>, b: set<string>)
    requires left.Some? ==> Lists(left.value, a)
    requires right.Some? ==> Lists(right.value, b)
    ensures Both(left, right).Some? ==> Lists(Both(left, right).value, a + b)
  {
    if left.Some? && right.Some? {
      AddAllUnion([], left.value + right.value);
    }
  }

  /** The operands of an unwrapped expression one of which is its value. */
  function Operands(e: Expr): Option<(Expr, Expr)> {
    match e
    case Conditional(_, t, f) => Some((t, f))
    case Or(l, r) => Some((l, r))
    case Coalesce(l, r) => Some((l, r))
    case _ => None
  }

  /** The rule lists exactly the literals in value position, once each, or gives up on an opaque operand. */
  lemma {:induction false} FiniteSpecsAreLiterals(e: Expr)
    ensures FiniteImportSpecs(e).None? <==> HasOpaque(e)
    ensures FiniteImportSpecs(e).Some? ==> Lists(FiniteImportSpecs(e).value, Literals(e))
    decreases e
  {
    var u := Unwrapped(e);
    UnwrappedMeans(e, _ => Nullish);
    if Operands(u).Some? {
      var (l, r) := Operands(u).value;
      FiniteSpecsAreLiterals(l);
      FiniteSpecsAreLiterals(r);
      BothList(FiniteImportSpecs(l), FiniteImportSpecs(r), Literals(l), Literals(r));
    }
  }

  lemma {:induction false} ClearValueIsLiteral(e: Expr, env: nat -> Value)
    requires !HasOpaque(e)
    ensures Eval(e, env).Text? && Eval(e, env).text in Literals(e)
  {
    match e
    case Literal(_) =>
    case Paren(i) => ClearValueIsLiteral(i, env);
    case Conditional(_, t, f) => ClearValueIsLiteral(t, env); ClearValueIsLiteral(f, env);
    case Or(l, r) => ClearValueIsLiteral(l, env); ClearValueIsLiteral(r, env);
    case Coalesce(l, r) => ClearValueIsLiteral(l, env); ClearValueIsLiteral(r, env);
  }

  /** No import is missed: whatever the rest of the program does, the argument's value is in the list. */
  lemma FiniteSpecsCoverValue(e: Expr, env: nat -> Value)
    requires FiniteImportSpecs(e).Some?
    ensures Eval(e, env).Text? && Eval(e, env).text in FiniteImportSpecs(e).value
  {
    FiniteSpecsAreLiterals(e);
    ClearValueIsLiteral(e, env);
  }
}
