/**
 * The tool registry of the proxy host, as values: the entities the
 * `ProxyHandler` class keeps (tool entries, the name tracker, the rejection
 * log, the loaded namespaces), the foreign parts it calls (directory listing,
 * path resolution, the syntax check, module execution) as the fields of a
 * `Host`, and one specification function per operation. The class in
 * module `BlackOrchid` is proved to follow these functions; the lemmas here
 * state what the functions guarantee.
 */
module RegistryModel {
  import opened Wrappers
  import opened Strings

  // ---------------------------------------------------------------------
  // Entities
  // ---------------------------------------------------------------------

  /** A file-system path as its list of components (`Path.parts`). */
  type Path = seq<string>

  /** An object bound at the top level of a module: its identity and its `__doc__`. */
  datatype Binding = Binding(id: nat, doc: Option<string>)

  /** A module's executed namespace: top-level name to bound object. */
  type Namespace = map<string, Binding>

  /** One registry row (black_orchid.py:141-147, :152-158). */
  datatype ToolEntry = ToolEntry(
    callable: Binding,
    docstring: Option<string>,
    sourceModule: string,
    originalName: string,
    hadCollision: bool)

  /** One element of a name's history: the module that claimed it and the key assigned to it. */
  datatype Claim = Claim(mod: string, toolName: string)

  type Registry = map<string, ToolEntry>

  type Tracker = map<string, seq<Claim>>

  /** What `open` + `read` + `ast.parse` of a candidate gives. */
  datatype SyntaxCheck = Parsed | SyntaxError | ReadFailure(detail: string)

  /**
   * What importing a module file gives: the bindings its execution made, no
   * loader (`spec_from_file_location` returned None), or an exception, with
   * the bindings made before it was raised.
   */
  datatype Execution = Executed(bindings: Namespace) | NoLoader | Raised(detail: string, partial: Namespace)

  /** The foreign calls, as they answer at the moment an operation runs. */
  datatype Host = Host(
    glob: Path -> seq<Path>,
    resolve: Path -> Path,
    isPresent: Path -> bool,
    syntax: Path -> SyntaxCheck,
    exec: (string, Path) -> Execution)

  /** All attributes of a `ProxyHandler`. */
  datatype State = State(
    validDirs: seq<Path>,
    rawModules: seq<Path>,
    okmods: seq<Path>,
    registry: Registry,
    tracker: Tracker,
    rejected: seq<(Path, string)>,
    loaded: map<string, Namespace>)

  /** Every name the tracker knows has a non-empty history (so `[0]` never fails). */
  predicate TrackerValid(tracker: Tracker)
  {
    forall n :: n in tracker ==> |tracker[n]| > 0
  }

  predicate StateValid(st: State)
  {
    TrackerValid(st.tracker)
  }

  // ---------------------------------------------------------------------
  // Paths
  // ---------------------------------------------------------------------

  /** `Path.name`. */
  function Name(p: Path): string
  {
    if p == [] then "" else p[|p| - 1]
  }

  /** The module name Python derives from a file: `Path(p).stem`. */
  function ModuleName(p: Path): string
  {
    Stem(Name(p))
  }

  /** `p.is_relative_to(d)` on resolved paths. */
  predicate IsRelativeTo(p: Path, d: Path)
  {
    |d| <= |p| && d == p[..|d|]
  }

  predicate UnderSomeDir(p: Path, dirs: seq<Path>)
  {
    exists i :: 0 <= i < |dirs| && IsRelativeTo(p, dirs[i])
  }

  /** The roots: `modules/`, then `private/modules/` when it exists (black_orchid.py:33-39). */
  function ValidDirs(host: Host, baseDir: Path): (dirs: seq<Path>)
    ensures 1 <= |dirs| <= 2
    ensures dirs[0] == host.resolve(baseDir + ["modules"])
    ensures |dirs| == 2 <==> host.isPresent(baseDir + ["private", "modules"])
  {
    var priv := baseDir + ["private", "modules"];
    [host.resolve(baseDir + ["modules"])] + (if host.isPresent(priv) then [host.resolve(priv)] else [])
  }

  /** The `*.py` glob of each root, concatenated in root order (black_orchid.py:50-51). */
  function RawModules(host: Host, dirs: seq<Path>): seq<Path>
  {
    if dirs == [] then [] else RawModules(host, dirs[..|dirs| - 1]) + host.glob(dirs[|dirs| - 1])
  }

  // ---------------------------------------------------------------------
  // Discovery and validation (black_orchid.py:56-79)
  // ---------------------------------------------------------------------

  datatype Outcome = Accepted(path: Path) | Rejected(reason: string) | Skipped

  const PathTraversal := "path_traversal_attempt"
  const SyntaxErrorReason := "syntax_error"
  const ReadErrorPrefix := "read_error: "
  const ImportErrorPrefix := "import_error: "
  const ReservedStem := "toolset"

  /** What validation does with one globbed path. */
  function Classify(host: Host, dirs: seq<Path>, raw: Path): (r: Outcome)
    ensures r.Accepted? ==> r.path == host.resolve(raw) && UnderSomeDir(r.path, dirs)
    ensures r.Skipped? ==> UnderSomeDir(host.resolve(raw), dirs) && ModuleName(host.resolve(raw)) == ReservedStem
    ensures r.Rejected? ==>
      r.reason == PathTraversal || r.reason == SyntaxErrorReason || StartsWith(r.reason, ReadErrorPrefix)
  {
    var p := host.resolve(raw);
    if !UnderSomeDir(p, dirs) then Rejected(PathTraversal)
    else if ModuleName(p) == ReservedStem then Skipped
    else match host.syntax(p)
      case Parsed => Accepted(p)
      case SyntaxError => Rejected(SyntaxErrorReason)
      case ReadFailure(e) => Rejected(ReadErrorPrefix + e)
  }

  /** The accepted paths (`okmods`) and the rejection log after validating `raws` in order. */
  function Discover(host: Host, dirs: seq<Path>, raws: seq<Path>): (r: (seq<Path>, seq<(Path, string)>))
  {
    if raws == [] then ([], [])
    else
      var d := Discover(host, dirs, raws[..|raws| - 1]);
      var raw := raws[|raws| - 1];
      match Classify(host, dirs, raw)
      case Accepted(p) => (d.0 + [p], d.1)
      case Rejected(reason) => (d.0, d.1 + [(raw, reason)])
      case Skipped => d
  }

  /** Validating one more path. */
  lemma DiscoverStep(host: Host, dirs: seq<Path>, raws: seq<Path>, n: nat)
    requires n < |raws|
    ensures var d := Discover(host, dirs, raws[..n]);
      var c := Classify(host, dirs, raws[n]);
      Discover(host, dirs, raws[..n + 1])
        == if c.Accepted? then (d.0 + [c.path], d.1)
           else if c.Rejected? then (d.0, d.1 + [(raws[n], c.reason)])
           else d
  {
    assert raws[..n + 1][..n] == raws[..n];
  }

  /** How many of `raws` are skipped silently for the reserved stem. */
  function CountSkipped(host: Host, dirs: seq<Path>, raws: seq<Path>): nat
  {
    if raws == [] then 0
    else CountSkipped(host, dirs, raws[..|raws| - 1]) + (if Classify(host, dirs, raws[|raws| - 1]).Skipped? then 1 else 0)
  }

  // ---------------------------------------------------------------------
  // Extraction (black_orchid.py:99, :244, :300)
  // ---------------------------------------------------------------------

  /** The filter of the initial load and of full reload. */
  predicate IsToolName(x: string)
  {
    !Contains(x, "__") && IsLower(x) && !StartsWith(x, "_")
  }

  /** The filter of single-module reload: the underscore test is missing. */
  predicate IsReloadName(x: string)
  {
    !Contains(x, "__") && IsLower(x)
  }

  predicate Eligible(x: string, reload: bool)
  {
    if reload then IsReloadName(x) else IsToolName(x)
  }

  function FilterNames(s: seq<string>, reload: bool): (r: seq<string>)
    ensures forall x :: x in r <==> x in s && Eligible(x, reload)
  {
    if s == [] then []
    else
      var rest := FilterNames(s[1..], reload);
      assert forall x :: x in rest ==> x in s[1..];
      if Eligible(s[0], reload) then [s[0]] + rest else rest
  }

  lemma {:induction false} FilterNamesSorted(s: seq<string>, reload: bool)
    requires StrictlySorted(s)
    ensures StrictlySorted(FilterNames(s, reload))
  {
    if s != [] {
      assert StrictlySorted(s[1..]) by {
        forall i, j | 0 <= i < j < |s[1..]| ensures Below(s[1..][i], s[1..][j]) {
          assert s[1..][i] == s[i + 1] && s[1..][j] == s[j + 1];
        }
      }
      FilterNamesSorted(s[1..], reload);
      var rest := FilterNames(s[1..], reload);
      forall x | x in rest ensures Below(s[0], x) {
        var k :| 0 <= k < |s[1..]| && s[1..][k] == x;
        assert s[k + 1] == x;
      }
    }
  }

  /** `clean_list`: the eligible names of a namespace in `dir()` order. */
  function CleanList(ns: Namespace, reload: bool): (r: seq<string>)
    ensures StrictlySorted(r)
    ensures forall x :: x in r <==> x in ns && Eligible(x, reload)
  {
    FilterNamesSorted(SortedSet(ns.Keys), reload);
    FilterNames(SortedSet(ns.Keys), reload)
  }

  // ---------------------------------------------------------------------
  // Collision-aware registration (black_orchid.py:116-160)
  // ---------------------------------------------------------------------

  datatype Tables = Tables(registry: Registry, tracker: Tracker)

  function Suffixed(name: string, mod: string): string
  {
    name + "_" + mod
  }

  function EntryFor(fn: Binding, mod: string, name: string, collided: bool): ToolEntry
  {
    ToolEntry(fn, fn.doc, mod, name, collided)
  }

  /** `_register_tool(name, module, fn)`. */
  function Register(t: Tables, name: string, mod: string, fn: Binding): (r: Tables)
    requires TrackerValid(t.tracker)
    ensures TrackerValid(r.tracker)
  {
    if name in t.tracker then
      var history := t.tracker[name];
      var first := history[0];
      var renamed :=
        if first.toolName == name && name in t.registry then
          var moved := Suffixed(name, first.mod);
          Tables((t.registry - {name})[moved := t.registry[name].(hadCollision := true)],
                 t.tracker[name := [Claim(first.mod, moved)] + history[1..]])
        else t;
      var key := Suffixed(name, mod);
      Tables(renamed.registry[key := EntryFor(fn, mod, name, true)],
             renamed.tracker[name := renamed.tracker[name] + [Claim(mod, key)]])
    else
      Tables(t.registry[name := EntryFor(fn, mod, name, false)], t.tracker[name := [Claim(mod, name)]])
  }

  /** Registering each of `names` from `ns` in order (the `for fn_name in clean_list` loops). */
  function RegisterAll(t: Tables, names: seq<string>, mod: string, ns: Namespace): (r: Tables)
    requires TrackerValid(t.tracker)
    requires forall i :: 0 <= i < |names| ==> names[i] in ns
    ensures TrackerValid(r.tracker)
    decreases |names|
  {
    if names == [] then t
    else
      var n := names[|names| - 1];
      Register(RegisterAll(t, names[..|names| - 1], mod, ns), n, mod, ns[n])
  }

  // ---------------------------------------------------------------------
  // Loading (black_orchid.py:82-114 and :215-250)
  // ---------------------------------------------------------------------

  /** Binding a successfully executed module and registering its tools. */
  function Install(st: State, name: string, ns: Namespace): (r: State)
    requires StateValid(st)
    ensures StateValid(r)
  {
    var t := RegisterAll(Tables(st.registry, st.tracker), CleanList(ns, false), name, ns);
    st.(loaded := st.loaded[name := ns], registry := t.registry, tracker := t.tracker)
  }

  /** One iteration of the initial loading loop, which catches every failure. */
  function LoadOne(st: State, host: Host, p: Path): (r: State)
    requires StateValid(st)
    ensures StateValid(r)
  {
    var name := ModuleName(p);
    match host.exec(name, p)
    case NoLoader => st
    case Raised(detail, _) => st.(rejected := st.rejected + [(p, ImportErrorPrefix + detail)])
    case Executed(ns) => Install(st, name, ns)
  }

  function LoadAll(st: State, host: Host, ps: seq<Path>): (r: State)
    requires StateValid(st)
    ensures StateValid(r)
    decreases |ps|
  {
    if ps == [] then st else LoadOne(LoadAll(st, host, ps[..|ps| - 1]), host, ps[|ps| - 1])
  }

  /** The state once discovery has run on empty tables, from which both loading loops start. */
  function Discovered(host: Host, dirs: seq<Path>): (b: State)
    ensures StateValid(b)
  {
    var raw := RawModules(host, dirs);
    var d := Discover(host, dirs, raw);
    State(dirs, raw, d.0, map[], map[], d.1, map[])
  }

  /** `ProxyHandler()`: discovery, then loading with failure isolation. */
  function Init(host: Host, baseDir: Path): (r: State)
    ensures StateValid(r)
  {
    var b := Discovered(host, ValidDirs(host, baseDir));
    LoadAll(b, host, b.okmods)
  }

  /** One iteration of the full-reload loading loop, where an exception escapes. */
  function LoadOneStrict(st: State, host: Host, p: Path): (r: (State, Option<string>))
    requires StateValid(st)
    ensures StateValid(r.0)
  {
    var name := ModuleName(p);
    match host.exec(name, p)
    case NoLoader => (st, None)
    case Raised(detail, _) => (st, Some(detail))
    case Executed(ns) => (Install(st, name, ns), None)
  }

  /** The full-reload loading loop: the state reached and the exception that stopped it, if any. */
  function LoadAllStrict(st: State, host: Host, ps: seq<Path>): (r: (State, Option<string>))
    requires StateValid(st)
    ensures StateValid(r.0)
    decreases |ps|
  {
    if ps == [] then (st, None)
    else
      var r := LoadAllStrict(st, host, ps[..|ps| - 1]);
      if r.1.Some? then r else LoadOneStrict(r.0, host, ps[|ps| - 1])
  }

  function Summary(st: State): (r: string)
    ensures StartsWith(r, "Loaded " + NatToString(|st.registry|) + " tools from ")
    ensures EndsWith(r, NatToString(|st.loaded|) + " modules")
  {
    "Loaded " + NatToString(|st.registry|) + " tools from " + NatToString(|st.loaded|) + " modules"
  }

  /** `reload_all_modules()`: clear, rediscover, reload; an exception aborts the rebuild. */
  function ReloadAll(st: State, host: Host): (r: (State, Result<string, string>))
    ensures StateValid(r.0)
  {
    var b := Discovered(host, st.validDirs);
    var r := LoadAllStrict(b, host, b.okmods);
    (r.0, if r.1.Some? then Err(r.1.value) else Ok(Summary(r.0)))
  }

  // ---------------------------------------------------------------------
  // Dispatch and listing (black_orchid.py:162-172)
  // ---------------------------------------------------------------------

  /** The `KeyError` of `use_proxy_tool`, with the keys it lists. */
  datatype DispatchError = ToolNotFound(toolId: string, available: set<string>)

  /** The listing `list_tools()` returns: each key with its entry's docstring (black_orchid.py:170-172). */
  function Listing(registry: Registry): (r: map<string, Option<string>>)
    ensures r.Keys == registry.Keys
    ensures forall k :: k in r ==> r[k] == registry[k].docstring
  {
    map k | k in registry :: registry[k].docstring
  }

  /** The entries of a listing whose name contains `term`, ignoring case (black_orchid.py:399-404). */
  function Search(tools: map<string, Option<string>>, term: string): (r: map<string, Option<string>>)
    ensures forall k :: k in r <==> k in tools && ContainsIgnoringCase(k, term)
    ensures forall k :: k in r ==> r[k] == tools[k]
  {
    map k | k in tools && ContainsIgnoringCase(k, term) :: tools[k]
  }

  /** An empty search term matches every tool. */
  lemma SearchEmptyTermListsAll(tools: map<string, Option<string>>)
    ensures Search(tools, "") == tools
  {
    forall k | k in tools ensures ContainsIgnoringCase(k, "") {
      ContainsEmpty(Lower(k));
    }
  }

  /** A term that contains another (ignoring case) finds no more tools than the other. */
  lemma SearchNarrows(tools: map<string, Option<string>>, shorter: string, longer: string)
    requires ContainsIgnoringCase(longer, shorter)
    ensures Search(tools, longer).Keys <= Search(tools, shorter).Keys
  {
    forall k | k in Search(tools, longer) ensures ContainsIgnoringCase(k, shorter) {
      ContainsTransitive(Lower(k), Lower(longer), Lower(shorter));
    }
  }

  // ---------------------------------------------------------------------
  // Single-module reload (black_orchid.py:257-342)
  // ---------------------------------------------------------------------

  datatype ReloadResult =
    | NotLoaded(error: string)
    | ReloadFailed(error: string, note: string)
    | Reloaded(mod: string, toolsAdded: set<string>, toolsRemoved: set<string>, suggestion: Option<string>)
  {
    predicate Success() { Reloaded? }
  }

  const OldVersionNote := "Old version of module is still loaded"
  const ReloadSuggestion := "Consider reload_all() to rebuild collision detection"

  function NotLoadedMessage(mod: string): string
  {
    "Module '" + mod + "' not currently loaded"
  }

  function FailedMessage(mod: string): string
  {
    "Failed to reload '" + mod + "'"
  }

  /** The first root holding `<module>.py` (black_orchid.py:276-281). */
  function FindModuleFile(host: Host, dirs: seq<Path>, mod: string): (r: Option<Path>)
    ensures r.Some? ==> host.isPresent(r.value) && exists i :: 0 <= i < |dirs| && r.value == dirs[i] + [mod + ".py"]
    ensures r.None? ==> forall i :: 0 <= i < |dirs| ==> !host.isPresent(dirs[i] + [mod + ".py"])
  {
    if dirs == [] then None
    else if host.isPresent(dirs[0] + [mod + ".py"]) then Some(dirs[0] + [mod + ".py"])
    else
      var r := FindModuleFile(host, dirs[1..], mod);
      assert forall i :: 1 <= i < |dirs| ==> dirs[i] == dirs[1..][i - 1];
      r
  }

  /** The keys whose entry comes from `module`. */
  function ToolsOf(registry: Registry, mod: string): (r: set<string>)
    ensures r <= registry.Keys
    ensures forall k :: k in r <==> k in registry && registry[k].sourceModule == mod
  {
    set k | k in registry && registry[k].sourceModule == mod
  }

  function Failure(mod: string): ReloadResult
  {
    ReloadFailed(FailedMessage(mod), OldVersionNote)
  }

  /** The success path once the new bindings `ns` are in the module's namespace (black_orchid.py:294-330). */
  function Reinstall(st: State, mod: string, ns: Namespace): (r: (State, ReloadResult))
    requires StateValid(st)
    ensures StateValid(r.0)
  {
    var before := ToolsOf(st.registry, mod);
    var t := RegisterAll(Tables(st.registry - before, st.tracker), CleanList(ns, true), mod, ns);
    var after := ToolsOf(t.registry, mod);
    var added := after - before;
    var removed := before - after;
    (st.(loaded := st.loaded[mod := ns], registry := t.registry, tracker := t.tracker),
     Reloaded(mod, added, removed, if added != {} || removed != {} then Some(ReloadSuggestion) else None))
  }

  /** `reload_module(name)`. */
  function ReloadModule(st: State, host: Host, mod: string): (r: (State, ReloadResult))
    requires StateValid(st)
    ensures StateValid(r.0)
  {
    if mod !in st.loaded then (st, NotLoaded(NotLoadedMessage(mod)))
    else
      match FindModuleFile(host, st.validDirs, mod)
      case None => (st, Failure(mod))
      case Some(p) =>
        match host.exec(mod, p)
        case NoLoader => (st, Failure(mod))
        case Raised(_, partial) => (st.(loaded := st.loaded[mod := st.loaded[mod] + partial]), Failure(mod))
        case Executed(bindings) => Reinstall(st, mod, st.loaded[mod] + bindings)
  }

  // =====================================================================
  // Properties of registration
  // =====================================================================

  /** A name never seen before gets its bare key, no collision flag, and a one-claim history. */
  lemma FirstSighting(t: Tables, name: string, mod: string, fn: Binding)
    requires TrackerValid(t.tracker) && name !in t.tracker
    ensures Register(t, name, mod, fn).registry == t.registry[name := ToolEntry(fn, fn.doc, mod, name, false)]
    ensures Register(t, name, mod, fn).tracker == t.tracker[name := [Claim(mod, name)]]
  {
  }

  lemma SuffixInjective(name: string, m1: string, m2: string)
    requires m1 != m2
    ensures Suffixed(name, m1) != Suffixed(name, m2)
  {
    assert Suffixed(name, m1)[|name| + 1..] == m1;
    assert Suffixed(name, m2)[|name| + 1..] == m2;
  }

  lemma SuffixLonger(name: string, mod: string)
    ensures |Suffixed(name, mod)| > |name|
  {
  }

  /**
   * A repeat sighting: the first claimant's entry moves, unchanged but for
   * its flag, from the bare key to `name_<first module>` exactly when its
   * history still shows the bare key and that key is still in the registry;
   * the newcomer always lands at `name_<module>`, flagged, and its claim is
   * appended; no other key changes.
   */
  lemma RepeatSighting(t: Tables, name: string, mod: string, fn: Binding)
    requires TrackerValid(t.tracker) && name in t.tracker
    ensures var r := Register(t, name, mod, fn);
      var first := t.tracker[name][0];
      var rename := first.toolName == name && name in t.registry;
      && r.registry[Suffixed(name, mod)] == ToolEntry(fn, fn.doc, mod, name, true)
      && |r.tracker[name]| == |t.tracker[name]| + 1
      && r.tracker[name][|t.tracker[name]|] == Claim(mod, Suffixed(name, mod))
      && r.tracker[name][1..|t.tracker[name]|] == t.tracker[name][1..]
      && r.tracker[name][0] == (if rename then Claim(first.mod, Suffixed(name, first.mod)) else first)
      && (rename && mod != first.mod ==>
            name !in r.registry
            && r.registry[Suffixed(name, first.mod)] == t.registry[name].(hadCollision := true))
      && (forall k :: k != name && k != Suffixed(name, mod) && k != Suffixed(name, first.mod) ==>
            (k in r.registry <==> k in t.registry) && (k in t.registry ==> r.registry[k] == t.registry[k]))
      && (!rename ==> forall k :: k != Suffixed(name, mod) ==>
            (k in r.registry <==> k in t.registry) && (k in t.registry ==> r.registry[k] == t.registry[k]))
  {
    var first := t.tracker[name][0];
    SuffixLonger(name, mod);
    SuffixLonger(name, first.mod);
    if mod != first.mod {
      SuffixInjective(name, mod, first.mod);
    }
  }

  /** Two modules defining the same name: no bare key survives, both suffixed keys exist and are flagged. */
  lemma TwoModulesCollide(t: Tables, name: string, a: string, b: string, fa: Binding, fb: Binding)
    requires TrackerValid(t.tracker) && name !in t.tracker && a != b
    ensures var r := Register(Register(t, name, a, fa), name, b, fb);
      && name !in r.registry
      && r.registry[Suffixed(name, a)] == ToolEntry(fa, fa.doc, a, name, true)
      && r.registry[Suffixed(name, b)] == ToolEntry(fb, fb.doc, b, name, true)
      && r.tracker[name] == [Claim(a, Suffixed(name, a)), Claim(b, Suffixed(name, b))]
  {
    var t1 := Register(t, name, a, fa);
    assert t1.tracker[name] == [Claim(a, name)];
    SuffixInjective(name, a, b);
    SuffixLonger(name, a);
    SuffixLonger(name, b);
  }

  /** A third module then goes straight to its suffixed key and touches neither earlier key. */
  lemma ThirdModuleSuffixedDirectly(t: Tables, name: string, a: string, b: string, c: string,
                                    fa: Binding, fb: Binding, fc: Binding)
    requires TrackerValid(t.tracker) && name !in t.tracker && a != b && c != a && c != b
    ensures var t2 := Register(Register(t, name, a, fa), name, b, fb);
      var r := Register(t2, name, c, fc);
      && r.registry == t2.registry[Suffixed(name, c) := ToolEntry(fc, fc.doc, c, name, true)]
      && r.tracker[name] == t2.tracker[name] + [Claim(c, Suffixed(name, c))]
      && r.registry[Suffixed(name, a)] == t2.registry[Suffixed(name, a)]
      && r.registry[Suffixed(name, b)] == t2.registry[Suffixed(name, b)]
  {
    TwoModulesCollide(t, name, a, b, fa, fb);
    SuffixLonger(name, a);
    SuffixInjective(name, c, a);
    SuffixInjective(name, c, b);
  }

  /**
   * What a single-module reload leaves behind: the history still shows the
   * bare key but the entry under it was deleted, so no rename happens and
   * nothing is flagged retroactively; the newcomer is still suffixed.
   */
  lemma BareKeyGoneSkipsRename(t: Tables, name: string, mod: string, fn: Binding)
    requires TrackerValid(t.tracker) && name in t.tracker
    requires t.tracker[name][0].toolName == name && name !in t.registry
    ensures Register(t, name, mod, fn).registry == t.registry[Suffixed(name, mod) := ToolEntry(fn, fn.doc, mod, name, true)]
    ensures Register(t, name, mod, fn).tracker == t.tracker[name := t.tracker[name] + [Claim(mod, Suffixed(name, mod))]]
  {
  }

  /** The keys registering `names` for `mod` may write, given the history before. */
  function Touched(names: seq<string>, mod: string, tracker: Tracker): set<string>
    requires TrackerValid(tracker)
  {
    (set n | n in names)
    + (set n | n in names :: Suffixed(n, mod))
    + (set n | n in names && n in tracker :: Suffixed(n, tracker[n][0].mod))
  }

  predicate Distinct(s: seq<string>)
  {
    forall i, j :: 0 <= i < j < |s| ==> s[i] != s[j]
  }

  lemma SortedIsDistinct(s: seq<string>)
    requires StrictlySorted(s)
    ensures Distinct(s)
  {
    forall i, j | 0 <= i < j < |s| ensures s[i] != s[j] {
      if s[i] == s[j] { BelowIrreflexive(s[i]); }
    }
  }

  /**
   * The history of a name grows by exactly one claim per registration;
   * histories of other names are untouched; the first claimant's module
   * never changes.
   */
  lemma {:induction false} RegisterAllTracker(t: Tables, names: seq<string>, mod: string, ns: Namespace, x: string)
    requires TrackerValid(t.tracker)
    requires forall i :: 0 <= i < |names| ==> names[i] in ns
    requires Distinct(names)
    ensures var r := RegisterAll(t, names, mod, ns).tracker;
      && (x !in names ==> (x in r <==> x in t.tracker) && (x in t.tracker ==> r[x] == t.tracker[x]))
      && (x in names ==> x in r && |r[x]| == (if x in t.tracker then |t.tracker[x]| else 0) + 1)
      && (x in names && x in t.tracker ==> r[x][0].mod == t.tracker[x][0].mod)
      && (x in names && x !in t.tracker ==> r[x] == [Claim(mod, x)])
    decreases |names|
  {
    if names != [] {
      var init := names[..|names| - 1];
      var n := names[|names| - 1];
      assert Distinct(init);
      assert forall i :: 0 <= i < |init| ==> init[i] in ns;
      RegisterAllTracker(t, init, mod, ns, x);
      RegisterTracker(RegisterAll(t, init, mod, ns), n, mod, ns[n], x);
      assert x in names <==> x in init || x == n;
      if x == n {
        assert n !in init;
      }
    }
  }

  /** What one registration does to the history of a name `x`. */
  lemma RegisterTracker(t: Tables, name: string, mod: string, fn: Binding, x: string)
    requires TrackerValid(t.tracker)
    ensures var r := Register(t, name, mod, fn).tracker;
      && (x != name ==> (x in r <==> x in t.tracker) && (x in t.tracker ==> r[x] == t.tracker[x]))
      && (x == name ==> x in r && |r[x]| == (if x in t.tracker then |t.tracker[x]| else 0) + 1)
      && (x == name && x in t.tracker ==> r[x][0].mod == t.tracker[x][0].mod)
      && (x == name && x !in t.tracker ==> r[x] == [Claim(mod, x)])
  {
  }

  /** Registering `names` changes the registry at touched keys only. */
  lemma {:induction false} RegisterAllFrame(t: Tables, names: seq<string>, mod: string, ns: Namespace, k: string)
    requires TrackerValid(t.tracker)
    requires forall i :: 0 <= i < |names| ==> names[i] in ns
    requires Distinct(names)
    requires k !in Touched(names, mod, t.tracker)
    ensures var r := RegisterAll(t, names, mod, ns).registry;
      (k in r <==> k in t.registry) && (k in t.registry ==> r[k] == t.registry[k])
    decreases |names|
  {
    if names != [] {
      var init := names[..|names| - 1];
      var n := names[|names| - 1];
      assert Distinct(init);
      assert forall i :: 0 <= i < |init| ==> init[i] in ns;
      assert Touched(init, mod, t.tracker) <= Touched(names, mod, t.tracker);
      RegisterAllFrame(t, init, mod, ns, k);
      var mid := RegisterAll(t, init, mod, ns);
      assert n !in init;
      RegisterAllTracker(t, init, mod, ns, n);
      assert k != n && k != Suffixed(n, mod);
      if n in mid.tracker {
        assert n in t.tracker;
        assert k != Suffixed(n, mid.tracker[n][0].mod);
      }
    }
  }

  /** The keys one registration of `n` for `mod` may write or delete, given the history before. */
  function Reach(n: string, mod: string, tracker: Tracker): (keys: set<string>)
    requires TrackerValid(tracker)
    ensures n in keys && Suffixed(n, mod) in keys
    ensures n in tracker ==> Suffixed(n, tracker[n][0].mod) in keys
  {
    {n, Suffixed(n, mod)} + (if n in tracker then {Suffixed(n, tracker[n][0].mod)} else {})
  }

  /** A registration leaves every key it cannot reach as it was. */
  lemma RegisterFrame(t: Tables, name: string, mod: string, fn: Binding, k: string)
    requires TrackerValid(t.tracker) && k !in Reach(name, mod, t.tracker)
    ensures var r := Register(t, name, mod, fn).registry;
      (k in r <==> k in t.registry) && (k in t.registry ==> r[k] == t.registry[k])
  {
  }

  /**
   * A key that is absent stays absent while no other name reaches it; the
   * name equal to it, being known to the tracker, is re-registered under its
   * suffixed key only.
   */
  lemma {:induction false} RegisterAllAbsent(t: Tables, names: seq<string>, mod: string, ns: Namespace, k: string)
    requires TrackerValid(t.tracker)
    requires forall i :: 0 <= i < |names| ==> names[i] in ns
    requires Distinct(names)
    requires k !in t.registry
    requires forall i :: 0 <= i < |names| ==> (names[i] == k && k in t.tracker) || k !in Reach(names[i], mod, t.tracker)
    ensures k !in RegisterAll(t, names, mod, ns).registry
    decreases |names|
  {
    if names != [] {
      var init := names[..|names| - 1];
      var n := names[|names| - 1];
      assert Distinct(init);
      assert forall i :: 0 <= i < |init| ==> init[i] in ns;
      assert forall i :: 0 <= i < |init| ==> init[i] == names[i];
      RegisterAllAbsent(t, init, mod, ns, k);
      var mid := RegisterAll(t, init, mod, ns);
      assert n !in init;
      RegisterAllTracker(t, init, mod, ns, n);
      if n == k {
        SuffixLonger(k, mod);
        assert Register(mid, n, mod, ns[n]).registry == mid.registry[Suffixed(k, mod) := EntryFor(ns[n], mod, k, true)];
      } else {
        assert Reach(n, mod, mid.tracker) == Reach(n, mod, t.tracker);
        RegisterFrame(mid, n, mod, ns[n], k);
      }
    }
  }

  /**
   * Re-registering a name the tracker knows puts its new entry under
   * `name_<mod>`, flagged as collided, provided the bare first claim is not
   * renamed at that moment and no other name reaches those keys.
   */
  lemma {:induction false} RegisterAllOwnSuffix(t: Tables, names: seq<string>, mod: string, ns: Namespace, x: string)
    requires TrackerValid(t.tracker)
    requires forall i :: 0 <= i < |names| ==> names[i] in ns
    requires Distinct(names)
    requires x in names && x in t.tracker
    requires t.tracker[x][0].toolName != x
      || (x !in t.registry && forall i :: 0 <= i < |names| && names[i] != x ==> x !in Reach(names[i], mod, t.tracker))
    requires forall i :: 0 <= i < |names| && names[i] != x ==> Suffixed(x, mod) !in Reach(names[i], mod, t.tracker)
    ensures var r := RegisterAll(t, names, mod, ns).registry;
      Suffixed(x, mod) in r && r[Suffixed(x, mod)] == ToolEntry(ns[x], ns[x].doc, mod, x, true)
    decreases |names|
  {
    var init := names[..|names| - 1];
    var n := names[|names| - 1];
    assert Distinct(init);
    assert forall i :: 0 <= i < |init| ==> init[i] in ns;
    assert forall i :: 0 <= i < |init| ==> init[i] == names[i];
    var mid := RegisterAll(t, init, mod, ns);
    assert n !in init;
    RegisterAllTracker(t, init, mod, ns, n);
    if n == x {
      if t.tracker[x][0].toolName == x {
        RegisterAllAbsent(t, init, mod, ns, x);
      }
      assert Register(mid, x, mod, ns[x]).registry == mid.registry[Suffixed(x, mod) := EntryFor(ns[x], mod, x, true)];
    } else {
      assert x in init;
      RegisterAllOwnSuffix(t, init, mod, ns, x);
      assert Reach(n, mod, mid.tracker) == Reach(n, mod, t.tracker);
      RegisterFrame(mid, n, mod, ns[n], Suffixed(x, mod));
    }
  }

  // =====================================================================
  // Properties of discovery
  // =====================================================================

  /** Every globbed path gets exactly one outcome: accepted, rejected, or skipped. */
  lemma {:induction false} DiscoverPartition(host: Host, dirs: seq<Path>, raws: seq<Path>)
    ensures var d := Discover(host, dirs, raws);
      |d.0| + |d.1| + CountSkipped(host, dirs, raws) == |raws|
    decreases |raws|
  {
    if raws != [] {
      DiscoverPartition(host, dirs, raws[..|raws| - 1]);
    }
  }

  /** What an accepted path satisfies. */
  predicate AcceptedFrom(host: Host, dirs: seq<Path>, raws: seq<Path>, p: Path)
  {
    && UnderSomeDir(p, dirs) && ModuleName(p) != ReservedStem && host.syntax(p) == Parsed
    && exists q :: q in raws && p == host.resolve(q)
  }

  /** What a rejection record satisfies. */
  predicate RejectedFrom(host: Host, dirs: seq<Path>, raws: seq<Path>, record: (Path, string))
  {
    && record.0 in raws
    && ((record.1 == PathTraversal && !UnderSomeDir(host.resolve(record.0), dirs))
        || record.1 == SyntaxErrorReason
        || StartsWith(record.1, ReadErrorPrefix))
  }

  /**
   * Every accepted path is the resolution of a globbed path, lies under some
   * root, is not the reserved `toolset` module, and passed the syntax check.
   */
  lemma {:induction false} DiscoverAccepted(host: Host, dirs: seq<Path>, raws: seq<Path>)
    ensures forall p :: p in Discover(host, dirs, raws).0 ==> AcceptedFrom(host, dirs, raws, p)
    decreases |raws|
  {
    if raws != [] {
      var init := raws[..|raws| - 1];
      var raw := raws[|raws| - 1];
      DiscoverAccepted(host, dirs, init);
      var ok0 := Discover(host, dirs, init).0;
      var ok := Discover(host, dirs, raws).0;
      var c := Classify(host, dirs, raw);
      assert ok == (if c.Accepted? then ok0 + [c.path] else ok0);
      forall p | p in ok ensures AcceptedFrom(host, dirs, raws, p) {
        if p in ok0 {
          assert AcceptedFrom(host, dirs, init, p);
          var q :| q in init && p == host.resolve(q);
          assert q in raws;
        } else {
          assert p == host.resolve(raw);
          assert raw in raws;
        }
      }
    }
  }

  /** Every rejection names a globbed path and carries one of the three reasons. */
  lemma {:induction false} DiscoverRejected(host: Host, dirs: seq<Path>, raws: seq<Path>)
    ensures forall rec :: rec in Discover(host, dirs, raws).1 ==> RejectedFrom(host, dirs, raws, rec)
    decreases |raws|
  {
    if raws != [] {
      var init := raws[..|raws| - 1];
      var raw := raws[|raws| - 1];
      DiscoverRejected(host, dirs, init);
      var rej0 := Discover(host, dirs, init).1;
      var rej := Discover(host, dirs, raws).1;
      var c := Classify(host, dirs, raw);
      assert rej == (if c.Rejected? then rej0 + [(raw, c.reason)] else rej0);
      forall rec | rec in rej ensures RejectedFrom(host, dirs, raws, rec) {
        if rec in rej0 {
          assert RejectedFrom(host, dirs, init, rec);
          assert rec.0 in raws;
        } else {
          assert rec == (raw, c.reason);
          assert raw in raws;
          match host.syntax(host.resolve(raw))
          case ReadFailure(e) =>
            assert (ReadErrorPrefix + e)[..|ReadErrorPrefix|] == ReadErrorPrefix;
          case _ =>
        }
      }
    }
  }

  /** A path is rejected for traversal exactly when it resolves outside every root. */
  lemma ClassifyTraversal(host: Host, dirs: seq<Path>, raw: Path)
    ensures Classify(host, dirs, raw) == Rejected(PathTraversal) <==> !UnderSomeDir(host.resolve(raw), dirs)
  {
    match host.syntax(host.resolve(raw))
    case ReadFailure(e) =>
      assert (ReadErrorPrefix + e)[0] == 'r';
    case _ =>
  }

  // =====================================================================
  // Properties of loading
  // =====================================================================

  predicate Raises(host: Host, p: Path)
  {
    host.exec(ModuleName(p), p).Raised?
  }

  predicate NoneRaises(host: Host, ps: seq<Path>)
  {
    forall i :: 0 <= i < |ps| ==> !Raises(host, ps[i])
  }

  lemma NoneRaisesPrefix(host: Host, ps: seq<Path>, n: nat)
    requires NoneRaises(host, ps) && n <= |ps|
    ensures NoneRaises(host, ps[..n])
  {
    forall i | 0 <= i < n ensures !Raises(host, ps[..n][i]) {
      assert ps[..n][i] == ps[i];
    }
  }

  /** Everything but the rejection log. */
  function Core(st: State): (seq<Path>, seq<Path>, seq<Path>, Registry, Tracker, map<string, Namespace>)
  {
    (st.validDirs, st.rawModules, st.okmods, st.registry, st.tracker, st.loaded)
  }

  lemma {:induction false} LoadAllCore(st1: State, st2: State, host: Host, ps: seq<Path>)
    requires StateValid(st1) && StateValid(st2) && Core(st1) == Core(st2)
    ensures Core(LoadAll(st1, host, ps)) == Core(LoadAll(st2, host, ps))
    decreases |ps|
  {
    if ps != [] {
      LoadAllCore(st1, st2, host, ps[..|ps| - 1]);
    }
  }

  lemma {:induction false} LoadAllKeepsRoots(st: State, host: Host, ps: seq<Path>)
    requires StateValid(st)
    ensures var r := LoadAll(st, host, ps);
      r.validDirs == st.validDirs && r.rawModules == st.rawModules && r.okmods == st.okmods
    decreases |ps|
  {
    if ps != [] {
      LoadAllKeepsRoots(st, host, ps[..|ps| - 1]);
    }
  }

  lemma {:induction false} LoadAllAppend(st: State, host: Host, ps: seq<Path>, qs: seq<Path>)
    requires StateValid(st)
    ensures LoadAll(st, host, ps + qs) == LoadAll(LoadAll(st, host, ps), host, qs)
    decreases |qs|
  {
    if qs == [] {
      assert ps + qs == ps;
    } else {
      assert (ps + qs)[..|ps + qs| - 1] == ps + qs[..|qs| - 1];
      LoadAllAppend(st, host, ps, qs[..|qs| - 1]);
    }
  }

  lemma {:induction false} LoadAllLogGrows(st: State, host: Host, ps: seq<Path>)
    requires StateValid(st)
    ensures |st.rejected| <= |LoadAll(st, host, ps).rejected|
    ensures LoadAll(st, host, ps).rejected[..|st.rejected|] == st.rejected
    decreases |ps|
  {
    if ps != [] {
      var mid := LoadAll(st, host, ps[..|ps| - 1]);
      LoadAllLogGrows(st, host, ps[..|ps| - 1]);
      LoadOneLogGrows(mid, host, ps[|ps| - 1]);
      var fin := LoadAll(st, host, ps).rejected;
      assert fin == LoadOne(mid, host, ps[|ps| - 1]).rejected;
      assert fin[..|st.rejected|] == fin[..|mid.rejected|][..|st.rejected|];
    }
  }

  lemma LoadOneLogGrows(st: State, host: Host, p: Path)
    requires StateValid(st)
    ensures |st.rejected| <= |LoadOne(st, host, p).rejected|
    ensures LoadOne(st, host, p).rejected[..|st.rejected|] == st.rejected
  {
    match host.exec(ModuleName(p), p)
    case NoLoader =>
    case Raised(detail, _) =>
      var log := st.rejected + [(p, ImportErrorPrefix + detail)];
      assert log[..|st.rejected|] == st.rejected;
    case Executed(ns) =>
      assert Install(st, ModuleName(p), ns).rejected == st.rejected;
  }

  /**
   * Failure isolation of the initial load: a module whose execution raises
   * is logged as `import_error: ...`, and every other module loads exactly as
   * if the failing one were not there.
   */
  lemma FailingModuleIsolated(st: State, host: Host, ps: seq<Path>, p: Path, qs: seq<Path>, detail: string, partial: Namespace)
    requires StateValid(st)
    requires host.exec(ModuleName(p), p) == Raised(detail, partial)
    ensures Core(LoadAll(st, host, ps + [p] + qs)) == Core(LoadAll(st, host, ps + qs))
    ensures (p, ImportErrorPrefix + detail) in LoadAll(st, host, ps + [p] + qs).rejected
  {
    LoadAllAppend(st, host, ps + [p], qs);
    LoadAllAppend(st, host, ps, [p]);
    LoadAllAppend(st, host, ps, qs);
    var a := LoadAll(st, host, ps);
    assert LoadAll(a, host, [p]) == LoadOne(LoadAll(a, host, []), host, p);
    var b := LoadAll(a, host, [p]);
    assert b == a.(rejected := a.rejected + [(p, ImportErrorPrefix + detail)]);
    LoadAllCore(b, a, host, qs);
    LoadAllLogGrows(b, host, qs);
    var fin := LoadAll(b, host, qs);
    assert fin.rejected[|a.rejected|] == b.rejected[|a.rejected|];
  }

  lemma {:induction false} NoRaiseKeepsLog(st: State, host: Host, ps: seq<Path>)
    requires StateValid(st) && NoneRaises(host, ps)
    ensures LoadAll(st, host, ps).rejected == st.rejected
    decreases |ps|
  {
    if ps != [] {
      NoneRaisesPrefix(host, ps, |ps| - 1);
      NoRaiseKeepsLog(st, host, ps[..|ps| - 1]);
      assert !Raises(host, ps[|ps| - 1]);
    }
  }

  /** With no module raising, the strict loop of full reload does what the initial loop does. */
  lemma {:induction false} StrictMatchesLenient(st: State, host: Host, ps: seq<Path>)
    requires StateValid(st) && NoneRaises(host, ps)
    ensures LoadAllStrict(st, host, ps) == (LoadAll(st, host, ps), None)
    decreases |ps|
  {
    if ps != [] {
      NoneRaisesPrefix(host, ps, |ps| - 1);
      StrictMatchesLenient(st, host, ps[..|ps| - 1]);
      assert !Raises(host, ps[|ps| - 1]);
    }
  }

  /** The strict loop never writes the rejection log. */
  lemma {:induction false} StrictKeepsLog(st: State, host: Host, ps: seq<Path>)
    requires StateValid(st)
    ensures LoadAllStrict(st, host, ps).0.rejected == st.rejected
    decreases |ps|
  {
    if ps != [] {
      StrictKeepsLog(st, host, ps[..|ps| - 1]);
    }
  }

  lemma OneStrictRaises(st: State, host: Host, p: Path)
    requires StateValid(st) && Raises(host, p)
    ensures LoadOneStrict(st, host, p) == (st, Some(host.exec(ModuleName(p), p).detail))
  {
  }

  lemma LoadStep(st: State, host: Host, ps: seq<Path>)
    requires StateValid(st) && ps != []
    ensures LoadAll(st, host, ps) == LoadOne(LoadAll(st, host, ps[..|ps| - 1]), host, ps[|ps| - 1])
  {
  }

  lemma StrictStep(st: State, host: Host, ps: seq<Path>)
    requires StateValid(st) && ps != []
    requires LoadAllStrict(st, host, ps[..|ps| - 1]).1.None?
    ensures LoadAllStrict(st, host, ps) == LoadOneStrict(LoadAllStrict(st, host, ps[..|ps| - 1]).0, host, ps[|ps| - 1])
  {
  }

  lemma StrictStepRaises(st: State, host: Host, ps: seq<Path>)
    requires StateValid(st) && ps != [] && Raises(host, ps[|ps| - 1])
    requires LoadAllStrict(st, host, ps[..|ps| - 1]).1.None?
    ensures LoadAllStrict(st, host, ps).1 == Some(host.exec(ModuleName(ps[|ps| - 1]), ps[|ps| - 1]).detail)
  {
    StrictStep(st, host, ps);
    OneStrictRaises(LoadAllStrict(st, host, ps[..|ps| - 1]).0, host, ps[|ps| - 1]);
  }

  lemma StrictStepStopped(st: State, host: Host, ps: seq<Path>)
    requires StateValid(st) && ps != []
    requires LoadAllStrict(st, host, ps[..|ps| - 1]).1.Some?
    ensures LoadAllStrict(st, host, ps) == LoadAllStrict(st, host, ps[..|ps| - 1])
  {
  }

  /** Once the strict loop has stopped, the remaining modules change nothing. */
  lemma {:induction false} StrictStoppedStays(st: State, host: Host, ps: seq<Path>, n: nat)
    requires StateValid(st) && 0 < n <= |ps|
    requires LoadAllStrict(st, host, ps[..n]).1.Some?
    ensures LoadAllStrict(st, host, ps) == LoadAllStrict(st, host, ps[..n])
    decreases |ps|
  {
    if n == |ps| {
      assert ps[..n] == ps;
    } else {
      var init := ps[..|ps| - 1];
      assert init[..n] == ps[..n];
      StrictStoppedStays(st, host, init, n);
      StrictStepStopped(st, host, ps);
    }
  }

  /** With a raising module, the strict loop stops with the exception of the first one that raises. */
  lemma {:induction false} StrictStopsAtFirstRaise(st: State, host: Host, ps: seq<Path>)
    requires StateValid(st) && !NoneRaises(host, ps)
    ensures LoadAllStrict(st, host, ps).1.Some?
    ensures exists i :: 0 <= i < |ps| && FirstRaiseAt(host, ps, i) && LoadAllStrict(st, host, ps).1 == Some(host.exec(ModuleName(ps[i]), ps[i]).detail)
    decreases |ps|
  {
    var init := ps[..|ps| - 1];
    if NoneRaises(host, init) {
      StrictMatchesLenient(st, host, init);
      LastRaises(host, ps);
      StrictStepRaises(st, host, ps);
      assert FirstRaiseAt(host, ps, |ps| - 1);
    } else {
      StrictStopsAtFirstRaise(st, host, init);
      StrictStepStopped(st, host, ps);
      var i :| 0 <= i < |init| && FirstRaiseAt(host, init, i) && LoadAllStrict(st, host, init).1 == Some(host.exec(ModuleName(init[i]), init[i]).detail);
      FirstRaiseExtends(host, ps, i);
    }
  }

  lemma LastRaises(host: Host, ps: seq<Path>)
    requires !NoneRaises(host, ps) && NoneRaises(host, ps[..|ps| - 1])
    ensures Raises(host, ps[|ps| - 1])
  {
    var init := ps[..|ps| - 1];
    forall j | 0 <= j < |ps| - 1 ensures !Raises(host, ps[j]) {
      assert ps[j] == init[j];
    }
    var i :| 0 <= i < |ps| && Raises(host, ps[i]);
    assert i == |ps| - 1;
  }

  lemma FirstRaiseExtends(host: Host, ps: seq<Path>, i: nat)
    requires 0 <= i < |ps| - 1 && FirstRaiseAt(host, ps[..|ps| - 1], i)
    ensures FirstRaiseAt(host, ps, i) && ps[..|ps| - 1][i] == ps[i]
  {
    assert ps[..|ps| - 1][..i] == ps[..i];
  }

  /** `ps[i]` raises and no module before it does. */
  predicate FirstRaiseAt(host: Host, ps: seq<Path>, i: nat)
    requires i < |ps|
  {
    Raises(host, ps[i]) && NoneRaises(host, ps[..i])
  }

  // =====================================================================
  // Properties of full reload
  // =====================================================================

  /** Full reload keeps no history: its outcome depends on the roots and the host only. */
  lemma ReloadAllForgets(st1: State, st2: State, host: Host)
    requires st1.validDirs == st2.validDirs
    ensures ReloadAll(st1, host) == ReloadAll(st2, host)
  {
  }

  /**
   * Reloading everything on an unchanged host, where no module raises,
   * rebuilds exactly the state the constructor built and reports its counts.
   */
  lemma ReloadAllRebuildsInit(host: Host, baseDir: Path)
    requires var dirs := ValidDirs(host, baseDir);
      NoneRaises(host, Discover(host, dirs, RawModules(host, dirs)).0)
    ensures var st := Init(host, baseDir);
      var r := ReloadAll(st, host);
      r.0 == st && r.1 == Ok(Summary(st))
  {
    var dirs := ValidDirs(host, baseDir);
    var raw := RawModules(host, dirs);
    var d := Discover(host, dirs, raw);
    var base := State(dirs, raw, d.0, map[], map[], d.1, map[]);
    assert Init(host, baseDir) == LoadAll(base, host, d.0);
    LoadAllKeepsRoots(base, host, d.0);
    StrictMatchesLenient(base, host, d.0);
  }

  /**
   * Full reload does not isolate failures: if an accepted module raises, the
   * result is the exception of the first one that does, modules after it are
   * not loaded, and no `import_error` is logged.
   */
  lemma ReloadAllAborts(st: State, host: Host)
    requires var dirs := st.validDirs;
      !NoneRaises(host, Discover(host, dirs, RawModules(host, dirs)).0)
    ensures var d := Discover(host, st.validDirs, RawModules(host, st.validDirs));
      var r := ReloadAll(st, host);
      && r.1.Err? && r.0.rejected == d.1
      && exists i :: 0 <= i < |d.0| && FirstRaiseAt(host, d.0, i) && r.1.error == host.exec(ModuleName(d.0[i]), d.0[i]).detail
  {
    var dirs := st.validDirs;
    var raw := RawModules(host, dirs);
    var d := Discover(host, dirs, raw);
    var base := State(dirs, raw, d.0, map[], map[], d.1, map[]);
    StrictStopsAtFirstRaise(base, host, d.0);
    StrictKeepsLog(base, host, d.0);
  }

  // =====================================================================
  // Properties of single-module reload
  // =====================================================================

  /** Reloading a module that is not loaded changes nothing and says so. */
  lemma ReloadUnknownModule(st: State, host: Host, mod: string)
    requires StateValid(st) && mod !in st.loaded
    ensures ReloadModule(st, host, mod) == (st, NotLoaded("Module '" + mod + "' not currently loaded"))
  {
  }

  /**
   * Failure isolation of single-module reload: when the file is missing, no
   * loader exists, or execution raises, registry, history, roots and log are
   * unchanged; only the module's namespace takes the bindings made before
   * the exception.
   */
  lemma ReloadFailureKeepsRegistry(st: State, host: Host, mod: string)
    requires StateValid(st) && mod in st.loaded
    requires var f := FindModuleFile(host, st.validDirs, mod);
      f.None? || !host.exec(mod, f.value).Executed?
    ensures var r := ReloadModule(st, host, mod);
      && r.1 == ReloadFailed("Failed to reload '" + mod + "'", "Old version of module is still loaded")
      && r.0.registry == st.registry && r.0.tracker == st.tracker
      && r.0.rejected == st.rejected && r.0.okmods == st.okmods && r.0.validDirs == st.validDirs
      && r.0.loaded.Keys == st.loaded.Keys
      && (forall m :: m in st.loaded && m != mod ==> r.0.loaded[m] == st.loaded[m])
      && (forall x :: x in st.loaded[mod] ==> x in r.0.loaded[mod])
  {
  }

  /**
   * The success path reports as added exactly the keys of this module that
   * are new and as removed exactly those that are gone, suggests a full
   * reload iff either is non-empty, leaves every entry of another module
   * alone unless its key is one the re-registration may write, and only
   * lengthens histories.
   */
  lemma ReinstallSound(st: State, mod: string, ns: Namespace)
    requires StateValid(st)
    ensures var r := Reinstall(st, mod, ns);
      && r.1.Reloaded? && r.1.mod == mod && r.0.loaded == st.loaded[mod := ns]
      && r.1.toolsAdded == ToolsOf(r.0.registry, mod) - ToolsOf(st.registry, mod)
      && r.1.toolsRemoved == ToolsOf(st.registry, mod) - ToolsOf(r.0.registry, mod)
      && (r.1.suggestion.Some? <==> r.1.toolsAdded != {} || r.1.toolsRemoved != {})
      && (forall k :: (k in st.registry && st.registry[k].sourceModule != mod
            && k !in Touched(CleanList(ns, true), mod, st.tracker)) ==>
              k in r.0.registry && r.0.registry[k] == st.registry[k])
      && (forall x :: x in st.tracker ==> x in r.0.tracker && |st.tracker[x]| <= |r.0.tracker[x]|)
  {
    var names := CleanList(ns, true);
    var before := ToolsOf(st.registry, mod);
    var t0 := Tables(st.registry - before, st.tracker);
    var t := RegisterAll(t0, names, mod, ns);
    assert Reinstall(st, mod, ns).0.registry == t.registry;
    assert Reinstall(st, mod, ns).0.tracker == t.tracker;
    SortedIsDistinct(names);
    forall k | k in st.registry && st.registry[k].sourceModule != mod && k !in Touched(names, mod, st.tracker)
      ensures k in t.registry && t.registry[k] == st.registry[k]
    {
      RegisterAllFrame(t0, names, mod, ns, k);
    }
    forall x | x in st.tracker ensures x in t.tracker && |st.tracker[x]| <= |t.tracker[x]| {
      RegisterAllTracker(t0, names, mod, ns, x);
    }
  }

  /**
   * Re-installing a module whose bare key `x` it held alone: afterwards the
   * bare key is gone and the entry sits under `x_<module>`, flagged as
   * collided, so the report lists `x` as removed and `x_<module>` as added.
   */
  lemma ReinstallRenamesBareKey(st: State, mod: string, ns: Namespace, x: string)
    requires StateValid(st)
    requires x in CleanList(ns, true) && x in st.tracker
    requires x in ToolsOf(st.registry, mod) && Suffixed(x, mod) !in ToolsOf(st.registry, mod)
    requires forall n :: n in CleanList(ns, true) && n != x ==>
      x !in Reach(n, mod, st.tracker) && Suffixed(x, mod) !in Reach(n, mod, st.tracker)
    ensures var r := Reinstall(st, mod, ns);
      x !in r.0.registry
      && Suffixed(x, mod) in r.0.registry
      && r.0.registry[Suffixed(x, mod)] == ToolEntry(ns[x], ns[x].doc, mod, x, true)
      && r.1.Reloaded? && x in r.1.toolsRemoved && Suffixed(x, mod) in r.1.toolsAdded
      && r.1.suggestion == Some(ReloadSuggestion)
  {
    var names := CleanList(ns, true);
    var t0 := Tables(st.registry - ToolsOf(st.registry, mod), st.tracker);
    SortedIsDistinct(names);
    assert forall i :: 0 <= i < |names| ==> names[i] in ns;
    RegisterAllOwnSuffix(t0, names, mod, ns, x);
    RegisterAllAbsent(t0, names, mod, ns, x);
  }

  /**
   * Re-installing a module whose `x` was already kept as `x_<module>`: the
   * suffixed key stays, with the new binding, and the report lists it
   * neither as added nor as removed.
   */
  lemma ReinstallKeepsSuffixedKey(st: State, mod: string, ns: Namespace, x: string)
    requires StateValid(st)
    requires x in CleanList(ns, true) && x in st.tracker && st.tracker[x][0].toolName != x
    requires Suffixed(x, mod) in ToolsOf(st.registry, mod)
    requires forall n :: n in CleanList(ns, true) && n != x ==> Suffixed(x, mod) !in Reach(n, mod, st.tracker)
    ensures var r := Reinstall(st, mod, ns);
      Suffixed(x, mod) in r.0.registry
      && r.0.registry[Suffixed(x, mod)] == ToolEntry(ns[x], ns[x].doc, mod, x, true)
      && r.1.Reloaded? && Suffixed(x, mod) !in r.1.toolsAdded && Suffixed(x, mod) !in r.1.toolsRemoved
  {
    var names := CleanList(ns, true);
    var t0 := Tables(st.registry - ToolsOf(st.registry, mod), st.tracker);
    SortedIsDistinct(names);
    assert forall i :: 0 <= i < |names| ==> names[i] in ns;
    RegisterAllOwnSuffix(t0, names, mod, ns, x);
  }

  /** A successful single-module reload takes the success path on the merged namespace. */
  lemma ReloadSuccess(st: State, host: Host, mod: string)
    requires StateValid(st) && mod in st.loaded
    requires var f := FindModuleFile(host, st.validDirs, mod);
      f.Some? && host.exec(mod, f.value).Executed?
    ensures var f := FindModuleFile(host, st.validDirs, mod).value;
      ReloadModule(st, host, mod) == Reinstall(st, mod, st.loaded[mod] + host.exec(mod, f).bindings)
  {
  }

  /**
   * A successful `reload_module` of a module that alone defined `x` under its
   * bare key renames it: `x` disappears and `x_<module>` appears, flagged as
   * collided, and the report says so and suggests a full reload.
   */
  lemma ReloadRenamesUniqueName(st: State, host: Host, mod: string, x: string)
    requires StateValid(st) && mod in st.loaded
    requires var f := FindModuleFile(host, st.validDirs, mod);
      f.Some? && host.exec(mod, f.value).Executed?
    requires x in st.tracker
    requires x in ToolsOf(st.registry, mod) && Suffixed(x, mod) !in ToolsOf(st.registry, mod)
    requires var ns := st.loaded[mod] + host.exec(mod, FindModuleFile(host, st.validDirs, mod).value).bindings;
      x in CleanList(ns, true)
      && forall n :: n in CleanList(ns, true) && n != x ==>
        x !in Reach(n, mod, st.tracker) && Suffixed(x, mod) !in Reach(n, mod, st.tracker)
    ensures var r := ReloadModule(st, host, mod);
      x !in r.0.registry
      && Suffixed(x, mod) in r.0.registry
      && r.0.registry[Suffixed(x, mod)].sourceModule == mod
      && r.0.registry[Suffixed(x, mod)].hadCollision
      && r.1.Reloaded? && x in r.1.toolsRemoved && Suffixed(x, mod) in r.1.toolsAdded
      && r.1.suggestion == Some(ReloadSuggestion)
  {
    var ns := st.loaded[mod] + host.exec(mod, FindModuleFile(host, st.validDirs, mod).value).bindings;
    ReloadSuccess(st, host, mod);
    ReinstallRenamesBareKey(st, mod, ns, x);
  }

  /** A second successful reload leaves an already suffixed `x_<module>` where it is, unreported. */
  lemma ReloadKeepsSuffixedName(st: State, host: Host, mod: string, x: string)
    requires StateValid(st) && mod in st.loaded
    requires var f := FindModuleFile(host, st.validDirs, mod);
      f.Some? && host.exec(mod, f.value).Executed?
    requires x in st.tracker && st.tracker[x][0].toolName != x
    requires Suffixed(x, mod) in ToolsOf(st.registry, mod)
    requires var ns := st.loaded[mod] + host.exec(mod, FindModuleFile(host, st.validDirs, mod).value).bindings;
      x in CleanList(ns, true)
      && forall n :: n in CleanList(ns, true) && n != x ==> Suffixed(x, mod) !in Reach(n, mod, st.tracker)
    ensures var r := ReloadModule(st, host, mod);
      Suffixed(x, mod) in r.0.registry
      && r.0.registry[Suffixed(x, mod)].sourceModule == mod
      && r.0.registry[Suffixed(x, mod)].hadCollision
      && r.1.Reloaded? && Suffixed(x, mod) !in r.1.toolsAdded && Suffixed(x, mod) !in r.1.toolsRemoved
  {
    var ns := st.loaded[mod] + host.exec(mod, FindModuleFile(host, st.validDirs, mod).value).bindings;
    ReloadSuccess(st, host, mod);
    ReinstallKeepsSuffixedKey(st, mod, ns, x);
  }
}
