/**
 * The proxy host's `ProxyHandler`: an object whose attributes the
 * constructor, `_register_tool`, `reload_all_modules` and `reload_module`
 * update in place. Every method is proved to leave the object in the state
 * the matching function of `RegistryModel` computes from the state before.
 */
module BlackOrchid {
  import opened Wrappers
  import opened Strings
  import opened RegistryModel

  class ProxyHandler {
    var validDirs: seq<Path>
    var rawModules: seq<Path>
    var okmods: seq<Path>
    var registry: Registry
    var nameTracker: Tracker
    var rejectedModules: seq<(Path, string)>
    var loadedMods: map<string, Namespace>

    /** All attributes, as a value. */
    function Snapshot(): State
      reads this
    {
      State(validDirs, rawModules, okmods, registry, nameTracker, rejectedModules, loadedMods)
    }

    function Tabs(): Tables
      reads this
    {
      Tables(registry, nameTracker)
    }

    /** Every tracked name has a non-empty history. */
    ghost predicate Valid()
      reads this
    {
      TrackerValid(nameTracker)
    }

    /** `ProxyHandler()` for a host directory `baseDir` (black_orchid.py:26-114). */
    constructor (host: Host, baseDir: Path)
      ensures Valid()
      ensures Snapshot() == Init(host, baseDir)
    {
      var dirs := [host.resolve(baseDir + ["modules"])];
      var privateDir := baseDir + ["private", "modules"];
      if host.isPresent(privateDir) {
        dirs := dirs + [host.resolve(privateDir)];
      }
      validDirs := dirs;
      registry := map[];
      nameTracker := map[];
      rejectedModules := [];
      rawModules := [];
      okmods := [];
      loadedMods := map[];
      new;
      assert validDirs == ValidDirs(host, baseDir);
      DiscoverModules(host);
      assert Snapshot() == Discovered(host, validDirs);
      LoadModules(host);
    }

    /** The glob and validation passes shared by the constructor and full reload (black_orchid.py:49-79, :182-213). */
    method DiscoverModules(host: Host)
      modifies this
      ensures rawModules == RawModules(host, validDirs)
      ensures okmods == Discover(host, validDirs, rawModules).0
      ensures rejectedModules == old(rejectedModules) + Discover(host, validDirs, rawModules).1
      ensures validDirs == old(validDirs) && registry == old(registry)
      ensures nameTracker == old(nameTracker) && loadedMods == old(loadedMods)
    {
      var dirs := validDirs;
      var raws := GlobModules(host, dirs);
      var ok, rej := ValidateModules(host, dirs, raws);
      rawModules, okmods, rejectedModules := raws, ok, rejectedModules + rej;
    }

    /** The `*.py` files of every root, root by root. */
    static method GlobModules(host: Host, dirs: seq<Path>) returns (raws: seq<Path>)
      ensures raws == RawModules(host, dirs)
    {
      raws := [];
      var i := 0;
      while i < |dirs|
        invariant 0 <= i <= |dirs|
        invariant raws == RawModules(host, dirs[..i])
      {
        raws := raws + host.glob(dirs[i]);
        assert dirs[..i + 1][..i] == dirs[..i];
        i := i + 1;
      }
      assert dirs[..i] == dirs;
    }

    /** The validation loop: accepted resolved paths, and the rejections with their reasons. */
    static method ValidateModules(host: Host, dirs: seq<Path>, raws: seq<Path>) returns (ok: seq<Path>, rej: seq<(Path, string)>)
      ensures (ok, rej) == Discover(host, dirs, raws)
    {
      ok := [];
      rej := [];
      var j := 0;
      while j < |raws|
        invariant 0 <= j <= |raws|
        invariant (ok, rej) == Discover(host, dirs, raws[..j])
      {
        DiscoverStep(host, dirs, raws, j);
        var outcome := ClassifyModule(host, dirs, raws[j]);
        match outcome {
          case Accepted(modPath) => ok := ok + [modPath];
          case Rejected(reason) => rej := rej + [(raws[j], reason)];
          case Skipped =>
        }
        j := j + 1;
      }
      assert raws[..j] == raws;
    }

    /** The checks one globbed path goes through: containment, the reserved stem, the syntax check. */
    static method ClassifyModule(host: Host, dirs: seq<Path>, raw: Path) returns (outcome: Outcome)
      ensures outcome == Classify(host, dirs, raw)
    {
      var modPath := host.resolve(raw);
      if !UnderSomeDir(modPath, dirs) {
        return Rejected(PathTraversal);
      }
      if ModuleName(modPath) == ReservedStem {
        return Skipped;
      }
      match host.syntax(modPath) {
        case Parsed => outcome := Accepted(modPath);
        case SyntaxError => outcome := Rejected(SyntaxErrorReason);
        case ReadFailure(e) => outcome := Rejected(ReadErrorPrefix + e);
      }
    }

    /** The constructor's loading loop, which logs a raising module and carries on (black_orchid.py:82-114). */
    method LoadModules(host: Host)
      requires Valid()
      modifies this
      ensures Valid()
      ensures Snapshot() == LoadAll(old(Snapshot()), host, old(okmods))
    {
      ghost var st0 := Snapshot();
      var mods := okmods;
      var i := 0;
      while i < |mods|
        invariant 0 <= i <= |mods|
        invariant Valid()
        invariant Snapshot() == LoadAll(st0, host, mods[..i])
      {
        ghost var upTo := mods[..i + 1];
        assert upTo[..i] == mods[..i] && upTo[i] == mods[i];
        LoadStep(st0, host, upTo);
        LoadModule(host, mods[i]);
        i := i + 1;
      }
      assert mods[..i] == mods;
    }

    /** One iteration of the constructor's loading loop: a raising module is logged as `import_error`. */
    method LoadModule(host: Host, modPath: Path)
      requires Valid()
      modifies this
      ensures Valid()
      ensures Snapshot() == LoadOne(old(Snapshot()), host, modPath)
    {
      var modName := ModuleName(modPath);
      match host.exec(modName, modPath) {
        case NoLoader =>
        case Raised(detail, _) =>
          rejectedModules := rejectedModules + [(modPath, ImportErrorPrefix + detail)];
        case Executed(ns) =>
          InstallModule(modName, ns);
      }
    }

    /** Binding an executed module and registering its eligible names (black_orchid.py:94-106, :240-250). */
    method InstallModule(modName: string, ns: Namespace)
      requires Valid()
      modifies this
      ensures Valid()
      ensures Snapshot() == Install(old(Snapshot()), modName, ns)
    {
      loadedMods := loadedMods[modName := ns];
      RegisterNames(CleanList(ns, false), modName, ns);
    }

    /** `_register_tool(original_name, module_name, function)` (black_orchid.py:116-160). */
    method RegisterTool(originalName: string, moduleName: string, callable: Binding)
      requires Valid()
      modifies this
      ensures Valid()
      ensures Tabs() == Register(old(Tabs()), originalName, moduleName, callable)
      ensures validDirs == old(validDirs) && rawModules == old(rawModules) && okmods == old(okmods)
      ensures rejectedModules == old(rejectedModules) && loadedMods == old(loadedMods)
    {
      if originalName in nameTracker {
        var first := nameTracker[originalName][0];
        if first.toolName == originalName && originalName in registry {
          var newFirstName := originalName + "_" + first.mod;
          var entry := registry[originalName];
          registry := (registry - {originalName})[newFirstName := entry];
          registry := registry[newFirstName := registry[newFirstName].(hadCollision := true)];
          var history := nameTracker[originalName];
          assert history[0 := Claim(first.mod, newFirstName)] == [Claim(first.mod, newFirstName)] + history[1..];
          nameTracker := nameTracker[originalName := history[0 := Claim(first.mod, newFirstName)]];
        }
        var newToolName := originalName + "_" + moduleName;
        registry := registry[newToolName := ToolEntry(callable, callable.doc, moduleName, originalName, true)];
        nameTracker := nameTracker[originalName := nameTracker[originalName] + [Claim(moduleName, newToolName)]];
      } else {
        registry := registry[originalName := ToolEntry(callable, callable.doc, moduleName, originalName, false)];
        nameTracker := nameTracker[originalName := [Claim(moduleName, originalName)]];
      }
    }

    /** The `for fn_name in clean_list` loop: registers `ns[n]` for each `n` of `names` in order. */
    method RegisterNames(names: seq<string>, moduleName: string, ns: Namespace)
      requires Valid()
      requires forall i :: 0 <= i < |names| ==> names[i] in ns
      modifies this
      ensures Valid()
      ensures Tabs() == RegisterAll(old(Tabs()), names, moduleName, ns)
      ensures validDirs == old(validDirs) && rawModules == old(rawModules) && okmods == old(okmods)
      ensures rejectedModules == old(rejectedModules) && loadedMods == old(loadedMods)
    {
      var i := 0;
      while i < |names|
        invariant 0 <= i <= |names| && Valid()
        invariant Tabs() == RegisterAll(old(Tabs()), names[..i], moduleName, ns)
        invariant validDirs == old(validDirs) && rawModules == old(rawModules) && okmods == old(okmods)
        invariant rejectedModules == old(rejectedModules) && loadedMods == old(loadedMods)
      {
        assert names[..i + 1][..i] == names[..i];
        RegisterTool(names[i], moduleName, ns[names[i]]);
        i := i + 1;
      }
      assert names[..i] == names;
    }

    /** `use_proxy_tool(tool_id, kwargs)`: the function that would be called, or the `KeyError` (black_orchid.py:162-168). */
    method UseProxyTool(toolId: string) returns (r: Result<Binding, DispatchError>)
      ensures toolId in registry ==> r == Ok(registry[toolId].callable)
      ensures toolId !in registry ==> r == Err(ToolNotFound(toolId, registry.Keys))
    {
      if toolId !in registry {
        return Err(ToolNotFound(toolId, registry.Keys));
      }
      r := Ok(registry[toolId].callable);
    }

    /** `list_tools()`. */
    function ListTools(): (r: map<string, Option<string>>)
      reads this
      ensures r == Listing(registry)
    {
      map k | k in registry :: registry[k].docstring
    }

    /** `reload_all_modules()` (black_orchid.py:174-255); an escaping exception is the `Err` result. */
    method ReloadAllModules(host: Host) returns (r: Result<string, string>)
      requires Valid()
      modifies this
      ensures Valid()
      ensures (Snapshot(), r) == ReloadAll(old(Snapshot()), host)
    {
      registry := map[];
      nameTracker := map[];
      loadedMods := map[];
      rejectedModules := [];
      DiscoverModules(host);
      assert Snapshot() == Discovered(host, old(validDirs));
      var failure := LoadModulesStrict(host);
      if failure.Some? {
        return Err(failure.value);
      }
      r := Ok(Summary(Snapshot()));
    }

    /** The full-reload loading loop, which stops at the first exception. */
    method LoadModulesStrict(host: Host) returns (failure: Option<string>)
      requires Valid()
      modifies this
      ensures Valid()
      ensures Snapshot() == LoadAllStrict(old(Snapshot()), host, old(okmods)).0
      ensures failure == LoadAllStrict(old(Snapshot()), host, old(okmods)).1
    {
      ghost var st0 := Snapshot();
      var mods := okmods;
      failure := None;
      var i := 0;
      while i < |mods| && failure.None?
        invariant 0 <= i <= |mods|
        invariant Valid()
        invariant (Snapshot(), failure) == LoadAllStrict(st0, host, mods[..i])
      {
        ghost var upTo := mods[..i + 1];
        assert upTo[..i] == mods[..i] && upTo[i] == mods[i];
        StrictStep(st0, host, upTo);
        failure := LoadModuleStrict(host, mods[i]);
        i := i + 1;
      }
      if failure.Some? {
        assert i > 0;
        StrictStoppedStays(st0, host, mods, i);
      } else {
        assert mods[..i] == mods;
      }
    }

    /** One iteration of the full-reload loading loop: the exception of a raising module escapes. */
    method LoadModuleStrict(host: Host, modPath: Path) returns (failure: Option<string>)
      requires Valid()
      modifies this
      ensures Valid()
      ensures (Snapshot(), failure) == LoadOneStrict(old(Snapshot()), host, modPath)
    {
      var modName := ModuleName(modPath);
      match host.exec(modName, modPath) {
        case NoLoader => failure := None;
        case Raised(detail, _) => failure := Some(detail);
        case Executed(ns) =>
          InstallModule(modName, ns);
          failure := None;
      }
    }

    /** `reload_module(module_name)` (black_orchid.py:257-342). */
    method ReloadModule(host: Host, moduleName: string) returns (r: ReloadResult)
      requires Valid()
      modifies this
      ensures Valid()
      ensures (Snapshot(), r) == RegistryModel.ReloadModule(old(Snapshot()), host, moduleName)
    {
      if moduleName !in loadedMods {
        return NotLoaded("Module '" + moduleName + "' not currently loaded");
      }
      var modPath := LocateModule(host, validDirs, moduleName);
      if modPath.None? {
        return ReloadFailed("Failed to reload '" + moduleName + "'", OldVersionNote);
      }
      match host.exec(moduleName, modPath.value) {
        case NoLoader =>
          r := ReloadFailed("Failed to reload '" + moduleName + "'", OldVersionNote);
        case Raised(_, partial) =>
          loadedMods := loadedMods[moduleName := loadedMods[moduleName] + partial];
          r := ReloadFailed("Failed to reload '" + moduleName + "'", OldVersionNote);
        case Executed(bindings) =>
          r := RebuildTools(moduleName, loadedMods[moduleName] + bindings);
      }
    }

    /** The first root holding `<module_name>.py`. */
    static method LocateModule(host: Host, dirs: seq<Path>, moduleName: string) returns (modPath: Option<Path>)
      ensures modPath == FindModuleFile(host, dirs, moduleName)
    {
      modPath := None;
      var j := 0;
      while j < |dirs|
        invariant 0 <= j <= |dirs|
        invariant FindModuleFile(host, dirs, moduleName) == FindModuleFile(host, dirs[j..], moduleName)
      {
        var candidate := dirs[j] + [moduleName + ".py"];
        if host.isPresent(candidate) {
          modPath := Some(candidate);
          return;
        }
        assert dirs[j..][1..] == dirs[j + 1..];
        j := j + 1;
      }
    }

    /** The success path: bind the re-executed namespace, swap this module's tools, report the difference. */
    method RebuildTools(moduleName: string, reloadedModule: Namespace) returns (r: ReloadResult)
      requires Valid()
      modifies this
      ensures Valid()
      ensures (Snapshot(), r) == Reinstall(old(Snapshot()), moduleName, reloadedModule)
    {
      var oldToolNames := ModuleTools(registry, moduleName);
      loadedMods := loadedMods[moduleName := reloadedModule];
      RemoveTools(oldToolNames);
      RegisterNames(CleanList(reloadedModule, true), moduleName, reloadedModule);
      var newToolNames := ModuleTools(registry, moduleName);
      var toolsAdded := newToolNames - oldToolNames;
      var toolsRemoved := oldToolNames - newToolNames;
      var suggestion := if toolsAdded != {} || toolsRemoved != {} then Some(ReloadSuggestion) else None;
      r := Reloaded(moduleName, toolsAdded, toolsRemoved, suggestion);
    }

    /** The names of the tools a module registered. */
    static method ModuleTools(reg: Registry, moduleName: string) returns (names: set<string>)
      ensures names == ToolsOf(reg, moduleName)
    {
      names := set k | k in reg && reg[k].sourceModule == moduleName;
    }

    /** The `del self.registry[tool_id]` loop. */
    method RemoveTools(toolIds: set<string>)
      modifies this
      ensures registry == old(registry) - toolIds
      ensures nameTracker == old(nameTracker) && loadedMods == old(loadedMods) && rejectedModules == old(rejectedModules)
      ensures validDirs == old(validDirs) && rawModules == old(rawModules) && okmods == old(okmods)
    {
      var pending := toolIds;
      while pending != {}
        invariant pending <= toolIds
        invariant registry == old(registry) - (toolIds - pending)
        invariant nameTracker == old(nameTracker) && loadedMods == old(loadedMods) && rejectedModules == old(rejectedModules)
        invariant validDirs == old(validDirs) && rawModules == old(rawModules) && okmods == old(okmods)
        decreases |pending|
      {
        var toolId :| toolId in pending;
        registry := registry - {toolId};
        pending := pending - {toolId};
      }
    }
  }

  /** `search_for_proxy_tool(search_term)` (black_orchid.py:399-404). */
  method SearchForProxyTool(handler: ProxyHandler, searchTerm: string) returns (matches: map<string, Option<string>>)
    ensures matches == Search(handler.ListTools(), searchTerm)
  {
    var allTools := handler.ListTools();
    matches := map[];
    var pending := allTools.Keys;
    while pending != {}
      invariant pending <= allTools.Keys
      invariant matches == Search(allTools - pending, searchTerm)
      decreases |pending|
    {
      var toolName :| toolName in pending;
      SearchStep(allTools, pending, toolName, searchTerm);
      if ContainsIgnoringCase(toolName, searchTerm) {
        matches := matches[toolName := allTools[toolName]];
      }
      pending := pending - {toolName};
    }
    assert allTools - {} == allTools;
  }

  /** One iteration of the search loop: the tool taken out of `pending` joins the matches when its name matches. */
  lemma SearchStep(tools: map<string, Option<string>>, pending: set<string>, name: string, term: string)
    requires name in pending && pending <= tools.Keys
    ensures Search(tools - (pending - {name}), term) ==
      if ContainsIgnoringCase(name, term) then Search(tools - pending, term)[name := tools[name]]
      else Search(tools - pending, term)
  {
    var after := Search(tools - (pending - {name}), term);
    var before := Search(tools - pending, term);
    var expected := if ContainsIgnoringCase(name, term) then before[name := tools[name]] else before;
    forall k | k in after ensures k in expected && after[k] == expected[k] {
      assert k == name || k in before;
    }
    forall k | k in expected ensures k in after {
      assert k == name || k in before;
    }
    assert after == expected;
  }
}
