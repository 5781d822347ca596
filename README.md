# Black Orchid core, modelled in Dafny

Black Orchid is an MCP proxy server. It loads Python modules at run time and
publishes their top-level lower-case names as tools. It also ships helper
modules for configuration, project trees, skills, semantic memory and working
preferences. This project models the parts of those that decide state and
text, and proves what they guarantee.

- **Tool registry** (`registry_model.dfy`, module `RegistryModel`;
  `registry.dfy`, module `BlackOrchid`). The `ProxyHandler` is a class whose
  fields are the handler's attributes: valid roots, raw and accepted module
  paths, the registry, the name tracker, the rejection log and the loaded
  namespaces. Its methods include start-up discovery and loading,
  collision-aware `_register_tool`, `use_proxy_tool`, `list_tools`,
  `reload_all_modules` and `reload_module`. Each method is proved to follow
  a pure specification function in `RegistryModel`, and the lemmas there
  prove what those functions promise. The parts outside Python are the fields
  of a `Host` value: `glob`, `Path.resolve`, `exists`, the read + `ast.parse`
  check and module execution. `search_for_proxy_tool` is a loop over the
  listing, proved against a filter function.
- **Configuration** (`config.dfy`, module `ConfigManager`). Nested values
  are a recursive `Value`. `_get_nested_value` and `_set_nested_value` are
  loops proved against recursive functions. The two scope dictionaries live in
  a `ConfigStore` class with `get_config`, `set_config`, `reload_config` and
  the initial load. YAML parsing is a `load` function parameter.
- **Project tree** (`descriptions.dfy`, module `FileDescriptions`;
  `project_tree.dfy`, module `ProjectTree`). This covers:
  - the README, JS/TS and Python description extractors;
  - the dispatch on file type;
  - the directory scan with its sort order and depth cut-off;
  - the extension filter;
  - the indented text rendering;
  - the five-minute cache in `full_project_tree`, held by a class.
- **Skills** (`skills.dfy`, module `Skills`). This covers
  `_extract_description`, the skill directories, and the source and name
  derivation in `list_skills`/`use_skill`.
- **Semantic memory** (`memory.dfy`, module `SemanticMemory`). This covers
  the section splitting and the L0/L1/L2 construction of
  `parse_markdown_hierarchy`, plus the domain check and the batch assembly
  of `ingest_document`. The header regular expression is not run: its matches
  are an input.
- **Working preferences** (`session.dfy`, module `SessionPreferences`). The
  preferences file is a class whose one field is the file content, with
  `None` when the file does not exist. The class covers load with its
  fallback text, save as an append, and the line scan of `get_preference`.
- `strings.dfy` (module `Strings`) and `wrappers.dfy` (module `Wrappers`)
  hold the Python string operations that the model needs. They are written
  for ASCII: strip, split, lower, islower, find, `str.__lt__` order and
  `str(int)`. They also hold `Option`/`Result`.

Where the code and its documentation differ, the model follows the code.

- **No callability check.**
  - The comments at `black_orchid.py:97` and `:101` speak of extracting and
    registering functions.
  - The filter at `black_orchid.py:99` only tests the name. Every lower-case
    top-level name becomes a tool, modules such as `os` included.
- **Full reload does not record failures.**
  - At start-up, the handler at `black_orchid.py:108-114` records a failing
    module as an `import_error` and continues with the others.
  - `reload_all_modules` has no handler around execution. The first module
    that raises aborts the rebuild: `ReloadAll` returns `Err` with the
    exception text, and no `import_error` is logged (`ReloadAllAborts`).
- **A partial reload differs from the first load.**
  - The filter at `black_orchid.py:300` drops the underscore test:
    `CleanList(ns, true)`.
  - The module is re-executed into its old namespace, so old bindings
    survive: the namespace becomes `old + new`.
  - A failed re-execution leaves the bindings made before the exception in
    that namespace. The registry and the tracker stay untouched
    (`ReloadFailureKeepsRegistry`).
- **Collision renames are guarded** (`BareKeyGoneSkipsRename`). A name whose
  bare entry was deleted by a partial reload is not renamed again on its next
  sighting. Its re-registration takes the suffixed form.
- **The subsection branch always raises.** In `parse_markdown_hierarchy`,
  the branch that builds L2 nodes from `###` subsections indexes a list with
  a dict, which raises. So a document with at least one level-1 section and
  one deeper section fails with that error (`SubsectionBranchRaises`). The
  header pattern only matches one or two `#`, so this branch cannot be reached
  (`HeadersGiveOnlyL1`, `LevelsUnderRegex`).
- **Preference keys match as substrings.**
  - `get_preference` takes the first line that contains the key, ignoring
    case. A saved line for `emoji_usage_v2` therefore answers a lookup of
    `emoji` (`KeyInsideName`).
  - Saving appends and never replaces, so after two saves of one key the
    lookup still yields the first value (`SaveTwiceKeepsFirst`).
- **The source of a skill is decided by the whole path.** It is "private"
  whenever the directory path contains "private". So the public skills
  directory counts as private when the installation itself lives under such a
  path (`PublicUnderPrivatePath`).
- **`max_depth` is not used for the scan.** `full_project_tree` keeps it
  only in the cache key and the echoed filters. The scan always stops below
  depth 10 (`TreeDepthBounded`).

## Model

| member | source | states |
|---|---|---|
| RegistryModel.ValidDirs | black_orchid.py:30-39 | The public `modules` root is always first; the private root is added exactly when `private/modules` exists |
| RegistryModel.Classify | black_orchid.py:57-79 | An accepted path is the resolved path and lies under a valid root; a skipped one lies under a root and has the stem `toolset`; a rejection's reason is `path_traversal_attempt`, `syntax_error` or `read_error: …` |
| RegistryModel.DiscoverStep | black_orchid.py:56-79 | Scanning one more path appends it to `okmods` if accepted, appends `(path, reason)` to the log if rejected, and changes nothing if skipped |
| RegistryModel.DiscoverPartition | black_orchid.py:56-79 | Every scanned path lands in exactly one outcome: accepted + rejected + skipped counts equal the number scanned |
| RegistryModel.DiscoverAccepted | black_orchid.py:56-75 | Every accepted path is the resolved form of a scanned path that lies under a valid root, has a stem other than `toolset`, and passed the syntax check |
| RegistryModel.DiscoverRejected | black_orchid.py:59-79 | Every rejection record names a scanned path, and its reason is `path_traversal_attempt` (only when that path resolves under no valid root), `syntax_error`, or starts with `read_error: ` |
| RegistryModel.ClassifyTraversal | black_orchid.py:57-66 | A path is rejected as a traversal attempt exactly when its resolved form is under no valid root |
| RegistryModel.FilterNames | black_orchid.py:99 | A name is kept iff it is in the input and passes the tool-name test: no `__`, `islower`, and, on first load, no leading `_` |
| RegistryModel.FilterNamesSorted | black_orchid.py:99 | Filtering a sorted name list keeps it sorted |
| RegistryModel.CleanList | black_orchid.py:99 | The extracted names are exactly the namespace's eligible names, in sorted (`dir()`) order |
| RegistryModel.Register | black_orchid.py:116-160 | Every tracked name keeps a non-empty history, so the `[0]` lookup never fails |
| RegistryModel.FirstSighting | black_orchid.py:150-160 | A name never seen before is stored under the bare name with `had_collision` false, and its history becomes exactly `[(module, name)]` |
| RegistryModel.RepeatSighting | black_orchid.py:124-149 | On a repeat sighting, the new entry goes to `name_<module>` with the flag set and its claim is appended. The first entry is moved to `name_<firstmodule>` and flagged, and history[0] is updated, only when history[0] is still bare and the bare key still exists. Every other key is untouched |
| RegistryModel.TwoModulesCollide | black_orchid.py:116-160 | Two modules defining one name leave no bare key; both suffixed keys exist with the flag set, and the history lists both claims |
| RegistryModel.ThirdModuleSuffixedDirectly | black_orchid.py:131-149 | A third module's definition adds only `name_<module3>` and one claim; the two earlier entries keep their keys and contents |
| RegistryModel.BareKeyGoneSkipsRename | black_orchid.py:131 | When the bare entry was removed but history[0] is still bare, the sighting only adds the suffixed entry and claim |
| RegistryModel.SuffixInjective | black_orchid.py:140 | Different modules give different suffixed keys for one name |
| RegistryModel.SuffixLonger | black_orchid.py:140 | A suffixed key is longer than the bare name, so it never equals it |
| RegistryModel.SortedIsDistinct | black_orchid.py:99 | A strictly sorted name list has no repeats |
| RegistryModel.RegisterTracker | black_orchid.py:116-160 | One registration grows the history of its name by exactly one and keeps the first claim's module; other histories are unchanged |
| RegistryModel.RegisterAllTracker | black_orchid.py:102-107 | Registering a module's distinct names grows each one's history by exactly one, starts it at `[(module, name)]` when new, and leaves all other histories unchanged |
| RegistryModel.RegisterAllFrame | black_orchid.py:102-107 | Registry keys that none of the names can reach (bare, own suffix or first claimant's suffix) keep their entries |
| RegistryModel.Reach | black_orchid.py:116-160 | The keys one registration may write or delete include the bare name, `name_<module>` and, for a known name, `name_<first claimant>` |
| RegistryModel.RegisterFrame | black_orchid.py:116-160 | One registration leaves every key outside its reach as it was |
| RegistryModel.RegisterAllAbsent | black_orchid.py:102-160 | An absent key stays absent while no other name reaches it, even when the key itself is re-registered (it then goes under its suffixed key) |
| RegistryModel.RegisterAllOwnSuffix | black_orchid.py:102-160 | A name the tracker knows, whose bare first claim is not renamed at its turn, ends up under `name_<module>` with its binding, flagged as collided |
| RegistryModel.RegisterAll | black_orchid.py:102-107 | Registering a name list keeps the tracker histories non-empty |
| RegistryModel.Install | black_orchid.py:92-107 | Binding a module and registering its tools keeps the state well formed |
| RegistryModel.LoadOne | black_orchid.py:83-114 | One loading iteration keeps the state well formed (where `spec` is None the module is skipped, where execution raises `import_error` is logged, on success the module is installed) |
| RegistryModel.LoadAll | black_orchid.py:83-114 | The start-up loading loop keeps the state well formed |
| RegistryModel.LoadAllCore | black_orchid.py:83-114 | The registry, tracker and namespaces that loading produces depend only on the registry, tracker, namespaces and path lists it starts from, not on the rejection log |
| RegistryModel.LoadAllKeepsRoots | black_orchid.py:83-114 | Loading leaves valid roots, raw modules and `okmods` alone |
| RegistryModel.LoadAllAppend | black_orchid.py:83 | Loading `ps + qs` is loading `ps` and then `qs` |
| RegistryModel.LoadOneLogGrows | black_orchid.py:108-114 | One loading iteration only appends to the rejection log |
| RegistryModel.LoadAllLogGrows | black_orchid.py:83-114 | Loading only appends to the rejection log |
| RegistryModel.FailingModuleIsolated | black_orchid.py:108-114 | A module whose execution raises is logged as `import_error: ` + detail and the other modules load exactly as if it were absent |
| RegistryModel.NoRaiseKeepsLog | black_orchid.py:83-114 | When no module raises, loading adds nothing to the log |
| RegistryModel.Discovered | black_orchid.py:41-79 | The freshly discovered state is well formed |
| RegistryModel.Init | black_orchid.py:26-114 | The constructed state is well formed |
| RegistryModel.LoadOneStrict | black_orchid.py:216-250 | One full-reload iteration keeps the state well formed |
| RegistryModel.LoadAllStrict | black_orchid.py:216-250 | The full-reload loading loop keeps the state well formed |
| RegistryModel.StrictMatchesLenient | black_orchid.py:216-250 | When no module raises, the full-reload loop reaches the same state as the start-up loop and reports no failure |
| RegistryModel.StrictKeepsLog | black_orchid.py:216-250 | The full-reload loop never writes to the rejection log |
| RegistryModel.OneStrictRaises | black_orchid.py:231 | A raising module stops the iteration with its exception text and no state change |
| RegistryModel.StrictStep | black_orchid.py:216-250 | While nothing has raised, the loop runs the next iteration |
| RegistryModel.StrictStepRaises | black_orchid.py:216-238 | While nothing has raised, a raising next module becomes the failure |
| RegistryModel.StrictStepStopped | black_orchid.py:216-238 | Once something raised, later modules are not run |
| RegistryModel.StrictStoppedStays | black_orchid.py:216-238 | A failure in a prefix is the failure of the whole run, with the same state |
| RegistryModel.StrictStopsAtFirstRaise | black_orchid.py:216-238 | If some module raises, the failure is the exception of the first one that does |
| RegistryModel.LastRaises | black_orchid.py:216-238 | If no module of a prefix raises but some module of the list does, it is the last one |
| RegistryModel.FirstRaiseExtends | black_orchid.py:216-238 | The first raising module of a prefix is still the first in the longer list |
| RegistryModel.NoneRaisesPrefix | black_orchid.py:216-238 | A prefix of modules that do not raise also has no raising module |
| RegistryModel.Summary | black_orchid.py:255 | The message reads "Loaded <number of tools> tools from " … "<number of modules> modules" |
| RegistryModel.ReloadAll | black_orchid.py:174-255 | A full reload yields a well-formed state |
| RegistryModel.ReloadAllForgets | black_orchid.py:177-187 | The outcome of a full reload depends only on the valid roots: registry, tracker, namespaces and log are cleared first (each module's execution taken as a fresh namespace) |
| RegistryModel.ReloadAllRebuildsInit | black_orchid.py:174-255 | On unchanged inputs, and with each module's execution taken as a fresh namespace, a full reload right after construction reproduces the constructed state exactly and returns `Loaded {tools} tools from {modules} modules` |
| RegistryModel.ReloadAllAborts | black_orchid.py:216-238 | If an accepted module raises, the full reload returns the first raising module's exception text, and the log holds only discovery's rejections |
| RegistryModel.Listing | black_orchid.py:170-172 | The listing has exactly the registry keys, each mapped to its entry's docstring |
| RegistryModel.Search | black_orchid.py:399-404 | A tool is in the result iff its name contains the term ignoring case; its docstring is kept |
| RegistryModel.SearchEmptyTermListsAll | black_orchid.py:399-404 | The empty term matches every tool |
| RegistryModel.SearchNarrows | black_orchid.py:399-404 | A longer term containing a shorter one matches a subset |
| RegistryModel.FindModuleFile | black_orchid.py:276-284 | The located file is `<root>/<module>.py` for some valid root and exists; no file is located only when none of the roots holds one |
| RegistryModel.ToolsOf | black_orchid.py:266-271 | Exactly the registry keys whose entry came from the module |
| RegistryModel.Reinstall | black_orchid.py:292-330 | The success path of a partial reload keeps the state well formed |
| RegistryModel.ReloadModule | black_orchid.py:257-342 | A partial reload keeps the state well formed |
| RegistryModel.ReloadUnknownModule | black_orchid.py:259-263 | Reloading a module that is not loaded changes nothing and reports `Module '<name>' not currently loaded` |
| RegistryModel.ReloadFailureKeepsRegistry | black_orchid.py:276-342 | When the file is missing or re-execution fails, the result is `Failed to reload '<name>'` with the old-version note. Registry, tracker, log, roots and other modules' namespaces are unchanged, and the module keeps all its old bindings |
| RegistryModel.ReinstallSound | black_orchid.py:266-330 | On success, `tools_added` = new − old and `tools_removed` = old − new over the keys whose source is this module. The suggestion is present iff either set is non-empty. Other modules' entries that the re-registered names cannot reach are kept, and tracker histories only grow |
| RegistryModel.ReloadSuccess | black_orchid.py:286-306 | When the file is found and executes, the reload is the success path with the old namespace overlaid by the new bindings |
| RegistryModel.ReinstallRenamesBareKey | black_orchid.py:294-330 | A bare key `x` the module held alone is gone afterwards, `x_<module>` holds the new binding flagged as collided, `x` is reported removed and `x_<module>` added, and a full reload is suggested |
| RegistryModel.ReinstallKeepsSuffixedKey | black_orchid.py:294-330 | An already suffixed `x_<module>` stays with the new binding and is reported neither added nor removed |
| RegistryModel.ReloadRenamesUniqueName | black_orchid.py:257-330 | A successful `reload_module` of a module that alone defined `x` under its bare key removes `x` and adds `x_<module>` (from that module, flagged as collided), and the report says so with the suggestion; this is the permanent suffix that tests/test_reload.py:136-142 describes |
| RegistryModel.ReloadKeepsSuffixedName | black_orchid.py:257-330 | A successful `reload_module` keeps an already suffixed `x_<module>` from that module and reports no change for it, as tests/test_reload.py:248-262 expects of `fetch_resource_web_tools` |
| BlackOrchid.ProxyHandler.constructor | black_orchid.py:26-114 | The new handler's attributes are exactly the specified start-up state |
| BlackOrchid.ProxyHandler.DiscoverModules | black_orchid.py:49-79 | Sets `raw_modules` and `okmods` from discovery and appends discovery's rejections; the other attributes are unchanged |
| BlackOrchid.ProxyHandler.GlobModules | black_orchid.py:49-51 | The loop over the roots concatenates each root's glob |
| BlackOrchid.ProxyHandler.ValidateModules | black_orchid.py:56-79 | The validation loop produces exactly discovery's accepted list and rejection list |
| BlackOrchid.ProxyHandler.ClassifyModule | black_orchid.py:57-79 | The checks of one path give its specified outcome |
| BlackOrchid.ProxyHandler.LoadModules | black_orchid.py:82-114 | The loading loop over `okmods` reaches the specified loaded state |
| BlackOrchid.ProxyHandler.LoadModule | black_orchid.py:84-114 | One iteration of the loading loop |
| BlackOrchid.ProxyHandler.InstallModule | black_orchid.py:92-107 | Binding a module and registering its cleaned names |
| BlackOrchid.ProxyHandler.RegisterTool | black_orchid.py:116-160 | The in-place pop, reinsert and append on the registry and tracker equal the specified registration. Nothing else changes |
| BlackOrchid.ProxyHandler.RegisterNames | black_orchid.py:102-107 | The registration loop equals registering the list in order. Nothing else changes |
| BlackOrchid.ProxyHandler.UseProxyTool | black_orchid.py:162-168 | A known id yields its entry's callable; an unknown id yields the not-found error carrying the current keys. State is unchanged |
| BlackOrchid.ProxyHandler.ListTools | black_orchid.py:170-172 | The listing of the current registry |
| BlackOrchid.ProxyHandler.ReloadAllModules | black_orchid.py:174-255 | Clear, rediscover, reload: the new state and the summary or escaped exception are the specified full reload |
| BlackOrchid.ProxyHandler.LoadModulesStrict | black_orchid.py:215-250 | The full-reload loop over `okmods` stops at the first raising module, with the specified state and exception |
| BlackOrchid.ProxyHandler.LoadModuleStrict | black_orchid.py:216-250 | One iteration of the full-reload loop |
| BlackOrchid.ProxyHandler.ReloadModule | black_orchid.py:257-342 | A partial reload changes the handler and answers exactly as specified |
| BlackOrchid.ProxyHandler.LocateModule | black_orchid.py:276-281 | The search loop over the roots finds the specified module file |
| BlackOrchid.ProxyHandler.RebuildTools | black_orchid.py:292-330 | Deleting the module's tools, re-registering and diffing gives the specified success path |
| BlackOrchid.ProxyHandler.ModuleTools | black_orchid.py:266-271 | The comprehension collects exactly the keys whose source is the module |
| BlackOrchid.ProxyHandler.RemoveTools | black_orchid.py:296-297 | The delete loop removes exactly the given keys. Nothing else changes |
| BlackOrchid.SearchForProxyTool | black_orchid.py:399-404 | The accumulating loop returns exactly the filtered listing |
| BlackOrchid.SearchStep | black_orchid.py:401-403 | Adding one more listed tool to the scan adds it to the result exactly when its name matches |
| ConfigManager.KeysOf | modules/config_manager.py:65 | The dotted path splits into at least one key, and joining the keys with "." gives the path back |
| ConfigManager.Lookup | modules/config_manager.py:65-75 | An empty key list yields the value itself; every error is "key not found" for the whole path or "parent is not a dict" at one of the keys |
| ConfigManager.GetNestedValue | modules/config_manager.py:60-75 | The walk down the keys returns the nested value or the specified KeyError |
| ConfigManager.Assign | modules/config_manager.py:84-96 | A successful set adds at most the first key at the top and keeps every other top-level key; a failure is the "exists but is not a dict" error for this path |
| ConfigManager.SetNestedValue | modules/config_manager.py:78-96 | The in-place walk that creates missing dicts equals the specified assignment |
| ConfigManager.GetAfterSet | modules/config_manager.py:60-96 | After a successful set of a path, getting the same path yields the value |
| ConfigManager.SetFrame | modules/config_manager.py:84-96 | A set changes nothing outside its path. Any path that is not a prefix of it and does not run past its end reads the same before and after |
| ConfigManager.SetFailsOnlyOnExistingPath | modules/config_manager.py:88-93 | A set fails iff some intermediate key (not the last) already holds a non-dict value along an existing chain of dicts |
| ConfigManager.LookupCons | modules/config_manager.py:68-73 | Looking up a path one key deeper is looking up the rest in that key's value |
| ConfigManager.Read | modules/config_manager.py:131-140 | Without a key path, the whole scope's dictionary comes back; every failure is the scoped "key not found" for a given path |
| ConfigManager.ReadAfterAssign | modules/config_manager.py:131-171 | After a successful set on a scope, `get_config` of the same path returns the value |
| ConfigManager.ConfigStore.constructor | modules/config_manager.py:27-30 | Both scopes start empty |
| ConfigManager.ConfigStore.Initialize | modules/config_manager.py:99-105 | Each scope that is still empty is loaded; a scope that is already filled is kept. A load failure stops the initialisation and leaves that scope as it was |
| ConfigManager.ConfigStore.GetConfig | modules/config_manager.py:112-140 | Any scope other than "public"/"private" is refused; otherwise the scope's value is read as specified |
| ConfigManager.ConfigStore.SetConfig | modules/config_manager.py:143-171 | An invalid scope is refused with nothing changed. A failed set leaves both scopes unchanged; a successful one replaces exactly the chosen scope and returns the update message |
| ConfigManager.ConfigStore.ReloadConfig | modules/config_manager.py:174-199 | An invalid scope is refused. One named scope is replaced by its loaded value; with no scope, public and then private are reloaded, and a failure stops at that scope |
| FileDescriptions.ReadmeCandidate | modules/project_utils.py:87-89 | A line qualifies iff, stripped, it is non-empty, is not a heading or image, and is longer than 20 characters. It then yields the stripped line cut to 100 characters + "..." (21 to 103 characters) |
| FileDescriptions.ReadmeCandidates | modules/project_utils.py:85-86 | At most the first 10 lines are considered |
| FileDescriptions.ReadmeCandidatesOf | modules/project_utils.py:86-89 | One candidate per line, in the lines' order |
| FileDescriptions.ReadmeCandidatesAt | modules/project_utils.py:85-89 | The candidates are exactly those of the first min(10, n) lines of the file, in order |
| FileDescriptions.ReadmeDescription | modules/project_utils.py:78-92 | A README description has 21 to 103 characters |
| FileDescriptions.ReadmeFirstQualifying | modules/project_utils.py:85-89 | The first qualifying line among the first 10 is the one returned, cut to 100 + "..." |
| FileDescriptions.ReadmeNoneIff | modules/project_utils.py:85-92 | There is no description iff none of the first 10 lines qualifies |
| FileDescriptions.ExtractReadmeDescription | modules/project_utils.py:78-92 | The early-return loop returns the specified README description |
| FileDescriptions.CommentBlock | modules/project_utils.py:62-69 | The gathered block has no more lines than the window |
| FileDescriptions.CommentBlockStep | modules/project_utils.py:63-69 | A line without `*/` is gathered, one leading `*` removed, and the scan goes on |
| FileDescriptions.CommentBlockStop | modules/project_utils.py:63-66 | The block ends at the window's end or at the first line containing `*/`, which is not gathered |
| FileDescriptions.GatherComment | modules/project_utils.py:62-69 | The inner loop gathers exactly the block from line i over at most 10 lines |
| FileDescriptions.JsCandidateShape | modules/project_utils.py:55-73 | A line yields only more than 10 characters. A `//` line yields its stripped body, which does not start with `@`. Otherwise the line starts with `/*`, and the joined block is at most 103 characters |
| FileDescriptions.JsCandidates | modules/project_utils.py:53-54 | Only the first 20 lines are considered |
| FileDescriptions.JsDescription | modules/project_utils.py:46-76 | A JS/TS description has more than 10 characters |
| FileDescriptions.JsFirstDescribing | modules/project_utils.py:54-73 | The first of the first 20 lines that yields a description is the one returned |
| FileDescriptions.JsNoneIff | modules/project_utils.py:54-76 | There is no description iff none of the first 20 lines yields one |
| FileDescriptions.ExtractJsDescription | modules/project_utils.py:46-76 | The scan with early return returns the specified JS/TS description |
| FileDescriptions.LineDescription | modules/project_utils.py:55-73 | One pass of the scan yields the specified candidate of that line |
| FileDescriptions.FirstDocLine | modules/project_utils.py:39-41 | The docstring's first line, stripped, has no line break and no surrounding white space |
| FileDescriptions.StripInside | modules/project_utils.py:41 | Every character of a stripped string occurs in the original |
| FileDescriptions.KindOf | modules/project_utils.py:96-104 | The lower-cased suffix `.py` wins, then a JS/TS suffix, then a README name; only `package.json` itself reaches the `package.json` branch |
| FileDescriptions.FileDescription | modules/project_utils.py:94-112 | Only `.py`, JS/TS, README names and `package.json` get a description. `.py`: a description iff there is a docstring, and then its first line. JS/TS: none without content, else the JS extractor on it. README name (not `.py`, not JS/TS): none without content, else the README extractor on it |
| FileDescriptions.PackageJsonKind | modules/project_utils.py:96-104 | `package.json` falls through the `.py`, JS/TS and README tests to the `package.json` branch |
| FileDescriptions.PackageJsonDescription | modules/project_utils.py:104-110 | The description of `package.json` is the parsed `description` field (`""` when missing, none when reading or parsing fails) |
| ProjectTree.Icon | modules/project_utils.py:176-185 | A file never gets the folder icon; a `.py` name always gets the snake, whatever else it matches; the book icon only goes to names starting with "readme" (ignoring case) that end neither in `.py` nor `.json` |
| ProjectTree.FormatTree | modules/project_utils.py:168-196 | The first line is the node's own: `📁 name/` for a directory; otherwise an icon (.py, JS/TS, .json, readme prefix, default, in that order), a space, the name, and ` - desc` only when desc is non-empty |
| ProjectTree.Preorder | modules/project_utils.py:190-194 | A node's pre-order starts with itself at its depth |
| ProjectTree.Spaces | modules/project_utils.py:192 | n spaces |
| ProjectTree.LinesOf | modules/project_utils.py:168-196 | One line per visited node |
| ProjectTree.LinesOfAppend | modules/project_utils.py:193-194 | Lines of two visits concatenate |
| ProjectTree.SpacesStep | modules/project_utils.py:192 | One nesting level adds two spaces of indent |
| ProjectTree.FormatIsPreorder | modules/project_utils.py:168-196 | The rendering is exactly one line per node in pre-order, each level indented two more spaces |
| ProjectTree.FormatForestIsPreorder | modules/project_utils.py:193-194 | The same for a list of children |
| ProjectTree.TotalItemsCountsNodes | modules/project_utils.py:255-264 | `total_items` (the line count) equals the number of nodes |
| ProjectTree.Keep | modules/project_utils.py:240-249 | A file survives, unchanged, iff its name ends with "." + type; whatever survives keeps its name and kind (directories: see `KeepFiles` and `KeepLeavesNoEmptyDirs`) |
| ProjectTree.KeepForest | modules/project_utils.py:244 | Filtering never adds children |
| ProjectTree.FilterRoot | modules/project_utils.py:251-252 | The root is never removed, only its children are filtered |
| ProjectTree.Matching | modules/project_utils.py:249 | The matching files are exactly the files with the extension |
| ProjectTree.MatchingAppend | modules/project_utils.py:244 | Matching distributes over concatenation |
| ProjectTree.KeepFiles | modules/project_utils.py:240-249 | The files left in a kept subtree are exactly its matching files, in order |
| ProjectTree.KeepForestFiles | modules/project_utils.py:244 | The same for a list of children |
| ProjectTree.FilterKeepsMatchingFiles | modules/project_utils.py:239-252 | After filtering, the tree's files are exactly the matching files of the unfiltered tree, in order |
| ProjectTree.KeepLeavesNoEmptyDirs | modules/project_utils.py:243-245 | A surviving subtree has no directory with an emptied `children` list |
| ProjectTree.KeepForestLeavesNoEmptyDirs | modules/project_utils.py:244-245 | The same for a list of children |
| ProjectTree.KeyAsymmetric | modules/project_utils.py:133 | The sort key (is-file, lower-cased name) order is asymmetric |
| ProjectTree.KeyNegativeTransitive | modules/project_utils.py:133 | The sort key order is negatively transitive, hence a strict weak order |
| ProjectTree.InsertItem | modules/project_utils.py:133 | Inserting an entry into a sorted list keeps it sorted and adds exactly that entry |
| ProjectTree.InsertFront | modules/project_utils.py:133 | An entry not above the head goes in front |
| ProjectTree.InsertBehind | modules/project_utils.py:133 | An entry above the head goes behind it |
| ProjectTree.SortItems | modules/project_utils.py:133 | Entries are sorted directories first, then by lower-cased name; the result is a permutation of the listing |
| ProjectTree.Scan | modules/project_utils.py:123-160 | Beyond depth 10, or where listing fails, nothing is added. Otherwise one node per listed entry, in sorted order, with its name and kind |
| ProjectTree.ScanItems | modules/project_utils.py:135-160 | One node per entry in order, with its name and kind, every directory having a `children` key |
| ProjectTree.ItemNode | modules/project_utils.py:136-158 | A node has the entry's name and kind, and a directory node has a `children` key |
| ProjectTree.BuildTree | modules/project_utils.py:114-166 | The tree is a directory named after the root, with children |
| ProjectTree.ScanHeight | modules/project_utils.py:124 | A scan started at depth d is at most 11 − d levels deep |
| ProjectTree.ScanItemsHeight | modules/project_utils.py:124-158 | The same for the nodes of one listing |
| ProjectTree.ItemNodeHeight | modules/project_utils.py:152-158 | The same for one node |
| ProjectTree.TreeDepthBounded | modules/project_utils.py:124 | The tree is at most 12 levels high, whatever `max_depth` is |
| ProjectTree.CacheKey | modules/project_utils.py:219 | The key starts with the root's and the stats flag's Python texts and ends with the depth, joined by `_` |
| ProjectTree.RootPath | modules/project_utils.py:15-26 | A non-empty given root is resolved; no root or an empty one resolves the working directory |
| ProjectTree.Generate | modules/project_utils.py:225-270 | A missing root gives the "Project root does not exist" error naming the root. Otherwise the tree is the scanned root directory, filtered only when a non-empty type is given; with that filter its files are exactly the unfiltered tree's matching files. `formatted_output` is the tree's formatted lines joined by newlines, `total_items` counts its nodes, and `project_root` and the filters echo the call |
| ProjectTree.TreeCall | modules/project_utils.py:215-276 | Within 300 seconds of the last store, a stored key returns its result and changes nothing. Otherwise the result is generated; only a success is stored, under the key, and sets the timestamp to now. An error changes nothing |
| ProjectTree.RepeatWithinWindow | modules/project_utils.py:217-223 | After a call that generated and stored a result, a repeat of the same call under 300 seconds later returns that result with the cache unchanged, whatever the disk now holds |
| ProjectTree.SharedTimestamp | modules/project_utils.py:272-274 | One timestamp is shared by all keys: storing one result makes an older, expired entry current again |
| ProjectTree.TreeCache.constructor | modules/project_utils.py:11-12 | The cache starts empty at time 0 |
| ProjectTree.TreeCache.FullProjectTree | modules/project_utils.py:198-276 | The cache check, generation and store equal the specified call |
| Skills.SkillCandidate | modules/skills_loader.py:40-50 | A blank line yields nothing. A heading yields the line with all leading `#` removed and stripped. Another line yields the line cut to 100 + "..." iff it is longer than 20 characters |
| Skills.SkillCandidates | modules/skills_loader.py:38-41 | One candidate per line of the stripped content |
| Skills.ExtractDescription | modules/skills_loader.py:36-52 | None iff no line yields a candidate; otherwise the candidate of the first line that yields one |
| Skills.HeadingWins | modules/skills_loader.py:40-47 | If only blank or short (at most 20 characters) non-heading lines precede a heading, the heading text is the description |
| Skills.ParagraphWins | modules/skills_loader.py:40-50 | If only blank or short non-heading lines precede a long non-heading line, that line is described, in at most 103 characters |
| Skills.SkillsDirs | modules/skills_loader.py:15-33 | Only the public and the private skills directory, each listed iff it exists, the public one first |
| Skills.SourceOf | modules/skills_loader.py:73 | The source is "private" iff the directory path contains "private", else "public" |
| Skills.InfoOf | modules/skills_loader.py:82-89 | A skill's name is the file stem; its source and description come from its directory and content |
| Skills.ListFiles | modules/skills_loader.py:76-92 | At most one skill per globbed file |
| Skills.ListFilesComplete | modules/skills_loader.py:76-92 | Every readable skill file is listed |
| Skills.ListFilesSound | modules/skills_loader.py:76-92 | Every listed skill comes from a readable skill file |
| Skills.ListDirs | modules/skills_loader.py:72-92 | Every readable `*.md` file of every directory is listed, and every listed skill comes from one |
| Skills.ListSkills | modules/skills_loader.py:94-98 | The count is the list length, and the message is `Found {n} skills` |
| Skills.Names | modules/skills_loader.py:150 | The names of the available skills, in order |
| Skills.SkillAnswer | modules/skills_loader.py:125-146 | A readable file gives `Loaded` with its content, the directory's source and the fixed instructions; an unreadable one gives `LoadFailed` with "Failed to load skill '<name>': " and the read error |
| Skills.FindSkill | modules/skills_loader.py:121-146 | Nothing is found iff no directory from the start position holds `<name>.md`. Otherwise the answer is that of the first directory holding it: no earlier one does |
| Skills.UseSkill | modules/skills_loader.py:101-157 | Not found iff no directory holds the file; then the error, the available names and the suggestion are returned. Otherwise it is the answer of the first directory holding the file: no earlier one holds it |
| Skills.PublicShadowsPrivate | modules/skills_loader.py:122-146 | A skill the public directory holds is answered from the public directory, even when the private one holds it too |
| Skills.PrivateWhenNotPublic | modules/skills_loader.py:122-146 | A skill only the private directory holds is answered from the private directory |
| Skills.PublicUnderPrivatePath | modules/skills_loader.py:72-73 | When the installation path contains "private", the public skills directory reports source "private" |
| Skills.JoinPrefix | modules/skills_loader.py:73 | A path's text begins with the text of each of its prefixes |
| SemanticMemory.Slice | modules/semantic_memory.py:174 | Python slicing with clamped bounds |
| SemanticMemory.Unscore | modules/semantic_memory.py:153 | Underscores become spaces, nothing else changes |
| SemanticMemory.LastComponent | modules/semantic_memory.py:146 | The file name is one of the path's components |
| SemanticMemory.SourceIdOf | modules/semantic_memory.py:146 | The source id is the file name's stem |
| SemanticMemory.SectionLevel | modules/semantic_memory.py:182 | Level 1 iff at most 2 `#`, else 2 |
| SemanticMemory.Sections | modules/semantic_memory.py:167-191 | One section per header match, in order, with the header's level, stripped title and position |
| SemanticMemory.CloseAt | modules/semantic_memory.py:171-186 | Closing the open section at the next header appends exactly that section |
| SemanticMemory.ParseSections | modules/semantic_memory.py:167-191 | The loop yields one section per header. Each section's content is the text from the end of its header to the start of the next (or the end), stripped |
| SemanticMemory.SectionsEqual | modules/semantic_memory.py:188-191 | After the last header the sections are complete |
| SemanticMemory.L0Node | modules/semantic_memory.py:146-158 | L0 has id = path = source id, level 0, no parent, and the first 500 characters as content |
| SemanticMemory.Level1 | modules/semantic_memory.py:194 | Only level-1 sections of the input are kept, and never more of them than there are sections |
| SemanticMemory.L1Nodes | modules/semantic_memory.py:194-203 | One L1 node per level-1 section |
| SemanticMemory.L1Node | modules/semantic_memory.py:195-203 | Node `{source}_L1_{i}` at level 1 under the source, titled by the section, with its content cut to at most 1000 characters |
| SemanticMemory.L1NodesStep | modules/semantic_memory.py:194-203 | The next section becomes node `{source}_L1_{i}` |
| SemanticMemory.BuildL1 | modules/semantic_memory.py:193-203 | The loop builds the specified L1 nodes |
| SemanticMemory.Level1Snoc | modules/semantic_memory.py:194 | The level-1 filter, one section at a time |
| SemanticMemory.Level1Split | modules/semantic_memory.py:194 | The level-1 filter distributes over concatenation |
| SemanticMemory.Level1AllOne | modules/semantic_memory.py:194 | When all sections are level 1, all are kept |
| SemanticMemory.Level1Keeps | modules/semantic_memory.py:194 | A level-1 section leaves the filtered list non-empty |
| SemanticMemory.NonEmptyStripped | modules/semantic_memory.py:226 | Dropping empty parts never adds parts |
| SemanticMemory.ParagraphNodes | modules/semantic_memory.py:227-236 | One L2 node per paragraph |
| SemanticMemory.ParagraphNode | modules/semantic_memory.py:227-236 | Node `{source}_L2_{i}` at level 2 under the source, holding the whole paragraph, titled by at most 50 of its characters and "..." |
| SemanticMemory.ParagraphNodesStep | modules/semantic_memory.py:227-236 | The next paragraph becomes node `{source}_L2_{i}` |
| SemanticMemory.BuildParagraphNodes | modules/semantic_memory.py:224-236 | The loop builds L2 nodes for at most the first 20 paragraphs |
| SemanticMemory.ParagraphShape | modules/semantic_memory.py:226 | Each paragraph is non-empty, stripped, and holds no blank-line separator |
| SemanticMemory.StrippedPart | modules/semantic_memory.py:226 | A stripped part of the split is paragraph-like |
| SemanticMemory.NonEmptyStrippedShape | modules/semantic_memory.py:226 | All kept parts are paragraph-like |
| SemanticMemory.StripIsInfix | modules/semantic_memory.py:226 | A stripped string is a contiguous piece of the original |
| SemanticMemory.InfixContains | modules/semantic_memory.py:226 | A separator inside a piece is inside the whole |
| SemanticMemory.Build | modules/semantic_memory.py:145-236 | A built hierarchy has the file's source id and its L0 node; the only failure is the subsection-branch error |
| SemanticMemory.Levels | modules/semantic_memory.py:241 | `levels` is at most 2 and is 0 iff both L1 and L2 are empty |
| SemanticMemory.Parse | modules/semantic_memory.py:138-249 | A missing file gives `File not found: <path>`; an unreadable one gives `Failed to parse hierarchy: <detail>` |
| SemanticMemory.ParseMarkdownHierarchy | modules/semantic_memory.py:119-249 | The imperative parse returns the specified result |
| SemanticMemory.FindSubsection | modules/semantic_memory.py:208 | The loop finds a level-2 section iff one exists |
| SemanticMemory.HeadersGiveOnlyL1 | modules/semantic_memory.py:165-223 | With the regex's matches (1–2 `#`) and at least one header, every header becomes an L1 node, no L2 node is built, and `levels` is 1 |
| SemanticMemory.SubsectionBranchRaises | modules/semantic_memory.py:206-213 | A level-1 and a level-2 section together make the parse fail with the list-index error |
| SemanticMemory.SectionLevelAt | modules/semantic_memory.py:178-182 | Section k has the level of header k |
| SemanticMemory.BuildRaises | modules/semantic_memory.py:206-213 | With L1 nodes and a subsection, the build fails |
| SemanticMemory.NoHeadersGiveParagraphs | modules/semantic_memory.py:224-236 | Without headers, L1 is empty and L2 holds nodes for at most the first 20 paragraphs |
| SemanticMemory.LevelsUnderRegex | modules/semantic_memory.py:238-243 | Under the regex, `levels` is 1 iff there are headers, 2 iff there are none but there is a paragraph, and 0 iff there are neither |
| SemanticMemory.ParseNumbers | modules/semantic_memory.py:194-236 | A parsed hierarchy numbers L0 as the source id and its nodes `{source}_L1_{i}` and `{source}_L2_{i}` consecutively |
| SemanticMemory.BuildNumbers | modules/semantic_memory.py:194-236 | The same for the build |
| SemanticMemory.NodesNumbered | modules/semantic_memory.py:195 | The node builders number consecutively |
| SemanticMemory.NodeIdInjective | modules/semantic_memory.py:195 | Different level or index gives a different L1/L2 id |
| SemanticMemory.NumberedIdsDistinct | modules/semantic_memory.py:194-236 | All ids of a numbered hierarchy are pairwise distinct |
| SemanticMemory.RecordOf | modules/semantic_memory.py:297-337 | A record carries the node's id, content and level; the domain and source file; and the parent id, or "" for L0 |
| SemanticMemory.Records | modules/semantic_memory.py:311-337 | One record per node, in order |
| SemanticMemory.RecordsStep | modules/semantic_memory.py:312-337 | Records one node at a time |
| SemanticMemory.AppendRecords | modules/semantic_memory.py:311-337 | The append loops add one record per node, in order |
| SemanticMemory.Batch | modules/semantic_memory.py:293-344 | One record for L0, then one per L1 node, then one per L2 node, in order |
| SemanticMemory.ListText | modules/semantic_memory.py:275 | The enabled domains are shown in brackets, `[]` when there are none |
| SemanticMemory.Ingest | modules/semantic_memory.py:252-358 | A batch is only prepared for an enabled domain |
| SemanticMemory.IngestDocument | modules/semantic_memory.py:252-358 | The imperative ingest returns the specified outcome and batch |
| SemanticMemory.IngestRejectsDisabledDomain | modules/semantic_memory.py:271-276 | A domain is refused, with the enabled list in the message and no batch, iff it is not enabled |
| SemanticMemory.ParseErrorText | modules/semantic_memory.py:279-281 | A failed parse always carries a non-empty message (`File not found: …` or `Failed to parse hierarchy: …`), which ingest passes on |
| SemanticMemory.IngestOrder | modules/semantic_memory.py:293-352 | On success, `nodes_added` = 1 + L1 + L2 = batch size, ids come in order L0, L1…, L2… with the domain set, and all ids are distinct |
| SemanticMemory.BatchIds | modules/semantic_memory.py:293-344 | The batch lists L0, then L1, then L2 ids, each record tagged with the domain |
| SessionPreferences.AfterFirst | modules/session_utils.py:115 | The text after the first ":" |
| SessionPreferences.Candidate | modules/session_utils.py:111-116 | A line answers iff it contains the key ignoring case and has a ":"; the answer is the stripped text after the first ":", shorter than the line |
| SessionPreferences.CandidatesOf | modules/session_utils.py:111-116 | One candidate answer per line |
| SessionPreferences.Candidates | modules/session_utils.py:111 | One candidate per line of the content |
| SessionPreferences.CandidatesOfConcat | modules/session_utils.py:111-116 | Candidates of joined line lists concatenate |
| SessionPreferences.Lookup | modules/session_utils.py:110-118 | No answer iff no line answers; otherwise the answer of the first line that answers |
| SessionPreferences.PreferenceText | modules/session_utils.py:101-121 | No file gives the "no preferences file exists" message, a read error gives "Error looking up preference: …", otherwise the lookup's value or the "not found in working_preferences.md" message |
| SessionPreferences.LoadText | modules/session_utils.py:10-42 | A readable file loads as its content; a read failure gives "Error reading preferences: " and the error; a missing file gives the "No working_preferences.md file found" help text |
| SessionPreferences.Save | modules/session_utils.py:62-82 | A save succeeds iff the file exists or is created, and the append succeeds. The new content is the old one (or the header `# Working Preferences` + blank line) + `- **key**: value` + newline, and the message is `Preference saved: key = value`. On failure the content is unchanged, or is just the header when only the append failed |
| SessionPreferences.PreferencesFile.constructor | modules/session_utils.py:26 | The file starts with the given content |
| SessionPreferences.PreferencesFile.LoadWorkingPreferences | modules/session_utils.py:10-42 | Loading returns the specified text |
| SessionPreferences.PreferencesFile.SaveWorkingPreference | modules/session_utils.py:45-82 | The file content and the result are the specified save |
| SessionPreferences.PreferencesFile.GetPreference | modules/session_utils.py:85-121 | The lookup returns the specified answer or message |
| SessionPreferences.PreferencesFile.ScanLines | modules/session_utils.py:110-118 | The early-return scan returns the first candidate answer |
| SessionPreferences.LookupConcat | modules/session_utils.py:111-118 | Lines that give no answer are skipped and the scan goes on |
| SessionPreferences.LookupConcatFound | modules/session_utils.py:111-116 | The first answering line wins over everything after it |
| SessionPreferences.ContainsIgnoringCaseInfix | modules/session_utils.py:112 | A line containing the key contains it ignoring case |
| SessionPreferences.StripSpaced | modules/session_utils.py:115 | Stripping the space after the colon gives the saved value back |
| SessionPreferences.AfterColon | modules/session_utils.py:115 | With no colon before it, the text after the first colon is what follows it |
| SessionPreferences.LineYieldsValue | modules/session_utils.py:72 | A saved line answers its own key with the saved value |
| SessionPreferences.KeyInsideName | modules/session_utils.py:112-116 | A saved line whose key name merely contains the looked-up key also answers it |
| SessionPreferences.SaveThenGet | modules/session_utils.py:66-116 | Saving key=value into a file where no line answers the key makes `get_preference(key)` yield value |
| SessionPreferences.SaveTwiceKeepsFirst | modules/session_utils.py:71-72 | A second save of one key is appended after the first, so the lookup keeps yielding the first value |
| SessionPreferences.HeaderHasNoValue | modules/session_utils.py:68 | The created header answers no key |
| SessionPreferences.LineHasNoBreak | modules/session_utils.py:72 | A saved line holds no line break |
| SessionPreferences.AppendedLineFound | modules/session_utils.py:71-72 | An appended line is what answers when nothing before it does |
| SessionPreferences.LookupOfLine | modules/session_utils.py:111-116 | A one-line file answers as that line does |
| SessionPreferences.LookupTrailing | modules/session_utils.py:111 | Dropping a final newline keeps "no answer" |
| SessionPreferences.LookupDropNewline | modules/session_utils.py:111 | A final newline adds an empty line, which answers nothing |
| Strings.Lower | black_orchid.py:402 | `lower()` maps each character to its lower-case form, keeping the length |
| Strings.Strip | modules/skills_loader.py:41 | `strip()` leaves no white space at either end and is never longer than its input (`StripIsInfix`: it is a contiguous piece of it) |
| Strings.LStripChar | modules/skills_loader.py:47 | `lstrip('#')` removes exactly the leading run of `#` |
| Strings.Split | modules/config_manager.py:65 | `split` never returns an empty list |
| Strings.SplitPartsFree | modules/semantic_memory.py:226 | No part of a split contains the separator |
| Strings.JoinSplit | modules/config_manager.py:65 | Joining the parts of a split with its separator gives the string back |
| Strings.Lines | modules/session_utils.py:111 | `split('\n')` gives at least one line and no line holds a newline |
| Strings.LinesConcat | modules/session_utils.py:111 | The lines of `p + "\n" + q` are the lines of p followed by those of q |
| Strings.LinesTrailing | modules/session_utils.py:72 | A final newline adds one empty last line |
| Strings.SingleLine | modules/session_utils.py:72 | A string without newline is one line |
| Strings.Truncate100 | modules/project_utils.py:89 | Cutting to 100 characters + "..." only when longer, so at most 103 characters |
| Strings.Take | modules/semantic_memory.py:156 | A Python `[:n]` slice is the prefix of length min(n, len) |
| Strings.NatToString | black_orchid.py:255 | The decimal text of a count: digits only, no leading zero |
| Strings.DigitsRoundTrip | black_orchid.py:255 | The decimal text reads back as the same number |
| Strings.NatToStringInjective | modules/semantic_memory.py:195 | Different numbers have different decimal texts |
| Strings.BelowTotal | black_orchid.py:99 | Python string order is total on distinct strings |
| Strings.BelowTransitive | black_orchid.py:99 | Python string order is transitive |
| Strings.SortedSet | black_orchid.py:99 | `sorted(dir())` is strictly sorted and holds exactly the set's names |
| Strings.Stem | black_orchid.py:84 | `Path.stem` + `Path.suffix` is the file name |
| Strings.Suffix | modules/project_utils.py:96 | `Path.suffix` is empty or a final dotted tail shorter than the name |

Two members have no contract of their own and no row. `RegistryModel.Discover` (black_orchid.py:56-79) is pinned by `DiscoverStep`, `DiscoverPartition`, `DiscoverAccepted` and `DiscoverRejected`. `FileDescriptions.JsCandidate` (modules/project_utils.py:55-73) is pinned by `JsCandidateShape`, `JsFirstDescribing` and `JsNoneIff`.

## Left out

- Python's import machinery is the `Host.exec` oracle: `spec_from_file_location`, `module_from_spec`, `sys.modules`, `exec_module` and `importlib.reload`. Execution answers a namespace, "no loader" or an exception with the bindings made before it. The reload-then-fresh-import fallback of the full reload (black_orchid.py:220-231) is one execution whose `Executed` answer is a fresh namespace. `glob`, `Path.resolve`, `exists` and read + `ast.parse` are oracles too.
- ReloadAllForgets: start-up puts every loaded stem into `sys.modules` (black_orchid.py:93), so a full reload first calls `importlib.reload` on the old module object (:220-223). The fresh import of :224-231 runs only when that call raises, as it does for a stem that cannot be imported from `sys.path`. A successful `importlib.reload` is not modelled. It happens when `modules/` is on `sys.path`, or when the stem is also an importable module name such as `json`, in which case even a different file runs. It runs inside the old module object, so bindings from the previous run survive. The lemma holds under the reading that every `Executed` answer of a full reload is a fresh namespace.
- ReloadAllRebuildsInit: rests on the same reading. When `importlib.reload` succeeds into the old module object, the rebuilt state can differ from the constructed one.
- Traceback text, exception classes and the FastMCP server, its tool wrappers, `check_time` and `explain_black_orchid` are left out: they are presentation and transport.
- Dict insertion order is not modelled. The registry, tracker and namespaces are maps, so the order of `list_tools` and of the key list in the KeyError text is lost. `tools_added` and `tools_removed` are sets, not lists.
- Calling the tool: `UseProxyTool` returns the bound callable instead of calling it with kwargs, because the callable is foreign code.
- String operations use an ASCII model of case (`lower`, `islower`, `title`) and Python's white-space set for `strip`. There is no Unicode case mapping.
- `threading.Lock` and the YAML file reading and writing in config_manager.py are left out. Load results are a parameter, and the write after `set_config` is not modelled, so its `IOError` path is missing too.
- ConfigManager.ConfigStore.SetConfig: the success message takes the shown text of the value as a parameter `shown`, because Python's `str()` of an arbitrary YAML value is not modelled.
- ConfigManager.SetNestedValue: the dictionaries are values, so aliasing between nested dicts (a dict stored under two keys changing in both) is not captured.
- ProjectTree.SortItems: stability of `list.sort` is not proved. Entries equal in the sort key (the same lower-cased name and kind) may come out in either order.
- Node paths (`path`), file stats (`size`, `modified`) and `processing_time_seconds` are left out: they are file-system and clock data. `include_stats` is kept only in the cache key and the echoed filters.
- The catch-all error result of `full_project_tree` (modules/project_utils.py:278-283) is left out, because every modelled step is total.
- A package.json `description` that is not a string, and YAML files whose top level is not a mapping, are left out. The facts are strings and maps.
- `_extract_python_docstring` uses `ast.parse`. The module docstring it finds is an input fact per file.
- RegistryModel.ReinstallSound: it does not state where another module's entry goes when a re-registered name collides with it and renames it. It only states that entries the re-registered names cannot reach are kept.
- FileDescriptions.CommentBlock: its own contract bounds only the length. The stop before the first `*/` line is stated one line at a time by `CommentBlockStep` and `CommentBlockStop`.
- `spawn_subagent_with_skill` is left out: it only fills a text template.
- ChromaDB is left out: `initialize_semantic_memory`, `get_collections`, `query_memory` with its float similarity, `rebuild_domain` and the collection creation in `ingest_document`. The upsert outcome is an optional error.
- The header regular expression is not run. Its matches are an input (start, end, number of `#`, raw title), and `RegexMatches` states what the pattern can give.
- The hierarchy's `file_path` field and path normalisation are left out; the source id is taken from the last `/`-separated component.
- SemanticMemory.ListText: Python's list `repr` quotes strings with single quotes. The model does this only for names without quote characters.
- The three parallel lists `ids`, `documents` and `metadatas` are modelled as one list of records.
- `get_enabled_domains`: config_manager.py defines no `get_enabled_domains`, so the import at `modules/semantic_memory.py:23-30` falls back to `['technical', 'library']`; the model takes the enabled domains as a parameter.
- Skill files listed by `glob('*.md')` are given by the disk value in listing order.
- modules/system_utils.py is not part of this model.
