/**
 * The annotated project tree (modules/project_utils.py:114-283): a scan of
 * the directory hierarchy into nodes, the filter by file extension, the
 * indented text rendering and the five-minute result cache.
 *
 * The file system is the `Disk` parameter: directory listings, the facts the
 * description extractors need per file, path resolution and existence.
 * Paths are sequences of components.
 */
module ProjectTree {
  import opened Wrappers
  import opened Strings
  import opened FileDescriptions

  /**
   * A node of `tree_structure`: a file with its description ("" when it has
   * none) or a directory; `hasChildren` says whether the node has a
   * `children` key, which the scan always sets.
   */
  datatype Node = File(name: string, description: string) | Dir(name: string, hasChildren: bool, children: seq<Node>)

  // ---------------------------------------------------------------------
  // Text rendering: `_format_tree_output` (modules/project_utils.py:168-196)
  // ---------------------------------------------------------------------

  const FolderIcon := "\U{1F4C1}"

  /** The icon of a file, by the first test that applies. */
  function Icon(name: string): (r: string)
    ensures r != FolderIcon
    ensures EndsWith(name, ".py") ==> r == "\U{1F40D}"
    ensures r == "\U{1F4D6}" ==> StartsWith(Lower(name), "readme") && !EndsWith(name, ".py") && !EndsWith(name, ".json")
  {
    if EndsWith(name, ".py") then "\U{1F40D}"
    else if EndsWith(name, ".js") || EndsWith(name, ".ts") || EndsWith(name, ".jsx") || EndsWith(name, ".tsx") then "\U{26A1}"
    else if EndsWith(name, ".json") then "\U{1F4CB}"
    else if StartsWith(Lower(name), "readme") then "\U{1F4D6}"
    else "\U{1F4C4}"
  }

  /** The line of one node: a folder with a trailing slash, or an icon, the name and " - description" when there is one. */
  function Line(t: Node, indent: string): string
  {
    match t
    case Dir(name, _, _) => indent + FolderIcon + " " + name + "/"
    case File(name, desc) => indent + Icon(name) + " " + name + (if desc != "" then " - " + desc else "")
  }

  function FormatTree(t: Node, indent: string): (lines: seq<string>)
    ensures |lines| >= 1 && lines[0] == Line(t, indent)
    decreases t
  {
    [Line(t, indent)] + match t {
      case Dir(_, true, cs) => FormatForest(cs, indent + "  ")
      case _ => []
    }
  }

  function FormatForest(ts: seq<Node>, indent: string): seq<string>
    decreases ts
  {
    if ts == [] then [] else FormatTree(ts[0], indent) + FormatForest(ts[1..], indent)
  }

  /** Every node with its nesting depth below the node it starts from, in pre-order. */
  function Preorder(t: Node, depth: nat): (ps: seq<(Node, nat)>)
    ensures |ps| >= 1 && ps[0] == (t, depth)
    decreases t
  {
    [(t, depth)] + match t {
      case Dir(_, true, cs) => PreorderForest(cs, depth + 1)
      case _ => []
    }
  }

  function PreorderForest(ts: seq<Node>, depth: nat): seq<(Node, nat)>
    decreases ts
  {
    if ts == [] then [] else Preorder(ts[0], depth) + PreorderForest(ts[1..], depth)
  }

  function Spaces(n: nat): (r: string)
    ensures |r| == n && forall i :: 0 <= i < n ==> r[i] == ' '
  {
    seq(n, _ => ' ')
  }

  /** One line per entry, indented two spaces per level of depth. */
  function LinesOf(ps: seq<(Node, nat)>, indent: string): (r: seq<string>)
    ensures |r| == |ps|
  {
    seq(|ps|, i requires 0 <= i < |ps| => Line(ps[i].0, indent + Spaces(2 * ps[i].1)))
  }

  lemma LinesOfAppend(a: seq<(Node, nat)>, b: seq<(Node, nat)>, indent: string)
    ensures LinesOf(a + b, indent) == LinesOf(a, indent) + LinesOf(b, indent)
  {
  }

  lemma SpacesStep(indent: string, depth: nat)
    ensures indent + Spaces(2 * depth) + "  " == indent + Spaces(2 * (depth + 1))
  {
    assert Spaces(2 * depth) + "  " == Spaces(2 * (depth + 1));
  }

  /**
   * The rendering has exactly one line per node, in pre-order, each level of
   * nesting indented two more spaces than its parent.
   */
  lemma {:induction false} FormatIsPreorder(t: Node, indent: string, depth: nat)
    ensures FormatTree(t, indent + Spaces(2 * depth)) == LinesOf(Preorder(t, depth), indent)
    decreases t
  {
    match t {
      case Dir(_, true, cs) =>
        SpacesStep(indent, depth);
        FormatForestIsPreorder(cs, indent, depth + 1);
        LinesOfAppend([(t, depth)], PreorderForest(cs, depth + 1), indent);
      case _ =>
    }
  }

  lemma {:induction false} FormatForestIsPreorder(ts: seq<Node>, indent: string, depth: nat)
    ensures FormatForest(ts, indent + Spaces(2 * depth)) == LinesOf(PreorderForest(ts, depth), indent)
    decreases ts
  {
    if ts != [] {
      FormatIsPreorder(ts[0], indent, depth);
      FormatForestIsPreorder(ts[1..], indent, depth);
      LinesOfAppend(Preorder(ts[0], depth), PreorderForest(ts[1..], depth), indent);
    }
  }

  /** `total_items`: the rendering of a tree from the top lists each of its nodes once, unindented at the root. */
  lemma TotalItemsCountsNodes(t: Node)
    ensures FormatTree(t, "") == LinesOf(Preorder(t, 0), "")
    ensures |FormatTree(t, "")| == |Preorder(t, 0)|
  {
    FormatIsPreorder(t, "", 0);
    assert "" + Spaces(2 * 0) == "";
  }

  // ---------------------------------------------------------------------
  // The extension filter: `filter_tree` (modules/project_utils.py:239-252)
  // ---------------------------------------------------------------------

  predicate Matches(t: Node, ext: string)
  {
    t.File? && EndsWith(t.name, "." + ext)
  }

  /** Whether a node survives, and what is left of it. */
  function Keep(t: Node, ext: string): (r: Option<Node>)
    ensures r.Some? ==> r.value.name == t.name && r.value.Dir? == t.Dir?
    ensures t.File? ==> (r.Some? <==> Matches(t, ext)) && (r.Some? ==> r.value == t)
    decreases t
  {
    match t
    case File(_, _) => if Matches(t, ext) then Some(t) else None
    case Dir(_, false, _) => Some(t)
    case Dir(name, true, cs) =>
      var kept := KeepForest(cs, ext);
      if kept != [] then Some(Dir(name, true, kept)) else None
  }

  function KeepForest(ts: seq<Node>, ext: string): (r: seq<Node>)
    ensures |r| <= |ts|
    decreases ts
  {
    if ts == [] then []
    else
      match Keep(ts[0], ext)
      case Some(u) => [u] + KeepForest(ts[1..], ext)
      case None => KeepForest(ts[1..], ext)
  }

  /** The root is never removed; only its children are filtered. */
  function FilterRoot(t: Node, ext: string): (r: Node)
    ensures r.name == t.name && r.Dir? == t.Dir?
  {
    match t
    case Dir(name, true, cs) => Dir(name, true, KeepForest(cs, ext))
    case _ => t
  }

  /** The files of a tree, in pre-order. */
  function Files(t: Node): seq<Node>
    decreases t
  {
    match t
    case File(_, _) => [t]
    case Dir(_, false, _) => []
    case Dir(_, true, cs) => FilesForest(cs)
  }

  function FilesForest(ts: seq<Node>): seq<Node>
    decreases ts
  {
    if ts == [] then [] else Files(ts[0]) + FilesForest(ts[1..])
  }

  function FilesOpt(t: Option<Node>): seq<Node>
  {
    if t.Some? then Files(t.value) else []
  }

  /** The files with the extension, order kept. */
  function Matching(fs: seq<Node>, ext: string): (r: seq<Node>)
    ensures forall f :: f in r <==> f in fs && Matches(f, ext)
  {
    if fs == [] then []
    else if Matches(fs[0], ext) then [fs[0]] + Matching(fs[1..], ext)
    else Matching(fs[1..], ext)
  }

  lemma {:induction false} MatchingAppend(a: seq<Node>, b: seq<Node>, ext: string)
    ensures Matching(a + b, ext) == Matching(a, ext) + Matching(b, ext)
  {
    if a != [] {
      assert (a + b)[1..] == a[1..] + b;
      MatchingAppend(a[1..], b, ext);
    } else {
      assert a + b == b;
    }
  }

  lemma {:induction false} KeepFiles(t: Node, ext: string)
    ensures FilesOpt(Keep(t, ext)) == Matching(Files(t), ext)
    decreases t
  {
    match t {
      case File(_, _) =>
      case Dir(_, false, _) =>
      case Dir(name, true, cs) =>
        KeepForestFiles(cs, ext);
    }
  }

  lemma {:induction false} KeepForestFiles(ts: seq<Node>, ext: string)
    ensures FilesForest(KeepForest(ts, ext)) == Matching(FilesForest(ts), ext)
    decreases ts
  {
    if ts != [] {
      KeepFiles(ts[0], ext);
      KeepForestFiles(ts[1..], ext);
      MatchingAppend(Files(ts[0]), FilesForest(ts[1..]), ext);
      match Keep(ts[0], ext) {
        case Some(u) =>
          assert ([u] + KeepForest(ts[1..], ext))[1..] == KeepForest(ts[1..], ext);
        case None =>
      }
    }
  }

  /** Filtering keeps exactly the files with the extension, in their order. */
  lemma FilterKeepsMatchingFiles(t: Node, ext: string)
    requires t.Dir?
    ensures Files(FilterRoot(t, ext)) == Matching(Files(t), ext)
  {
    match t {
      case Dir(name, true, cs) => KeepForestFiles(cs, ext);
      case _ =>
    }
  }

  /** No directory below the root that has a children list is left with an empty one. */
  predicate NoEmptyDirs(t: Node)
    decreases t
  {
    match t
    case File(_, _) => true
    case Dir(_, false, _) => true
    case Dir(_, true, cs) => cs != [] && AllNoEmptyDirs(cs)
  }

  predicate AllNoEmptyDirs(ts: seq<Node>)
    decreases ts
  {
    ts == [] || (NoEmptyDirs(ts[0]) && AllNoEmptyDirs(ts[1..]))
  }

  lemma {:induction false} KeepLeavesNoEmptyDirs(t: Node, ext: string)
    ensures Keep(t, ext).Some? ==> NoEmptyDirs(Keep(t, ext).value)
    decreases t
  {
    match t {
      case File(_, _) =>
      case Dir(_, false, _) =>
      case Dir(_, true, cs) => KeepForestLeavesNoEmptyDirs(cs, ext);
    }
  }

  lemma {:induction false} KeepForestLeavesNoEmptyDirs(ts: seq<Node>, ext: string)
    ensures AllNoEmptyDirs(KeepForest(ts, ext))
    decreases ts
  {
    if ts != [] {
      KeepLeavesNoEmptyDirs(ts[0], ext);
      KeepForestLeavesNoEmptyDirs(ts[1..], ext);
      match Keep(ts[0], ext) {
        case Some(u) =>
          assert ([u] + KeepForest(ts[1..], ext))[1..] == KeepForest(ts[1..], ext);
        case None =>
      }
    }
  }

  // ---------------------------------------------------------------------
  // The scan: `_build_tree_structure` (modules/project_utils.py:114-166)
  // ---------------------------------------------------------------------

  /** An entry of a directory listing. */
  datatype Item = Item(name: string, isFile: bool)

  /** The sort key `(is_file, name.lower())`: directories first, then by lower-cased name. */
  predicate KeyBelow(a: Item, b: Item)
  {
    (!a.isFile && b.isFile) || (a.isFile == b.isFile && Below(Lower(a.name), Lower(b.name)))
  }

  lemma KeyAsymmetric(a: Item, b: Item)
    requires KeyBelow(a, b)
    ensures !KeyBelow(b, a)
  {
    if a.isFile == b.isFile {
      BelowAsymmetric(Lower(a.name), Lower(b.name));
    }
  }

  /** The key order is a strict weak order: being below `a` passes over any `b` in between. */
  lemma KeyNegativeTransitive(c: Item, b: Item, a: Item)
    requires KeyBelow(c, a)
    ensures KeyBelow(c, b) || KeyBelow(b, a)
  {
    if c.isFile == a.isFile && b.isFile == a.isFile {
      var lc, lb, la := Lower(c.name), Lower(b.name), Lower(a.name);
      if lb == la {
      } else if lb == lc {
      } else {
        BelowTotal(lb, la);
        if Below(la, lb) {
          BelowTransitive(lc, la, lb);
        }
      }
    }
  }

  predicate SortedItems(s: seq<Item>)
  {
    forall i, j :: 0 <= i < j < |s| ==> !KeyBelow(s[j], s[i])
  }

  /** `x` put before the first element whose key is not below its own. */
  function InsertItem(x: Item, s: seq<Item>): (r: seq<Item>)
    ensures multiset(r) == multiset(s) + multiset{x}
    ensures |r| == |s| + 1
    ensures SortedItems(s) ==> SortedItems(r)
  {
    if s == [] || !KeyBelow(s[0], x) then
      InsertFront(x, s);
      [x] + s
    else
      var rest := InsertItem(x, s[1..]);
      assert s == [s[0]] + s[1..];
      InsertBehind(x, s, rest);
      [s[0]] + rest
  }

  lemma InsertFront(x: Item, s: seq<Item>)
    requires s == [] || !KeyBelow(s[0], x)
    ensures SortedItems(s) ==> SortedItems([x] + s)
  {
    if SortedItems(s) && s != [] {
      forall j | 1 <= j < |s| + 1 ensures !KeyBelow(([x] + s)[j], x) {
        if KeyBelow(s[j - 1], x) {
          KeyNegativeTransitive(s[j - 1], s[0], x);
        }
      }
    }
  }

  lemma InsertBehind(x: Item, s: seq<Item>, rest: seq<Item>)
    requires s != [] && KeyBelow(s[0], x)
    requires multiset(rest) == multiset(s[1..]) + multiset{x}
    requires SortedItems(s[1..]) ==> SortedItems(rest)
    ensures SortedItems(s) ==> SortedItems([s[0]] + rest)
  {
    if SortedItems(s) {
      assert SortedItems(s[1..]);
      forall j | 0 <= j < |rest| ensures !KeyBelow(rest[j], s[0]) {
        assert rest[j] in multiset(rest);
        if rest[j] == x {
          KeyAsymmetric(s[0], x);
        } else {
          assert rest[j] in multiset(s[1..]);
          var k :| 0 <= k < |s[1..]| && s[1..][k] == rest[j];
          assert s[k + 1] == rest[j];
        }
      }
    }
  }

  /** `items.sort(key=lambda x: (x.is_file(), x.name.lower()))`: an insertion sort, stable like Python's. */
  function SortItems(s: seq<Item>): (r: seq<Item>)
    ensures SortedItems(r)
    ensures multiset(r) == multiset(s)
    ensures |r| == |s|
  {
    if s == [] then []
    else
      assert s == [s[0]] + s[1..];
      InsertItem(s[0], SortItems(s[1..]))
  }

  /** The file system as seen by the scan and by `full_project_tree`. */
  datatype Disk = Disk(
    listDir: seq<string> -> Option<seq<Item>>,   // `iterdir()`, or None when it raises
    facts: seq<string> -> FileFacts,
    resolve: string -> seq<string>,
    cwd: string,
    isPresent: seq<string> -> bool)

  /** The `description` key of a file node, absent when the extractor found nothing or an empty string. */
  function Describe(name: string, facts: FileFacts): string
  {
    match FileDescription(name, facts)
    case Some(d) => d
    case None => ""
  }

  /** The children appended to the node of the directory `path` at `depth`; nothing is scanned below depth 10. */
  function Scan(disk: Disk, path: seq<string>, depth: nat): (r: seq<Node>)
    ensures depth > 10 || disk.listDir(path).None? ==> r == []
    ensures depth <= 10 && disk.listDir(path).Some? ==> |r| == |disk.listDir(path).value|
    ensures depth <= 10 && disk.listDir(path).Some? ==> forall k :: 0 <= k < |r| ==>
      r[k].name == SortItems(disk.listDir(path).value)[k].name && (r[k].File? <==> SortItems(disk.listDir(path).value)[k].isFile)
    decreases 11 - depth, 1, 0
  {
    if depth > 10 then []
    else
      match disk.listDir(path)
      case None => []
      case Some(items) => ScanItems(disk, path, SortItems(items), depth)
  }

  function ScanItems(disk: Disk, path: seq<string>, items: seq<Item>, depth: nat): (r: seq<Node>)
    requires depth <= 10
    ensures |r| == |items|
    ensures forall k :: 0 <= k < |r| ==> r[k].name == items[k].name && (r[k].File? <==> items[k].isFile)
    ensures forall k :: 0 <= k < |r| ==> r[k].Dir? ==> r[k].hasChildren
    decreases 11 - depth, 0, |items|
  {
    if items == [] then []
    else [ItemNode(disk, path, items[0], depth)] + ScanItems(disk, path, items[1..], depth)
  }

  /** The node of one listed entry: a file with its description, or a directory scanned one level deeper. */
  function ItemNode(disk: Disk, path: seq<string>, item: Item, depth: nat): (node: Node)
    requires depth <= 10
    ensures node.name == item.name && (node.File? <==> item.isFile) && (node.Dir? ==> node.hasChildren)
    decreases 11 - depth, 0, 0
  {
    if item.isFile then File(item.name, Describe(item.name, disk.facts(path + [item.name])))
    else Dir(item.name, true, Scan(disk, path + [item.name], depth + 1))
  }

  function LastName(p: seq<string>): string
  {
    if p == [] then "" else p[|p| - 1]
  }

  function BuildTree(disk: Disk, root: seq<string>): (t: Node)
    ensures t.Dir? && t.name == LastName(root) && t.hasChildren
  {
    Dir(LastName(root), true, Scan(disk, root, 0))
  }

  function Height(t: Node): nat
    decreases t
  {
    match t
    case Dir(_, true, cs) => 1 + ForestHeight(cs)
    case _ => 1
  }

  function ForestHeight(ts: seq<Node>): nat
    decreases ts
  {
    if ts == [] then 0
    else
      var h, rest := Height(ts[0]), ForestHeight(ts[1..]);
      if h < rest then rest else h
  }

  lemma {:induction false} ScanHeight(disk: Disk, path: seq<string>, depth: nat)
    requires depth <= 11
    ensures ForestHeight(Scan(disk, path, depth)) <= 11 - depth
    decreases 11 - depth, 1, 0
  {
    if depth <= 10 && disk.listDir(path).Some? {
      ScanItemsHeight(disk, path, SortItems(disk.listDir(path).value), depth);
    }
  }

  lemma {:induction false} ScanItemsHeight(disk: Disk, path: seq<string>, items: seq<Item>, depth: nat)
    requires depth <= 10
    ensures ForestHeight(ScanItems(disk, path, items, depth)) <= 11 - depth
    decreases 11 - depth, 0, |items|
  {
    if items != [] {
      ItemNodeHeight(disk, path, items[0], depth);
      ScanItemsHeight(disk, path, items[1..], depth);
      var r := ScanItems(disk, path, items, depth);
      assert r[0] == ItemNode(disk, path, items[0], depth);
      assert r[1..] == ScanItems(disk, path, items[1..], depth);
    }
  }

  lemma {:induction false} ItemNodeHeight(disk: Disk, path: seq<string>, item: Item, depth: nat)
    requires depth <= 10
    ensures Height(ItemNode(disk, path, item, depth)) <= 11 - depth
    decreases 11 - depth, 0, 0
  {
    if item.isFile {
      LeafHeight(ItemNode(disk, path, item, depth));
    } else {
      ScanHeight(disk, path + [item.name], depth + 1);
    }
  }

  lemma LeafHeight(t: Node)
    requires t.File?
    ensures Height(t) == 1
  {
  }

  /** The scan stops at depth 10 whatever `max_depth` asks for: a built tree is at most 12 nodes deep. */
  lemma TreeDepthBounded(disk: Disk, root: seq<string>)
    ensures Height(BuildTree(disk, root)) <= 12
  {
    ScanHeight(disk, root, 0);
  }

  // ---------------------------------------------------------------------
  // `full_project_tree` and its cache (modules/project_utils.py:198-283)
  // ---------------------------------------------------------------------

  const CacheDuration := 300

  datatype TreeResult =
    | TreeOk(projectRoot: string, tree: Node, formattedOutput: string, totalItems: nat,
             includeStats: bool, filterType: Option<string>, maxDepth: int)
    | TreeError(error: string, projectRoot: string)

  function PathText(p: seq<string>): string
  {
    "/" + Join(p, "/")
  }

  /** Python's `str()` of an optional string and of a boolean, as used in the cache key. */
  function ShowOption(o: Option<string>): string
  {
    if o.Some? then o.value else "None"
  }

  function ShowBool(b: bool): string
  {
    if b then "True" else "False"
  }

  /** The key joins the four arguments' Python texts with '_'. */
  function CacheKey(projectRoot: Option<string>, includeStats: bool, filterType: Option<string>, maxDepth: int): (r: string)
    ensures StartsWith(r, ShowOption(projectRoot) + "_" + ShowBool(includeStats) + "_")
    ensures EndsWith(r, "_" + IntToString(maxDepth))
  {
    var head := ShowOption(projectRoot) + "_" + ShowBool(includeStats) + "_";
    var tail := "_" + IntToString(maxDepth);
    ConcatAffixes(head, ShowOption(filterType), tail);
    head + ShowOption(filterType) + tail
  }

  /** `_get_project_root`: the given root when it is a non-empty string, the working directory otherwise. */
  function RootPath(disk: Disk, projectRoot: Option<string>): (r: seq<string>)
    ensures projectRoot.Some? && projectRoot.value != "" ==> r == disk.resolve(projectRoot.value)
    ensures projectRoot.None? || projectRoot.value == "" ==> r == disk.resolve(disk.cwd)
  {
    disk.resolve(if projectRoot.Some? && projectRoot.value != "" then projectRoot.value else disk.cwd)
  }

  /** The uncached result: scan, filter when a non-empty extension is given, render. */
  function Generate(disk: Disk, projectRoot: Option<string>, includeStats: bool, filterType: Option<string>, maxDepth: int): (r: TreeResult)
    ensures r.TreeOk? <==> disk.isPresent(RootPath(disk, projectRoot))
    ensures r.TreeOk? ==> r.tree.Dir? && r.tree.name == LastName(RootPath(disk, projectRoot))
    ensures r.TreeOk? ==> r.totalItems == |Preorder(r.tree, 0)|
    ensures r.TreeOk? && filterType.Some? && filterType.value != "" ==>
      Files(r.tree) == Matching(Files(BuildTree(disk, RootPath(disk, projectRoot))), filterType.value)
    ensures r.TreeOk? ==>
      var built := BuildTree(disk, RootPath(disk, projectRoot));
      r.tree == if filterType.Some? && filterType.value != "" then FilterRoot(built, filterType.value) else built
    ensures r.TreeOk? ==> r.formattedOutput == Join(FormatTree(r.tree, ""), "\n")
    ensures r.TreeOk? ==>
      r.projectRoot == PathText(RootPath(disk, projectRoot))
      && r.includeStats == includeStats && r.filterType == filterType && r.maxDepth == maxDepth
    ensures r.TreeError? ==>
      var root := PathText(RootPath(disk, projectRoot));
      r.error == "Project root does not exist: " + root && r.projectRoot == root
  {
    var root := RootPath(disk, projectRoot);
    if !disk.isPresent(root) then
      TreeError("Project root does not exist: " + PathText(root), PathText(root))
    else
      var built := BuildTree(disk, root);
      var tree := if filterType.Some? && filterType.value != "" then FilterRoot(built, filterType.value) else built;
      var lines := FormatTree(tree, "");
      TotalItemsCountsNodes(tree);
      FilterKeepsMatchingFiles(built, if filterType.Some? then filterType.value else "");
      TreeOk(PathText(root), tree, Join(lines, "\n"), |lines|, includeStats, filterType, maxDepth)
  }

  /** The two cache globals: stored results by key, and the one timestamp of the latest store. */
  datatype CacheState = CacheState(entries: map<string, TreeResult>, timestamp: int)

  /** One call of `full_project_tree` at time `now`. */
  function TreeCall(st: CacheState, disk: Disk, projectRoot: Option<string>, includeStats: bool,
                    filterType: Option<string>, maxDepth: int, now: int): (r: (CacheState, TreeResult))
    ensures var key := CacheKey(projectRoot, includeStats, filterType, maxDepth);
      now - st.timestamp < CacheDuration && key in st.entries ==> r == (st, st.entries[key])
    ensures var key := CacheKey(projectRoot, includeStats, filterType, maxDepth);
      !(now - st.timestamp < CacheDuration && key in st.entries) ==>
        r.1 == Generate(disk, projectRoot, includeStats, filterType, maxDepth)
    ensures r.0 == st || (r.1.TreeOk? && r.0.timestamp == now
      && r.0.entries == st.entries[CacheKey(projectRoot, includeStats, filterType, maxDepth) := r.1])
    ensures r.1.TreeError? ==> r.0 == st
  {
    var key := CacheKey(projectRoot, includeStats, filterType, maxDepth);
    if now - st.timestamp < CacheDuration && key in st.entries then (st, st.entries[key])
    else
      var r := Generate(disk, projectRoot, includeStats, filterType, maxDepth);
      if r.TreeError? then (st, r)
      else (CacheState(st.entries[key := r], now), r)
  }

  /** A call repeated within 300 seconds of a stored result returns that result, whatever the disk now holds. */
  lemma RepeatWithinWindow(st: CacheState, disk: Disk, disk': Disk, projectRoot: Option<string>, includeStats: bool,
                           filterType: Option<string>, maxDepth: int, now: int, now': int)
    requires TreeCall(st, disk, projectRoot, includeStats, filterType, maxDepth, now).1.TreeOk?
    requires now' - now < CacheDuration
    requires now - st.timestamp >= CacheDuration || CacheKey(projectRoot, includeStats, filterType, maxDepth) !in st.entries
    ensures var (st1, r1) := TreeCall(st, disk, projectRoot, includeStats, filterType, maxDepth, now);
      TreeCall(st1, disk', projectRoot, includeStats, filterType, maxDepth, now') == (st1, r1)
  {
  }

  /**
   * The timestamp is shared by all keys: storing a result for one key makes
   * every older entry current again for another 300 seconds.
   */
  lemma SharedTimestamp(st: CacheState, disk: Disk, disk': Disk, projectRoot: Option<string>, includeStats: bool,
                        filterType: Option<string>, maxDepth: int, now: int, now': int, otherKey: string)
    requires otherKey in st.entries && otherKey != CacheKey(projectRoot, includeStats, filterType, maxDepth)
    requires TreeCall(st, disk, projectRoot, includeStats, filterType, maxDepth, now).1.TreeOk?
    requires now - st.timestamp >= CacheDuration
    requires now' - now < CacheDuration
    ensures var st1 := TreeCall(st, disk, projectRoot, includeStats, filterType, maxDepth, now).0;
      otherKey in st1.entries && st1.entries[otherKey] == st.entries[otherKey] && now' - st1.timestamp < CacheDuration
  {
  }

  /** The module-level cache of `full_project_tree`. */
  class TreeCache {
    var entries: map<string, TreeResult>
    var timestamp: int

    function State(): CacheState
      reads this
    {
      CacheState(entries, timestamp)
    }

    constructor ()
      ensures State() == CacheState(map[], 0)
    {
      entries := map[];
      timestamp := 0;
    }

    method FullProjectTree(disk: Disk, projectRoot: Option<string>, includeStats: bool,
                           filterType: Option<string>, maxDepth: int, now: int) returns (r: TreeResult)
      modifies this
      ensures (State(), r) == TreeCall(old(State()), disk, projectRoot, includeStats, filterType, maxDepth, now)
    {
      var key := CacheKey(projectRoot, includeStats, filterType, maxDepth);
      if now - timestamp < CacheDuration && key in entries {
        return entries[key];
      }
      r := Generate(disk, projectRoot, includeStats, filterType, maxDepth);
      if r.TreeError? {
        return;
      }
      entries := entries[key := r];
      timestamp := now;
    }
  }
}
