/**
 * The hierarchy that semantic memory builds from a markdown document and
 * the batch it hands to the vector store (modules/semantic_memory.py).
 *
 * A document has one L0 node for the file, one L1 node per header section
 * and, when there are no headers, up to 20 L2 nodes, one per paragraph. The
 * header regular expression `^(#{1,2})\s+(.+)$` is not modelled: its matches
 * are an input, each with its start and end offsets, the number of '#' marks
 * and the raw title text. File existence and reading are the `FileRead`
 * input, the enabled domains a list, and the outcome of the store's upsert an
 * optional error.
 */
module SemanticMemory {
  import opened Wrappers
  import opened Strings

  // ---------------------------------------------------------------------
  // Inputs and nodes
  // ---------------------------------------------------------------------

  datatype HeaderMatch = HeaderMatch(start: nat, end: nat, hashes: nat, title: string)

  /** What the header pattern can produce: one or two '#' marks. */
  predicate RegexMatches(matches: seq<HeaderMatch>)
  {
    forall k :: 0 <= k < |matches| ==> 1 <= matches[k].hashes <= 2
  }

  datatype FileRead = Missing | Unreadable(detail: string) | Text(content: string)

  datatype Section = Section(level: nat, title: string, position: nat, content: string)

  datatype MemoryNode = MemoryNode(nodeId: string, title: string, level: nat, parentId: Option<string>, content: string, path: string)

  datatype Hierarchy = Hierarchy(sourceId: string, l0: MemoryNode, l1: seq<MemoryNode>, l2: seq<MemoryNode>)

  datatype Parsed = Parsed(hierarchy: Hierarchy, levels: nat)

  /** Python's `s[i:j]` for non-negative bounds: out-of-range bounds are clamped. */
  function Slice(s: string, i: nat, j: nat): (r: string)
    ensures i <= j <= |s| ==> r == s[i..j]
    ensures j < i ==> r == ""
    ensures |s| < j ==> r == Slice(s, i, |s|)
  {
    var hi := if j <= |s| then j else |s|;
    if i >= hi then "" else s[i..hi]
  }

  /** `s.replace('_', ' ')`. */
  function Unscore(s: string): (r: string)
    ensures |r| == |s| && '_' !in r
    ensures forall k :: 0 <= k < |s| ==> r[k] == (if s[k] == '_' then ' ' else s[k])
  {
    seq(|s|, k requires 0 <= k < |s| => if s[k] == '_' then ' ' else s[k])
  }

  /** The name of the last component of a path, as `PurePath` reads it: empty and "." components are dropped. */
  function LastComponent(parts: seq<string>): (r: string)
    ensures r != "" ==> r in parts && r != "."
  {
    if parts == [] then ""
    else if parts[|parts| - 1] == "" || parts[|parts| - 1] == "." then LastComponent(parts[..|parts| - 1])
    else parts[|parts| - 1]
  }

  /** `Path(file_path).stem`. */
  function SourceIdOf(filePath: string): (r: string)
    ensures r + Suffix(LastComponent(Split(filePath, "/"))) == LastComponent(Split(filePath, "/"))
  {
    Stem(LastComponent(Split(filePath, "/")))
  }

  /** `f"{source_id}_L{level}_{idx}"`. */
  function NodeId(sourceId: string, level: nat, index: nat): string
  {
    sourceId + "_L" + NatToString(level) + "_" + NatToString(index)
  }

  // ---------------------------------------------------------------------
  // Sections (modules/semantic_memory.py:163-191)
  // ---------------------------------------------------------------------

  /** `1 if level <= 2 else 2`. */
  function SectionLevel(hashes: nat): (l: nat)
    ensures l == 1 || l == 2
    ensures l == 1 <==> hashes <= 2
  {
    if hashes <= 2 then 1 else 2
  }

  /** Where the text of section `k` ends: at the next header's start, or at the end of the document. */
  function SectionStop(content: string, matches: seq<HeaderMatch>, k: nat): nat
    requires k < |matches|
  {
    if k + 1 < |matches| then matches[k + 1].start else |content|
  }

  /** The section a header opened, closed with the text between two positions, stripped. */
  function Closed(m: HeaderMatch, content: string, from: nat, to: nat): Section
  {
    Section(SectionLevel(m.hashes), Strip(m.title), m.start, Strip(Slice(content, from, to)))
  }

  /** The section opened by match `k`; its content is the text after the header up to the next one, stripped. */
  function SectionAt(content: string, matches: seq<HeaderMatch>, k: nat): (s: Section)
    requires k < |matches|
  {
    Closed(matches[k], content, matches[k].end, SectionStop(content, matches, k))
  }

  /** One section per header match, in document order. */
  function Sections(content: string, matches: seq<HeaderMatch>): (r: seq<Section>)
    ensures |r| == |matches|
    ensures forall k :: 0 <= k < |matches| ==>
      r[k].level == SectionLevel(matches[k].hashes) && r[k].title == Strip(matches[k].title) && r[k].position == matches[k].start
  {
    seq(|matches|, k requires 0 <= k < |matches| => SectionAt(content, matches, k))
  }

  /** The sections of the first `n` header matches. */
  function SectionsUpTo(content: string, matches: seq<HeaderMatch>, n: nat): (r: seq<Section>)
    requires n <= |matches|
  {
    seq(n, k requires 0 <= k < n => SectionAt(content, matches, k))
  }

  /** Closing the open section between the end of its header and `to` adds the next section. */
  lemma CloseAt(content: string, matches: seq<HeaderMatch>, n: nat, from: nat, to: nat)
    requires n < |matches|
    requires from == matches[n].end && to == SectionStop(content, matches, n)
    ensures SectionsUpTo(content, matches, n + 1) == SectionsUpTo(content, matches, n) + [Closed(matches[n], content, from, to)]
  {
    SectionsUpToStep(content, matches, n);
  }

  lemma SectionsUpToStep(content: string, matches: seq<HeaderMatch>, n: nat)
    requires n < |matches|
    ensures SectionsUpTo(content, matches, n + 1) == SectionsUpTo(content, matches, n) + [SectionAt(content, matches, n)]
  {
    var longer := SectionsUpTo(content, matches, n + 1);
    var shorter := SectionsUpTo(content, matches, n) + [SectionAt(content, matches, n)];
    forall k | 0 <= k < n + 1 ensures longer[k] == shorter[k] {
      assert longer[k] == SectionAt(content, matches, k);
      if k < n {
        assert shorter[k] == SectionsUpTo(content, matches, n)[k];
      }
    }
  }

  /**
   * The loop over the matches that closes each section when the next header
   * starts; the open section is kept as the header match that opened it.
   */
  method ParseSections(content: string, matches: seq<HeaderMatch>) returns (sections: seq<Section>)
    ensures sections == Sections(content, matches)
  {
    sections := [];
    var lastPos := 0;
    var current: Option<HeaderMatch> := None;
    var k := 0;
    while k < |matches|
      invariant 0 <= k <= |matches|
      invariant sections == SectionsUpTo(content, matches, if k == 0 then 0 else k - 1)
      invariant k == 0 ==> current.None?
      invariant k > 0 ==> lastPos == matches[k - 1].end && current == Some(matches[k - 1])
    {
      var m := matches[k];
      if current.Some? {
        var closed := Closed(current.value, content, lastPos, m.start);
        CloseAt(content, matches, k - 1, lastPos, m.start);
        sections := sections + [closed];
      }
      current := Some(m);
      lastPos := m.end;
      k := k + 1;
    }
    if current.Some? {
      var closed := Closed(current.value, content, lastPos, |content|);
      CloseAt(content, matches, k - 1, lastPos, |content|);
      sections := sections + [closed];
    }
    SectionsEqual(content, matches);
  }

  lemma SectionsEqual(content: string, matches: seq<HeaderMatch>)
    ensures SectionsUpTo(content, matches, |matches|) == Sections(content, matches)
  {
  }

  // ---------------------------------------------------------------------
  // L0, L1 and L2 nodes (modules/semantic_memory.py:145-236)
  // ---------------------------------------------------------------------

  /** The document node: its id is the source id, it has no parent, and its content is the first 500 characters. */
  function L0Node(sourceId: string, content: string): (n: MemoryNode)
    ensures n.nodeId == sourceId && n.level == 0 && n.parentId.None? && n.path == sourceId
    ensures |n.content| <= 500 && |n.content| <= |content| && n.content == content[..|n.content|] && (|content| >= 500 ==> |n.content| == 500)
    ensures |n.title| == |sourceId|
  {
    MemoryNode(sourceId, Title(Unscore(sourceId)), 0, None, Take(content, 500), sourceId)
  }

  /** The sections of level 1, in order. */
  function Level1(sections: seq<Section>): (r: seq<Section>)
    ensures |r| <= |sections|
    ensures forall s :: s in r ==> s in sections && s.level == 1
  {
    if sections == [] then []
    else (if sections[0].level == 1 then [sections[0]] else []) + Level1(sections[1..])
  }

  /** The L1 node of a level-1 section: numbered under the source, its content cut to 1000 characters. */
  function L1Node(sourceId: string, index: nat, s: Section): (r: MemoryNode)
    ensures r.nodeId == NodeId(sourceId, 1, index) && r.level == 1 && r.parentId == Some(sourceId)
    ensures r.title == s.title && |r.content| <= 1000 && |r.content| <= |s.content| && r.content == s.content[..|r.content|]
  {
    MemoryNode(NodeId(sourceId, 1, index), s.title, 1, Some(sourceId), Take(s.content, 1000), sourceId + " > " + s.title)
  }

  function L1Nodes(sourceId: string, sections: seq<Section>): (r: seq<MemoryNode>)
    ensures |r| == |sections|
  {
    seq(|sections|, i requires 0 <= i < |sections| => L1Node(sourceId, i, sections[i]))
  }

  lemma L1NodesStep(sourceId: string, sections: seq<Section>, s: Section)
    ensures L1Nodes(sourceId, sections + [s]) == L1Nodes(sourceId, sections) + [L1Node(sourceId, |sections|, s)]
  {
    var x := L1Nodes(sourceId, sections + [s]);
    var y := L1Nodes(sourceId, sections) + [L1Node(sourceId, |sections|, s)];
    forall i | 0 <= i < |x| ensures x[i] == y[i] {
      if i < |sections| {
        assert (sections + [s])[i] == sections[i];
      }
    }
  }

  /** The enumeration of the level-1 sections, with the filter folded into the loop. */
  method BuildL1(sourceId: string, sections: seq<Section>) returns (l1: seq<MemoryNode>)
    ensures l1 == L1Nodes(sourceId, Level1(sections))
  {
    l1 := [];
    var k := 0;
    while k < |sections|
      invariant 0 <= k <= |sections|
      invariant l1 == L1Nodes(sourceId, Level1(sections[..k]))
    {
      Level1Snoc(sections[..k], sections[k]);
      assert sections[..k + 1] == sections[..k] + [sections[k]];
      if sections[k].level == 1 {
        L1NodesStep(sourceId, Level1(sections[..k]), sections[k]);
        l1 := l1 + [L1Node(sourceId, |l1|, sections[k])];
      }
      k := k + 1;
    }
    assert sections[..k] == sections;
  }

  lemma Level1Snoc(sections: seq<Section>, s: Section)
    ensures Level1(sections + [s]) == Level1(sections) + (if s.level == 1 then [s] else [])
  {
    Level1Split(sections, [s]);
    assert [s][1..] == [];
  }

  lemma {:induction false} Level1Split(a: seq<Section>, b: seq<Section>)
    ensures Level1(a + b) == Level1(a) + Level1(b)
  {
    if a != [] {
      assert (a + b)[1..] == a[1..] + b;
      Level1Split(a[1..], b);
    } else {
      assert a + b == b;
    }
  }

  /** `[p.strip() for p in parts if p.strip()]`. */
  function NonEmptyStripped(parts: seq<string>): (r: seq<string>)
    ensures |r| <= |parts|
  {
    if parts == [] then []
    else (if Strip(parts[0]) == "" then [] else [Strip(parts[0])]) + NonEmptyStripped(parts[1..])
  }

  /** The paragraphs of a document without headers: the stripped, non-empty parts between blank lines. */
  function Paragraphs(content: string): seq<string>
  {
    NonEmptyStripped(Split(content, "\n\n"))
  }

  /** The L2 node of a paragraph: the whole paragraph, titled by its first 50 characters. */
  function ParagraphNode(sourceId: string, index: nat, para: string): (r: MemoryNode)
    ensures r.nodeId == NodeId(sourceId, 2, index) && r.level == 2 && r.parentId == Some(sourceId)
    ensures r.content == para && |r.title| <= 53 && EndsWith(r.title, "...")
  {
    MemoryNode(NodeId(sourceId, 2, index), Take(para, 50) + "...", 2, Some(sourceId), para, sourceId + " > para_" + NatToString(index))
  }

  function ParagraphNodes(sourceId: string, paras: seq<string>): (r: seq<MemoryNode>)
    ensures |r| == |paras|
  {
    seq(|paras|, i requires 0 <= i < |paras| => ParagraphNode(sourceId, i, paras[i]))
  }

  lemma ParagraphNodesStep(sourceId: string, paras: seq<string>, i: nat)
    requires i < |paras|
    ensures ParagraphNodes(sourceId, paras[..i + 1]) == ParagraphNodes(sourceId, paras[..i]) + [ParagraphNode(sourceId, i, paras[i])]
  {
    var x := ParagraphNodes(sourceId, paras[..i + 1]);
    var y := ParagraphNodes(sourceId, paras[..i]) + [ParagraphNode(sourceId, i, paras[i])];
    forall j | 0 <= j < |x| ensures x[j] == y[j] {
      assert paras[..i + 1][j] == paras[j];
      if j < i {
        assert paras[..i][j] == paras[j];
      }
    }
  }

  /** The loop over the first 20 paragraphs. */
  method BuildParagraphNodes(sourceId: string, content: string) returns (l2: seq<MemoryNode>)
    ensures l2 == ParagraphNodes(sourceId, Take(Paragraphs(content), 20))
  {
    var paragraphs := Take(Paragraphs(content), 20);
    l2 := [];
    for idx := 0 to |paragraphs|
      invariant l2 == ParagraphNodes(sourceId, paragraphs[..idx])
    {
      ParagraphNodesStep(sourceId, paragraphs, idx);
      l2 := l2 + [ParagraphNode(sourceId, idx, paragraphs[idx])];
    }
    assert paragraphs[..|paragraphs|] == paragraphs;
  }

  // ---------------------------------------------------------------------
  // `parse_markdown_hierarchy` (modules/semantic_memory.py:119-249)
  // ---------------------------------------------------------------------

  /**
   * Evaluating the parent search for a subsection indexes the section list with
   * a section, which raises; the handler turns that into this message.
   */
  const SubsectionError := "Failed to parse hierarchy: " + "list indices must be integers or slices, not dict"

  predicate HasSubsection(sections: seq<Section>)
  {
    exists s :: s in sections && s.level == 2
  }

  /** The hierarchy built from a document's text, or the error the parse reports. */
  function Build(sourceId: string, content: string, matches: seq<HeaderMatch>): (r: Result<Hierarchy, string>)
    ensures r.Ok? ==> r.value.sourceId == sourceId && r.value.l0 == L0Node(sourceId, content)
    ensures r.Err? ==> r.error == SubsectionError
  {
    var sections := Sections(content, matches);
    var l1 := L1Nodes(sourceId, Level1(sections));
    if l1 != [] then
      if HasSubsection(sections) then Err(SubsectionError)
      else Ok(Hierarchy(sourceId, L0Node(sourceId, content), l1, []))
    else Ok(Hierarchy(sourceId, L0Node(sourceId, content), [], ParagraphNodes(sourceId, Take(Paragraphs(content), 20))))
  }

  /** `2 if L2 else (1 if L1 else 0)`. */
  function Levels(h: Hierarchy): (n: nat)
    ensures n <= 2
    ensures n == 0 <==> h.l1 == [] && h.l2 == []
  {
    if h.l2 != [] then 2 else if h.l1 != [] then 1 else 0
  }

  function Parse(filePath: string, file: FileRead, matches: seq<HeaderMatch>): (r: Result<Parsed, string>)
    ensures file.Missing? ==> r == Err("File not found: " + filePath)
    ensures file.Unreadable? ==> r == Err("Failed to parse hierarchy: " + file.detail)
  {
    match file
    case Missing => Err("File not found: " + filePath)
    case Unreadable(detail) => Err("Failed to parse hierarchy: " + detail)
    case Text(content) =>
      match Build(SourceIdOf(filePath), content, matches)
      case Err(e) => Err(e)
      case Ok(h) => Ok(Parsed(h, Levels(h)))
  }

  method ParseMarkdownHierarchy(filePath: string, file: FileRead, matches: seq<HeaderMatch>) returns (r: Result<Parsed, string>)
    ensures r == Parse(filePath, file, matches)
  {
    if file.Missing? {
      return Err("File not found: " + filePath);
    }
    if file.Unreadable? {
      return Err("Failed to parse hierarchy: " + file.detail);
    }
    var content := file.content;
    var sourceId := SourceIdOf(filePath);
    var l0 := L0Node(sourceId, content);
    var sections := ParseSections(content, matches);
    var l1 := BuildL1(sourceId, sections);
    var l2: seq<MemoryNode> := [];
    if l1 != [] {
      var raises := FindSubsection(sections);
      if raises {
        return Err(SubsectionError);
      }
    } else {
      l2 := BuildParagraphNodes(sourceId, content);
    }
    var h := Hierarchy(sourceId, l0, l1, l2);
    r := Ok(Parsed(h, Levels(h)));
  }

  /** The loop over the level-2 sections, which raises on its first one. */
  method FindSubsection(sections: seq<Section>) returns (found: bool)
    ensures found == HasSubsection(sections)
  {
    for k := 0 to |sections|
      invariant forall i :: 0 <= i < k ==> sections[i].level != 2
    {
      if sections[k].level == 2 {
        return true;
      }
    }
    return false;
  }

  // ---------------------------------------------------------------------
  // What the parse promises
  // ---------------------------------------------------------------------

  lemma {:induction false} Level1AllOne(sections: seq<Section>)
    requires forall s :: s in sections ==> s.level == 1
    ensures Level1(sections) == sections
  {
    if sections != [] {
      Level1AllOne(sections[1..]);
    }
  }

  /**
   * Under the header pattern every match has one or two '#' marks, so every
   * section is an L1 node, the subsection branch adds nothing, and a document
   * with headers has exactly one L1 node per header and no L2 node.
   */
  /** Headers of one or two marks open only level-1 sections, so none is a subsection. */
  lemma OnlyTopSections(content: string, matches: seq<HeaderMatch>)
    requires RegexMatches(matches)
    ensures var sections := Sections(content, matches);
      Level1(sections) == sections && !HasSubsection(sections)
  {
    var sections := Sections(content, matches);
    forall s | s in sections ensures s.level == 1 {
      var k :| 0 <= k < |sections| && sections[k] == s;
      assert matches[k].hashes <= 2;
    }
    Level1AllOne(sections);
  }

  lemma HeadersGiveOnlyL1(filePath: string, content: string, matches: seq<HeaderMatch>)
    requires RegexMatches(matches) && matches != []
    ensures Parse(filePath, Text(content), matches).Ok?
    ensures var p := Parse(filePath, Text(content), matches).value;
      |p.hierarchy.l1| == |matches| && p.hierarchy.l2 == [] && p.levels == 1
  {
    var sourceId := SourceIdOf(filePath);
    var sections := Sections(content, matches);
    OnlyTopSections(content, matches);
    var l1 := L1Nodes(sourceId, Level1(sections));
    assert |l1| == |matches|;
    var h := Hierarchy(sourceId, L0Node(sourceId, content), l1, []);
    assert Build(sourceId, content, matches) == Ok(h);
    assert Levels(h) == 1;
  }

  /**
   * A header with more marks than the pattern allows, next to one it allows,
   * sends the parse into the subsection branch, which raises.
   */
  lemma SubsectionBranchRaises(filePath: string, content: string, matches: seq<HeaderMatch>, i: nat, j: nat)
    requires i < |matches| && j < |matches|
    requires matches[i].hashes <= 2 && matches[j].hashes > 2
    ensures Parse(filePath, Text(content), matches) == Err(SubsectionError)
  {
    var sections := Sections(content, matches);
    SectionLevelAt(content, matches, i);
    SectionLevelAt(content, matches, j);
    Level1Keeps(sections, i);
    assert sections[j] in sections;
    BuildRaises(SourceIdOf(filePath), content, matches);
  }

  lemma SectionLevelAt(content: string, matches: seq<HeaderMatch>, k: nat)
    requires k < |matches|
    ensures |Sections(content, matches)| == |matches|
    ensures Sections(content, matches)[k].level == SectionLevel(matches[k].hashes)
  {
    assert Sections(content, matches)[k] == SectionAt(content, matches, k);
  }

  lemma BuildRaises(sourceId: string, content: string, matches: seq<HeaderMatch>)
    requires Level1(Sections(content, matches)) != [] && HasSubsection(Sections(content, matches))
    ensures Build(sourceId, content, matches) == Err(SubsectionError)
  {
    assert L1Nodes(sourceId, Level1(Sections(content, matches))) != [];
  }

  lemma {:induction false} Level1Keeps(sections: seq<Section>, i: nat)
    requires i < |sections| && sections[i].level == 1
    ensures Level1(sections) != []
  {
    if i > 0 {
      Level1Keeps(sections[1..], i - 1);
    }
  }

  /** A document without headers has no L1 node and one L2 node per paragraph, at most 20. */
  lemma NoHeadersGiveParagraphs(filePath: string, content: string)
    ensures Parse(filePath, Text(content), []).Ok?
    ensures var h := Parse(filePath, Text(content), []).value.hierarchy;
      h.l1 == [] && h.l2 == ParagraphNodes(h.sourceId, Take(Paragraphs(content), 20)) && |h.l2| <= 20
  {
    assert Sections(content, []) == [];
  }

  /**
   * Under the header pattern the number of levels says what the document
   * holds: 1 when it has headers, 2 when it has paragraphs but no headers, 0
   * when it has neither.
   */
  lemma LevelsUnderRegex(filePath: string, content: string, matches: seq<HeaderMatch>)
    requires RegexMatches(matches)
    ensures Parse(filePath, Text(content), matches).Ok?
    ensures var p := Parse(filePath, Text(content), matches).value;
      (p.levels == 1 <==> matches != [])
      && (p.levels == 2 <==> matches == [] && Paragraphs(content) != [])
      && (p.levels == 0 <==> matches == [] && Paragraphs(content) == [])
  {
    if matches != [] {
      HeadersGiveOnlyL1(filePath, content, matches);
    } else {
      NoHeadersGiveParagraphs(filePath, content);
      var h := Parse(filePath, Text(content), matches).value.hierarchy;
      assert |h.l2| == |Take(Paragraphs(content), 20)|;
    }
  }

  /** A part of `s` between two positions contains only what `s` contains. */
  lemma InfixContains(s: string, i: nat, j: nat, sub: string)
    requires i <= j <= |s| && Contains(s[i..j], sub)
    ensures Contains(s, sub)
  {
    var t := s[i..j];
    var k :| 0 <= k <= |t| && OccursAt(t, sub, k);
    forall x | 0 <= x < |sub| ensures s[i + k + x] == sub[x] {
      assert t[k..k + |sub|][x] == sub[x];
      assert t[k + x] == s[i + k + x];
    }
    assert s[i + k..i + k + |sub|] == sub;
    ContainsAt(s, sub, i + k);
  }

  /** Stripping keeps a part of the string. */
  lemma StripIsInfix(s: string)
    ensures var i := |s| - |TrimLeft(s)|; i + |Strip(s)| <= |s| && Strip(s) == s[i..i + |Strip(s)|]
  {
    var l := TrimLeft(s);
    var r := TrimRight(l);
    var i := |s| - |l|;
    assert Strip(s) == r;
    assert r == s[i..i + |r|] by {
      assert l == s[i..] && r == l[..|r|];
    }
  }

  predicate ParagraphLike(p: string, sep: string)
  {
    p != "" && !IsSpace(p[0]) && !IsSpace(p[|p| - 1]) && !Contains(p, sep)
  }

  lemma StrippedPart(part: string, sep: string)
    requires !Contains(part, sep) && Strip(part) != ""
    ensures ParagraphLike(Strip(part), sep)
  {
    var p := Strip(part);
    StripIsInfix(part);
    var i := |part| - |TrimLeft(part)|;
    if Contains(p, sep) {
      InfixContains(part, i, i + |p|, sep);
    }
  }

  lemma {:induction false} NonEmptyStrippedShape(parts: seq<string>, sep: string)
    requires forall k :: 0 <= k < |parts| ==> !Contains(parts[k], sep)
    ensures forall p :: p in NonEmptyStripped(parts) ==> ParagraphLike(p, sep)
  {
    if parts != [] {
      NonEmptyStrippedShape(parts[1..], sep);
      if Strip(parts[0]) != "" {
        StrippedPart(parts[0], sep);
      }
    }
  }

  /** Every paragraph is non-empty, has no white space at either end and spans no blank line. */
  lemma ParagraphShape(content: string)
    ensures forall p :: p in Paragraphs(content) ==>
      p != "" && !IsSpace(p[0]) && !IsSpace(p[|p| - 1]) && !Contains(p, "\n\n")
  {
    assert forall p :: ParagraphLike(p, "\n\n") ==> p != "" && !IsSpace(p[0]) && !IsSpace(p[|p| - 1]) && !Contains(p, "\n\n");
    SplitPartsFree(content, "\n\n");
    NonEmptyStrippedShape(Split(content, "\n\n"), "\n\n");
  }

  // ---------------------------------------------------------------------
  // Node ids are distinct
  // ---------------------------------------------------------------------

  /** The ids a hierarchy carries: L0's, then each L1 node's, then each L2 node's. */
  function NodeIds(h: Hierarchy): seq<string>
  {
    [h.l0.nodeId] + seq(|h.l1|, i requires 0 <= i < |h.l1| => h.l1[i].nodeId)
      + seq(|h.l2|, i requires 0 <= i < |h.l2| => h.l2[i].nodeId)
  }

  /** Where each node's id sits in the list of ids. */
  lemma NodeIdsAt(h: Hierarchy)
    ensures var ids := NodeIds(h);
      |ids| == 1 + |h.l1| + |h.l2| && ids[0] == h.l0.nodeId
      && (forall i :: 0 <= i < |h.l1| ==> ids[1 + i] == h.l1[i].nodeId)
      && (forall i :: 0 <= i < |h.l2| ==> ids[1 + |h.l1| + i] == h.l2[i].nodeId)
  {
    var a := [h.l0.nodeId];
    var b := seq(|h.l1|, i requires 0 <= i < |h.l1| => h.l1[i].nodeId);
    var c := seq(|h.l2|, i requires 0 <= i < |h.l2| => h.l2[i].nodeId);
    assert NodeIds(h) == a + b + c;
    forall i | 0 <= i < |h.l1| ensures (a + b + c)[1 + i] == h.l1[i].nodeId {
      assert (a + b + c)[1 + i] == b[i];
    }
    forall i | 0 <= i < |h.l2| ensures (a + b + c)[1 + |h.l1| + i] == h.l2[i].nodeId {
      assert (a + b + c)[1 + |h.l1| + i] == c[i];
    }
  }

  /** Nodes numbered as the parse numbers them: `{source}_L1_{i}` and `{source}_L2_{i}`. */
  predicate Numbered(h: Hierarchy)
  {
    h.l0.nodeId == h.sourceId
    && (forall i :: 0 <= i < |h.l1| ==> h.l1[i].nodeId == NodeId(h.sourceId, 1, i))
    && (forall i :: 0 <= i < |h.l2| ==> h.l2[i].nodeId == NodeId(h.sourceId, 2, i))
  }

  lemma ParseNumbers(filePath: string, file: FileRead, matches: seq<HeaderMatch>)
    requires Parse(filePath, file, matches).Ok?
    ensures Numbered(Parse(filePath, file, matches).value.hierarchy)
  {
    BuildNumbers(SourceIdOf(filePath), file.content, matches);
  }

  lemma BuildNumbers(src: string, content: string, matches: seq<HeaderMatch>)
    requires Build(src, content, matches).Ok?
    ensures Numbered(Build(src, content, matches).value)
  {
    NodesNumbered(src, Level1(Sections(content, matches)), Take(Paragraphs(content), 20));
  }

  lemma NodesNumbered(src: string, sections: seq<Section>, paras: seq<string>)
    ensures forall i :: 0 <= i < |L1Nodes(src, sections)| ==> L1Nodes(src, sections)[i].nodeId == NodeId(src, 1, i)
    ensures forall i :: 0 <= i < |ParagraphNodes(src, paras)| ==> ParagraphNodes(src, paras)[i].nodeId == NodeId(src, 2, i)
  {
  }

  lemma NodeIdInjective(src: string, a: nat, i: nat, b: nat, j: nat)
    requires 1 <= a <= 2 && 1 <= b <= 2
    requires NodeId(src, a, i) == NodeId(src, b, j)
    ensures a == b && i == j
  {
    var x := NodeId(src, a, i);
    var y := NodeId(src, b, j);
    assert NatToString(a) == [DigitChar(a)] && NatToString(b) == [DigitChar(b)];
    assert x[|src| + 2] == DigitChar(a) && y[|src| + 2] == DigitChar(b);
    assert x[|src| + 4..] == NatToString(i) && y[|src| + 4..] == NatToString(j);
    NatToStringInjective(i, j);
  }

  /** No two nodes of a parsed document share an id, so the upsert never overwrites one of its own entries. */
  lemma NumberedIdsDistinct(h: Hierarchy)
    requires Numbered(h)
    ensures forall i, j :: 0 <= i < j < |NodeIds(h)| ==> NodeIds(h)[i] != NodeIds(h)[j]
  {
    var ids := NodeIds(h);
    var n1 := |h.l1|;
    forall i, j | 0 <= i < j < |ids| ensures ids[i] != ids[j] {
      if i == 0 {
        assert |ids[j]| > |h.sourceId|;
      } else if j <= n1 {
        if ids[i] == ids[j] { NodeIdInjective(h.sourceId, 1, i - 1, 1, j - 1); }
      } else if i <= n1 {
        if ids[i] == ids[j] { NodeIdInjective(h.sourceId, 1, i - 1, 2, j - 1 - n1); }
      } else {
        if ids[i] == ids[j] { NodeIdInjective(h.sourceId, 2, i - 1 - n1, 2, j - 1 - n1); }
      }
    }
  }

  // ---------------------------------------------------------------------
  // `ingest_document` (modules/semantic_memory.py:252-358)
  // ---------------------------------------------------------------------

  datatype Metadata = Metadata(level: nat, parentId: string, nodeId: string, title: string, path: string, domain: string, sourceFile: string)

  /** One entry of the upsert: the id, the document text and the metadata, from the three parallel lists. */
  datatype Record = Record(id: string, document: string, metadata: Metadata)

  datatype IngestResult =
    | Ingested(nodesAdded: nat, levels: nat, sourceId: string, domain: string)
    | IngestFailed(error: string)

  function RecordOf(n: MemoryNode, domain: string, filePath: string): (r: Record)
    ensures r.id == n.nodeId == r.metadata.nodeId && r.document == n.content
    ensures r.metadata.domain == domain && r.metadata.sourceFile == filePath && r.metadata.level == n.level
    ensures r.metadata.parentId == (if n.parentId.Some? then n.parentId.value else "")
  {
    var parent := match n.parentId case None => "" case Some(p) => p;
    Record(n.nodeId, n.content, Metadata(n.level, parent, n.nodeId, n.title, n.path, domain, filePath))
  }

  function Records(nodes: seq<MemoryNode>, domain: string, filePath: string): (r: seq<Record>)
    ensures |r| == |nodes|
    ensures forall i :: 0 <= i < |nodes| ==> r[i] == RecordOf(nodes[i], domain, filePath)
  {
    seq(|nodes|, i requires 0 <= i < |nodes| => RecordOf(nodes[i], domain, filePath))
  }

  /** The batch handed to the store: L0, then the L1 nodes, then the L2 nodes. */
  function Batch(h: Hierarchy, domain: string, filePath: string): (r: seq<Record>)
    ensures |r| == 1 + |h.l1| + |h.l2|
    ensures r[0] == RecordOf(h.l0, domain, filePath)
    ensures forall i :: 0 <= i < |h.l1| ==> r[1 + i] == RecordOf(h.l1[i], domain, filePath)
    ensures forall i :: 0 <= i < |h.l2| ==> r[1 + |h.l1| + i] == RecordOf(h.l2[i], domain, filePath)
  {
    [RecordOf(h.l0, domain, filePath)] + Records(h.l1, domain, filePath) + Records(h.l2, domain, filePath)
  }

  /** Python's `str` of a list of strings without quote characters. */
  function ListText(xs: seq<string>): (r: string)
    ensures StartsWith(r, "[") && EndsWith(r, "]")
    ensures xs == [] ==> r == "[]"
  {
    "[" + Join(seq(|xs|, i requires 0 <= i < |xs| => "'" + xs[i] + "'"), ", ") + "]"
  }

  /**
   * The outcome of an ingest and the batch handed to the store (empty when the
   * store is never reached).
   */
  function Ingest(filePath: string, domain: string, enabledDomains: seq<string>, file: FileRead,
                  matches: seq<HeaderMatch>, upsertError: Option<string>): (r: (IngestResult, seq<Record>))
    ensures r.1 != [] ==> domain in enabledDomains
  {
    if domain !in enabledDomains then (IngestFailed("Invalid domain. Must be one of: " + ListText(enabledDomains)), [])
    else
      match Parse(filePath, file, matches)
      case Err(e) => (IngestFailed(e), [])
      case Ok(p) =>
        var batch := Batch(p.hierarchy, domain, filePath);
        if upsertError.Some? then (IngestFailed("Failed to ingest document: " + upsertError.value), batch)
        else (Ingested(|batch|, p.levels, p.hierarchy.sourceId, domain), batch)
  }

  lemma RecordsStep(nodes: seq<MemoryNode>, i: nat, domain: string, filePath: string)
    requires i < |nodes|
    ensures Records(nodes[..i + 1], domain, filePath) == Records(nodes[..i], domain, filePath) + [RecordOf(nodes[i], domain, filePath)]
  {
    var x := Records(nodes[..i + 1], domain, filePath);
    var y := Records(nodes[..i], domain, filePath) + [RecordOf(nodes[i], domain, filePath)];
    forall j | 0 <= j < |x| ensures x[j] == y[j] {
      assert nodes[..i + 1][j] == nodes[j];
      if j < i {
        assert nodes[..i][j] == nodes[j];
      }
    }
  }

  /** One of the loops adding a level's nodes to the parallel lists. */
  method AppendRecords(batch: seq<Record>, nodes: seq<MemoryNode>, domain: string, filePath: string) returns (out: seq<Record>)
    ensures out == batch + Records(nodes, domain, filePath)
  {
    out := batch;
    for i := 0 to |nodes|
      invariant out == batch + Records(nodes[..i], domain, filePath)
    {
      RecordsStep(nodes, i, domain, filePath);
      out := out + [RecordOf(nodes[i], domain, filePath)];
    }
    assert nodes[..|nodes|] == nodes;
  }

  method IngestDocument(filePath: string, domain: string, enabledDomains: seq<string>, file: FileRead,
                        matches: seq<HeaderMatch>, upsertError: Option<string>) returns (r: IngestResult, batch: seq<Record>)
    ensures (r, batch) == Ingest(filePath, domain, enabledDomains, file, matches, upsertError)
  {
    batch := [];
    if domain !in enabledDomains {
      r := IngestFailed("Invalid domain. Must be one of: " + ListText(enabledDomains));
      return;
    }
    var parsed := ParseMarkdownHierarchy(filePath, file, matches);
    if parsed.Err? {
      r := IngestFailed(parsed.error);
      return;
    }
    var h := parsed.value.hierarchy;
    batch := [RecordOf(h.l0, domain, filePath)];
    batch := AppendRecords(batch, h.l1, domain, filePath);
    batch := AppendRecords(batch, h.l2, domain, filePath);
    if upsertError.Some? {
      r := IngestFailed("Failed to ingest document: " + upsertError.value);
      return;
    }
    r := Ingested(|batch|, parsed.value.levels, h.sourceId, domain);
  }

  /** A domain that is not enabled is refused before the file is looked at. */
  lemma IngestRejectsDisabledDomain(filePath: string, domain: string, enabledDomains: seq<string>, file: FileRead,
                                    matches: seq<HeaderMatch>, upsertError: Option<string>)
    ensures var (r, batch) := Ingest(filePath, domain, enabledDomains, file, matches, upsertError);
      domain !in enabledDomains <==> (r == IngestFailed("Invalid domain. Must be one of: " + ListText(enabledDomains)) && batch == [])
  {
    var (r, batch) := Ingest(filePath, domain, enabledDomains, file, matches, upsertError);
    var refusal := "Invalid domain. Must be one of: " + ListText(enabledDomains);
    assert refusal[0] == 'I';
    if domain in enabledDomains && Parse(filePath, file, matches).Err? {
      ParseErrorText(filePath, file, matches);
    }
  }

  /** Every error of the parse starts with "F" ("File not found" or "Failed to parse hierarchy"). */
  lemma ParseErrorText(filePath: string, file: FileRead, matches: seq<HeaderMatch>)
    requires Parse(filePath, file, matches).Err?
    ensures |Parse(filePath, file, matches).error| > 0 && Parse(filePath, file, matches).error[0] == 'F'
  {
    match file
    case Missing => assert ("File not found: " + filePath)[0] == 'F';
    case Unreadable(detail) => assert ("Failed to parse hierarchy: " + detail)[0] == 'F';
    case Text(content) => assert SubsectionError[0] == 'F';
  }

  /**
   * A successful ingest hands the store the L0 id, then the L1 ids, then the
   * L2 ids, all distinct, and reports one node added per entry.
   */
  lemma IngestOrder(filePath: string, domain: string, enabledDomains: seq<string>, file: FileRead,
                    matches: seq<HeaderMatch>, upsertError: Option<string>)
    requires Ingest(filePath, domain, enabledDomains, file, matches, upsertError).0.Ingested?
    ensures var (r, batch) := Ingest(filePath, domain, enabledDomains, file, matches, upsertError);
      var h := Parse(filePath, file, matches).value.hierarchy;
      r.nodesAdded == 1 + |h.l1| + |h.l2| == |batch|
      && (forall k :: 0 <= k < |batch| ==> batch[k].id == NodeIds(h)[k] && batch[k].metadata.domain == domain)
      && (forall i, j :: 0 <= i < j < |batch| ==> batch[i].id != batch[j].id)
  {
    var h := Parse(filePath, file, matches).value.hierarchy;
    BatchIds(h, domain, filePath);
    ParseNumbers(filePath, file, matches);
    NumberedIdsDistinct(h);
  }

  /** The batch lists the hierarchy's ids in order, every entry tagged with the domain. */
  lemma BatchIds(h: Hierarchy, domain: string, filePath: string)
    ensures var batch := Batch(h, domain, filePath);
      |batch| == |NodeIds(h)| == 1 + |h.l1| + |h.l2|
      && forall k :: 0 <= k < |batch| ==> batch[k].id == NodeIds(h)[k] && batch[k].metadata.domain == domain
  {
    var batch := Batch(h, domain, filePath);
    var ids := NodeIds(h);
    NodeIdsAt(h);
    forall k | 0 <= k < |batch| ensures batch[k].id == ids[k] && batch[k].metadata.domain == domain {
      if k > |h.l1| {
        var i := k - 1 - |h.l1|;
        assert batch[1 + |h.l1| + i] == RecordOf(h.l2[i], domain, filePath);
        assert ids[1 + |h.l1| + i] == h.l2[i].nodeId;
      } else if k > 0 {
        var i := k - 1;
        assert batch[1 + i] == RecordOf(h.l1[i], domain, filePath);
        assert ids[1 + i] == h.l1[i].nodeId;
      }
    }
  }
}
