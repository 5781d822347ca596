/**
 * The one-line descriptions shown beside files in the project tree
 * (modules/project_utils.py:28-112).
 *
 * File contents are strings; the two facts that need a foreign parser are
 * given per file: the module docstring that `ast.parse` finds in a Python
 * file, and the `description` value `json.load` finds in a package.json.
 */
module FileDescriptions {
  import opened Wrappers
  import opened Strings

  /**
   * What the tree builder can learn about one file; `None` where reading or
   * parsing raised. `packageDescription` is `data.get('description', '')` of
   * a parsed `package.json`: the empty string when the key is missing.
   */
  datatype FileFacts = FileFacts(content: Option<string>, docstring: Option<string>, packageDescription: Option<string>)

  function Min(a: int, b: int): int { if a <= b then a else b }

  // ---------------------------------------------------------------------
  // README files
  // ---------------------------------------------------------------------

  /** A README line worth showing: not empty, no heading, no image, longer than 20 characters. */
  predicate IsReadmeLine(line: string)
  {
    line != "" && !StartsWith(line, "#") && !StartsWith(line, "![") && |line| > 20
  }

  /** What one README line yields: the stripped line, cut to 100 characters plus "...". */
  function ReadmeCandidate(line: string): (r: Option<string>)
    ensures r.Some? <==> IsReadmeLine(Strip(line))
    ensures r.Some? ==> r.value == Truncate100(Strip(line)) && 20 < |r.value| <= 103
  {
    if IsReadmeLine(Strip(line)) then Some(Truncate100(Strip(line))) else None
  }

  /** What each of the given lines yields. */
  function ReadmeCandidatesOf(lines: seq<string>): (r: seq<Option<string>>)
    ensures |r| == |lines| && forall k :: 0 <= k < |lines| ==> r[k] == ReadmeCandidate(lines[k])
  {
    seq(|lines|, k requires 0 <= k < |lines| => ReadmeCandidate(lines[k]))
  }

  /** What each of the first 10 lines yields. */
  function ReadmeCandidates(content: string): (r: seq<Option<string>>)
    ensures |r| <= 10
  {
    ReadmeCandidatesOf(Take(Lines(content), 10))
  }

  /** The candidates are those of the first (at most) 10 lines, line by line. */
  lemma ReadmeCandidatesAt(content: string)
    ensures |ReadmeCandidates(content)| == Min(10, |Lines(content)|)
    ensures forall k :: 0 <= k < |ReadmeCandidates(content)| ==>
      ReadmeCandidates(content)[k] == ReadmeCandidate(Lines(content)[k])
  {
    var ls := Lines(content);
    var lines := Take(ls, 10);
    assert forall k :: 0 <= k < |lines| ==> lines[k] == ls[k];
  }

  /**
   * `_extract_readme_description`: what the first qualifying line among the
   * first 10 yields (modules/project_utils.py:78-92).
   */
  function ReadmeDescription(content: string): (r: Option<string>)
    ensures r.Some? ==> 20 < |r.value| <= 103
  {
    var lines := Take(Lines(content), 10);
    var cs := ReadmeCandidatesOf(lines);
    match FirstSome(cs, 0)
    case None => None
    case Some(k) =>
      assert cs[k] == ReadmeCandidate(lines[k]);
      cs[k]
  }

  /** The first of the first 10 lines that qualifies is the one described. */
  lemma ReadmeFirstQualifying(content: string, i: nat)
    requires i < Min(10, |Lines(content)|)
    requires IsReadmeLine(Strip(Lines(content)[i]))
    requires forall k :: 0 <= k < i ==> !IsReadmeLine(Strip(Lines(content)[k]))
    ensures ReadmeDescription(content) == Some(Truncate100(Strip(Lines(content)[i])))
  {
    var cs := ReadmeCandidates(content);
    ReadmeCandidatesAt(content);
    FirstSomeAt(cs, i);
  }

  /** No description exactly when none of the first 10 lines qualifies. */
  lemma ReadmeNoneIff(content: string)
    ensures ReadmeDescription(content).None? <==>
      forall k :: 0 <= k < Min(10, |Lines(content)|) ==> !IsReadmeLine(Strip(Lines(content)[k]))
  {
    var ls := Lines(content);
    var cs := ReadmeCandidates(content);
    ReadmeCandidatesAt(content);
    match FirstSome(cs, 0)
    case None =>
    case Some(j) => assert IsReadmeLine(Strip(ls[j]));
  }

  method ExtractReadmeDescription(content: string) returns (r: Option<string>)
    ensures r == ReadmeDescription(content)
  {
    var lines := Lines(content);
    var n := Min(10, |lines|);
    ghost var cs := ReadmeCandidates(content);
    ReadmeCandidatesAt(content);
    var i := 0;
    while i < n
      invariant 0 <= i <= n
      invariant FirstSome(cs, 0) == FirstSome(cs, i)
    {
      var line := Strip(lines[i]);
      if IsReadmeLine(line) {
        return Some(Truncate100(line));
      }
      i := i + 1;
    }
    r := None;
  }

  // ---------------------------------------------------------------------
  // JavaScript and TypeScript files
  // ---------------------------------------------------------------------

  /** The line holds the closing marker of a block comment: a star followed by a slash. */
  predicate ClosesComment(line: string)
  {
    |line| >= 2 && ((line[0] == '*' && line[1] == '/') || ClosesComment(line[1..]))
  }

  /** A block-comment line with one leading '*' removed. */
  function Unstar(line: string): string
  {
    if StartsWith(line, "*") then Strip(line[1..]) else line
  }

  /**
   * The stripped lines `lines[j..end]` gathered for a block comment,
   * stopping before the first one containing the closing marker.
   */
  function CommentBlock(lines: seq<string>, j: nat, end: nat): (r: seq<string>)
    requires end <= |lines|
    ensures j + |r| <= end || r == []
    decreases end - j
  {
    if j >= end || ClosesComment(Strip(lines[j])) then []
    else [Unstar(Strip(lines[j]))] + CommentBlock(lines, j + 1, end)
  }

  /** The description line `i` yields, if it opens a comment (modules/project_utils.py:55-73). */
  /** What line `i` yields; `JsCandidateShape` states what it can be. */
  function JsCandidate(lines: seq<string>, i: nat): (r: Option<string>)
    requires i < |lines|
  {
    var line := Strip(lines[i]);
    if StartsWith(line, "//") then
      var desc := Strip(line[2..]);
      if desc != "" && !StartsWith(desc, "@") && |desc| > 10 then Some(desc) else None
    else if StartsWith(line, "/*") then
      var block := CommentBlock(lines, i, Min(i + 10, |lines|));
      if block != [] then
        var desc := Strip(Join(block, " "));
        if |desc| > 10 then Some(Truncate100(desc)) else None
      else None
    else None
  }

  /**
   * A line comment yields its text when longer than 10 characters and not a
   * tag; a block comment yields its joined text cut to at most 103 characters.
   */
  lemma JsCandidateShape(lines: seq<string>, i: nat)
    requires i < |lines|
    ensures JsCandidate(lines, i).Some? ==> |JsCandidate(lines, i).value| > 10
    ensures JsCandidate(lines, i).Some? && StartsWith(Strip(lines[i]), "//") ==>
      JsCandidate(lines, i) == Some(Strip(Strip(lines[i])[2..])) && !StartsWith(JsCandidate(lines, i).value, "@")
    ensures JsCandidate(lines, i).Some? && !StartsWith(Strip(lines[i]), "//") ==>
      StartsWith(Strip(lines[i]), "/*") && |JsCandidate(lines, i).value| <= 103
  {
  }

  /** What each of the first 20 lines yields. */
  function JsCandidates(lines: seq<string>): (r: seq<Option<string>>)
    ensures |r| == Min(20, |lines|)
  {
    seq(Min(20, |lines|), k requires 0 <= k < Min(20, |lines|) => JsCandidate(lines, k))
  }

  /**
   * `_extract_js_description`: what the first line among the first 20 that
   * yields a description yields (modules/project_utils.py:46-76).
   */
  function JsDescription(content: string): (r: Option<string>)
    ensures r.Some? ==> |r.value| > 10
  {
    var cs := JsCandidates(Lines(content));
    match FirstSome(cs, 0)
    case None => None
    case Some(k) => JsCandidateShape(Lines(content), k); cs[k]
  }

  /** The first of the first 20 lines that yields a description is the one described. */
  lemma JsFirstDescribing(content: string, i: nat)
    requires i < Min(20, |Lines(content)|)
    requires JsCandidate(Lines(content), i).Some?
    requires forall k :: 0 <= k < i ==> JsCandidate(Lines(content), k).None?
    ensures JsDescription(content) == JsCandidate(Lines(content), i)
  {
    FirstSomeAt(JsCandidates(Lines(content)), i);
  }

  /** No description exactly when none of the first 20 lines yields one. */
  lemma JsNoneIff(content: string)
    ensures JsDescription(content).None? <==>
      forall k :: 0 <= k < Min(20, |Lines(content)|) ==> JsCandidate(Lines(content), k).None?
  {
    var ls := Lines(content);
    var cs := JsCandidates(ls);
    assert |cs| == Min(20, |ls|);
    match FirstSome(cs, 0)
    case None =>
      forall k | 0 <= k < |cs| ensures JsCandidate(ls, k).None? {
        assert cs[k] == JsCandidate(ls, k);
      }
    case Some(j) => assert cs[j] == JsCandidate(ls, j);
  }

  lemma CommentBlockStep(lines: seq<string>, j: nat, end: nat)
    requires j < end <= |lines| && !ClosesComment(Strip(lines[j]))
    ensures CommentBlock(lines, j, end) == [Unstar(Strip(lines[j]))] + CommentBlock(lines, j + 1, end)
  {
  }

  lemma CommentBlockStop(lines: seq<string>, j: nat, end: nat)
    requires j <= end <= |lines| && (j == end || ClosesComment(Strip(lines[j])))
    ensures CommentBlock(lines, j, end) == []
  {
  }

  /** Gathering line `j` keeps the gathered lines a prefix of the block from line `i`. */
  lemma GatherStep(lines: seq<string>, i: nat, j: nat, end: nat, gathered: seq<string>)
    requires j < end <= |lines| && !ClosesComment(Strip(lines[j]))
    requires gathered + CommentBlock(lines, j, end) == CommentBlock(lines, i, end)
    ensures (gathered + [Unstar(Strip(lines[j]))]) + CommentBlock(lines, j + 1, end) == CommentBlock(lines, i, end)
  {
    CommentBlockStep(lines, j, end);
    Regroup(gathered, Unstar(Strip(lines[j])), CommentBlock(lines, j + 1, end), CommentBlock(lines, i, end));
  }

  lemma Regroup<T>(front: seq<T>, x: T, rest: seq<T>, whole: seq<T>)
    requires front + ([x] + rest) == whole
    ensures (front + [x]) + rest == whole
  {
    assert (front + [x]) + rest == front + ([x] + rest);
  }

  /** The inner loop gathering a block comment from line `i`. */
  method GatherComment(lines: seq<string>, i: nat) returns (commentLines: seq<string>)
    requires i < |lines|
    ensures commentLines == CommentBlock(lines, i, Min(i + 10, |lines|))
  {
    var end := Min(i + 10, |lines|);
    commentLines := [];
    var j := i;
    while j < end
      invariant i <= j <= end
      invariant commentLines + CommentBlock(lines, j, end) == CommentBlock(lines, i, end)
    {
      var commentLine := Strip(lines[j]);
      if ClosesComment(commentLine) {
        break;
      }
      commentLine := Unstar(commentLine);
      GatherStep(lines, i, j, end, commentLines);
      commentLines := commentLines + [commentLine];
      j := j + 1;
    }
    CommentBlockStop(lines, j, end);
  }

  method ExtractJsDescription(content: string) returns (r: Option<string>)
    ensures r == JsDescription(content)
  {
    var lines := Lines(content);
    var n := Min(20, |lines|);
    ghost var cs := JsCandidates(lines);
    var i := 0;
    while i < n
      invariant 0 <= i <= n
      invariant FirstSome(cs, 0) == FirstSome(cs, i)
    {
      var candidate := LineDescription(lines, i);
      if candidate.Some? {
        return candidate;
      }
      i := i + 1;
    }
    r := None;
  }

  /** One pass of the scan: what line `i` yields, if it opens a comment. */
  method LineDescription(lines: seq<string>, i: nat) returns (r: Option<string>)
    requires i < |lines|
    ensures r == JsCandidate(lines, i)
  {
    r := None;
    var line := Strip(lines[i]);
    if StartsWith(line, "//") {
      var desc := Strip(line[2..]);
      if desc != "" && !StartsWith(desc, "@") && |desc| > 10 {
        r := Some(desc);
      }
    } else if StartsWith(line, "/*") {
      var commentLines := GatherComment(lines, i);
      if commentLines != [] {
        var desc := Strip(Join(commentLines, " "));
        if |desc| > 10 {
          r := Some(Truncate100(desc));
        }
      }
    }
  }

  // ---------------------------------------------------------------------
  // Python files and the dispatch on the file name
  // ---------------------------------------------------------------------

  /** The docstring's first line, stripped (modules/project_utils.py:39-41). */
  function FirstDocLine(doc: string): (r: string)
    ensures '\n' !in r
    ensures r == [] || (!IsSpace(r[0]) && !IsSpace(r[|r| - 1]))
  {
    var first := Lines(doc)[0];
    var r := Strip(first);
    assert forall k :: 0 <= k < |r| ==> r[k] in first by {
      StripInside(first);
    }
    r
  }

  lemma StripInside(s: string)
    ensures forall k :: 0 <= k < |Strip(s)| ==> Strip(s)[k] in s
  {
    var l := TrimLeft(s);
    var r := TrimRight(l);
    assert Strip(s) == r;
    forall k | 0 <= k < |r| ensures r[k] in s {
      assert r[k] == l[k] == s[|s| - |l| + k];
    }
  }

  predicate IsJsSuffix(suffix: string) { suffix == ".js" || suffix == ".ts" || suffix == ".jsx" || suffix == ".tsx" }

  predicate IsReadmeName(name: string) { name == "readme.md" || name == "readme.txt" || name == "readme" }

  /** Lower-casing leaves a text without upper-case letters as it is. */
  lemma LowerKeeps(s: string)
    requires forall i :: 0 <= i < |s| ==> !IsUpperChar(s[i])
    ensures Lower(s) == s
  {
  }

  /** `package.json` has the suffix `.json`. */
  lemma PackageJsonName()
    ensures Lower(Suffix("package.json")) == ".json"
  {
    var n := "package.json";
    var d := LastDot(n);
    assert d.Some? by { assert n[7] == '.'; }
    assert d.value == 7 by {
      assert n[7] == '.' && n[8] != '.' && n[9] != '.' && n[10] != '.' && n[11] != '.';
    }
    assert n[7..] == ".json";
    LowerKeeps(".json");
  }

  /** Which extractor `_get_file_description` picks for a file name. */
  datatype FileKind = PythonFile | ScriptFile | ReadmeFile | PackageFile | OtherFile

  /**
   * The dispatch of `_get_file_description(path)`: the lower-cased suffix is
   * tested first, then the lower-cased name, then the exact name
   * (modules/project_utils.py:96-104).
   */
  function KindOf(name: string): (k: FileKind)
    ensures k == PythonFile <==> Lower(Suffix(name)) == ".py"
    ensures k == ScriptFile <==> Lower(Suffix(name)) != ".py" && IsJsSuffix(Lower(Suffix(name)))
    ensures k == ReadmeFile <==>
      Lower(Suffix(name)) != ".py" && !IsJsSuffix(Lower(Suffix(name))) && IsReadmeName(Lower(name))
    ensures k == PackageFile ==> name == "package.json"
  {
    var suffix := Lower(Suffix(name));
    if suffix == ".py" then PythonFile
    else if IsJsSuffix(suffix) then ScriptFile
    else if IsReadmeName(Lower(name)) then ReadmeFile
    else if suffix == ".json" && name == "package.json" then PackageFile
    else OtherFile
  }

  lemma FiveIsNoOtherSuffix(suffix: string)
    requires |suffix| == 5
    ensures suffix != ".py" && !IsJsSuffix(suffix)
  {
  }

  lemma TwelveIsNoReadme(name: string)
    requires |name| == 12
    ensures !IsReadmeName(name)
  {
  }

  /** `package.json` reaches the `package.json` branch. */
  lemma PackageJsonKind(name: string)
    requires name == "package.json"
    ensures KindOf(name) == PackageFile
  {
    PackageJsonName();
    FiveIsNoOtherSuffix(Lower(Suffix(name)));
    TwelveIsNoReadme(Lower(name));
  }

  /** The description of `package.json` is its `description` field, as parsed. */
  lemma PackageJsonDescription(name: string, facts: FileFacts)
    requires name == "package.json"
    ensures FileDescription(name, facts) == facts.packageDescription
  {
    PackageJsonKind(name);
  }

  /**
   * `_get_file_description(path)`: the docstring's first line for Python
   * sources, the comment extractor for scripts, the README extractor, the
   * `description` of `package.json`, and nothing for any other file
   * (modules/project_utils.py:94-112).
   */
  function FileDescription(name: string, facts: FileFacts): (r: Option<string>)
    ensures r.Some? ==> Lower(Suffix(name)) == ".py" || IsJsSuffix(Lower(Suffix(name))) || IsReadmeName(Lower(name)) || name == "package.json"
    ensures Lower(Suffix(name)) == ".py" ==>
      (r.Some? <==> facts.docstring.Some?) && (r.Some? ==> r.value == FirstDocLine(facts.docstring.value))
    ensures IsJsSuffix(Lower(Suffix(name))) ==>
      (facts.content.None? ==> r.None?) && (facts.content.Some? ==> r == JsDescription(facts.content.value))
    ensures IsReadmeName(Lower(name)) && Lower(Suffix(name)) != ".py" && !IsJsSuffix(Lower(Suffix(name))) ==>
      (facts.content.None? ==> r.None?) && (facts.content.Some? ==> r == ReadmeDescription(facts.content.value))
  {
    match KindOf(name)
    case PythonFile => if facts.docstring.Some? then Some(FirstDocLine(facts.docstring.value)) else None
    case ScriptFile => if facts.content.Some? then JsDescription(facts.content.value) else None
    case ReadmeFile => if facts.content.Some? then ReadmeDescription(facts.content.value) else None
    case PackageFile => facts.packageDescription
    case OtherFile => None
  }
}
