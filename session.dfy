/**
 * Working preferences kept in `working_preferences.md`
 * (modules/session_utils.py): loading the file, appending a preference to
 * it, and looking one up by a scan of its lines.
 *
 * The file is the `content` field of `PreferencesFile`, `None` while it does
 * not exist. A failing read, a failing create and a failing append are given
 * as optional error texts.
 */
module SessionPreferences {
  import opened Wrappers
  import opened Strings

  const Header := "# Working Preferences\n\n"

  const NoFileMessage := "No working_preferences.md file found. "
    + "Create one to define your collaboration preferences.\n\n"
    + "Example preferences:\n"
    + "- Communication style (emoji usage, verbosity)\n"
    + "- Technical preferences (OOP vs functional, frameworks)\n"
    + "- Collaboration patterns (explain vs execute, ask vs assume)"

  /** The line `save_working_preference` appends, without its newline. */
  function PreferenceLine(key: string, value: string): string
  {
    "- **" + key + "**: " + value
  }

  /** `s.split(c, 1)[1]`: what follows the first `c`. */
  function AfterFirst(s: string, c: char): (r: string)
    requires c in s
    ensures |r| < |s| && r == s[|s| - |r|..] && s[|s| - |r| - 1] == c
    ensures forall i :: 0 <= i < |s| - |r| - 1 ==> s[i] != c
  {
    if s[0] == c then s[1..] else AfterFirst(s[1..], c)
  }

  /** What one line yields for `key`: the stripped text after its first ':' when it names the key. */
  function Candidate(key: string, line: string): (r: Option<string>)
    ensures r.Some? <==> ContainsIgnoringCase(line, key) && ':' in line
    ensures r.Some? ==> r.value == Strip(AfterFirst(line, ':')) && |r.value| < |line|
  {
    if ContainsIgnoringCase(line, key) && ':' in line then Some(Strip(AfterFirst(line, ':'))) else None
  }

  function CandidatesOf(key: string, lines: seq<string>): (r: seq<Option<string>>)
    ensures |r| == |lines| && forall k :: 0 <= k < |lines| ==> r[k] == Candidate(key, lines[k])
  {
    seq(|lines|, k requires 0 <= k < |lines| => Candidate(key, lines[k]))
  }

  function Candidates(key: string, content: string): (r: seq<Option<string>>)
    ensures |r| == |Lines(content)| && forall k :: 0 <= k < |r| ==> r[k] == Candidate(key, Lines(content)[k])
  {
    CandidatesOf(key, Lines(content))
  }

  lemma CandidatesOfConcat(key: string, x: seq<string>, y: seq<string>)
    ensures CandidatesOf(key, x + y) == CandidatesOf(key, x) + CandidatesOf(key, y)
  {
    var c := CandidatesOf(key, x + y);
    var a := CandidatesOf(key, x);
    var b := CandidatesOf(key, y);
    forall k | 0 <= k < |c| ensures c[k] == (a + b)[k] {
      if k < |x| {
        assert (x + y)[k] == x[k];
        assert c[k] == Candidate(key, x[k]) == a[k];
      } else {
        assert (x + y)[k] == y[k - |x|];
        assert c[k] == Candidate(key, y[k - |x|]) == b[k - |x|];
      }
    }
  }

  /** The value of the first line that names the key and has a ':'. */
  function Lookup(content: string, key: string): (r: Option<string>)
    ensures r.None? <==> forall k :: 0 <= k < |Candidates(key, content)| ==> Candidates(key, content)[k].None?
    ensures r.Some? ==>
      exists k :: 0 <= k < |Candidates(key, content)| && Candidates(key, content)[k] == r
        && forall j :: 0 <= j < k ==> Candidates(key, content)[j].None?
  {
    FirstValue(Candidates(key, content))
  }

  /** `get_preference(key)` on a file's state. */
  function PreferenceText(content: Option<string>, key: string, readError: Option<string>): (r: string)
    ensures content.None? ==> r == "Preference '" + key + "' not found (no preferences file exists)"
    ensures content.Some? && readError.Some? ==> r == "Error looking up preference: " + readError.value
    ensures content.Some? && readError.None? ==>
      r == (if Lookup(content.value, key).Some? then Lookup(content.value, key).value
            else "Preference '" + key + "' not found in working_preferences.md")
  {
    if content.None? then "Preference '" + key + "' not found (no preferences file exists)"
    else if readError.Some? then "Error looking up preference: " + readError.value
    else match Lookup(content.value, key)
      case Some(v) => v
      case None => "Preference '" + key + "' not found in working_preferences.md"
  }

  /** `load_working_preferences()` on a file's state. */
  function LoadText(content: Option<string>, readError: Option<string>): (text: string)
    ensures content.Some? && readError.None? ==> text == content.value
    ensures content.None? ==> text == NoFileMessage
    ensures content.Some? && readError.Some? ==> text == "Error reading preferences: " + readError.value
  {
    if content.None? then NoFileMessage
    else if readError.Some? then "Error reading preferences: " + readError.value
    else content.value
  }

  datatype SaveResult = Saved(message: string) | SaveFailed(error: string)

  /** The file after a save, and the result: the header is written first when the file is missing. */
  function Save(content: Option<string>, key: string, value: string,
                createError: Option<string>, appendError: Option<string>): (r: (Option<string>, SaveResult))
    ensures r.1.Saved? <==> (content.Some? || createError.None?) && appendError.None?
    ensures r.1.Saved? ==>
      (r.0.Some? && r.1.message == "Preference saved: " + key + " = " + value
       && r.0.value == (if content.Some? then content.value else Header) + PreferenceLine(key, value) + "\n")
    ensures r.1.SaveFailed? ==> r.0 == content || (content.None? && r.0 == Some(Header))
  {
    if content.None? && createError.Some? then (content, SaveFailed("Failed to save preference: " + createError.value))
    else
      var base := if content.Some? then content.value else Header;
      if appendError.Some? then (Some(base), SaveFailed("Failed to save preference: " + appendError.value))
      else (Some(base + PreferenceLine(key, value) + "\n"), Saved("Preference saved: " + key + " = " + value))
  }

  class PreferencesFile {
    var content: Option<string>

    constructor(initial: Option<string>)
      ensures content == initial
    {
      content := initial;
    }

    method LoadWorkingPreferences(readError: Option<string>) returns (text: string)
      ensures text == LoadText(content, readError)
    {
      if content.None? {
        return NoFileMessage;
      }
      if readError.Some? {
        return "Error reading preferences: " + readError.value;
      }
      text := content.value;
    }

    method SaveWorkingPreference(key: string, value: string, createError: Option<string>, appendError: Option<string>)
      returns (r: SaveResult)
      modifies this
      ensures (content, r) == Save(old(content), key, value, createError, appendError)
    {
      if content.None? {
        if createError.Some? {
          return SaveFailed("Failed to save preference: " + createError.value);
        }
        content := Some(Header);
      }
      if appendError.Some? {
        return SaveFailed("Failed to save preference: " + appendError.value);
      }
      content := Some(content.value + PreferenceLine(key, value) + "\n");
      r := Saved("Preference saved: " + key + " = " + value);
    }

    method GetPreference(key: string, readError: Option<string>) returns (text: string)
      ensures text == PreferenceText(content, key, readError)
    {
      if content.None? {
        return "Preference '" + key + "' not found (no preferences file exists)";
      }
      if readError.Some? {
        return "Error looking up preference: " + readError.value;
      }
      var found := ScanLines(content.value, key);
      if found.Some? {
        return found.value;
      }
      text := "Preference '" + key + "' not found in working_preferences.md";
    }

    /** The early-return loop over the lines of the file. */
    static method ScanLines(content: string, key: string) returns (r: Option<string>)
      ensures r == Lookup(content, key)
    {
      var lines := Lines(content);
      ghost var cs := Candidates(key, content);
      var lowerKey := Lower(key);
      for i := 0 to |lines|
        invariant FirstSome(cs, 0) == FirstSome(cs, i)
      {
        var line := lines[i];
        if Contains(Lower(line), lowerKey) && ':' in line {
          return Some(Strip(AfterFirst(line, ':')));
        }
      }
      return None;
    }
  }

  // ---------------------------------------------------------------------
  // Saving, then looking up
  // ---------------------------------------------------------------------

  /** The scan run over two blocks of lines reads the first block first. */
  lemma LookupConcat(p: string, q: string, key: string)
    requires Lookup(p, key).None?
    ensures Lookup(p + "\n" + q, key) == Lookup(q, key)
  {
    LinesConcat(p, q);
    var a := Candidates(key, p);
    var b := Candidates(key, q);
    var c := Candidates(key, p + "\n" + q);
    CandidatesOfConcat(key, Lines(p), Lines(q));
    assert c == a + b;
    FirstValueSkip(a, b);
  }

  /** A key placed anywhere in a line is found in it, whatever the case. */
  lemma ContainsIgnoringCaseInfix(a: string, key: string, b: string)
    ensures ContainsIgnoringCase(a + key + b, key)
  {
    var s := a + key + b;
    var l := Lower(s);
    forall i | 0 <= i < |key| ensures l[|a| + i] == Lower(key)[i] {
      assert s[|a| + i] == key[i];
    }
    assert l[|a|..|a| + |key|] == Lower(key);
    ContainsAt(l, Lower(key), |a|);
  }

  /** Stripping a value that has no outer white space, after the space the line format puts before it. */
  lemma StripSpaced(v: string)
    requires v == [] || (!IsSpace(v[0]) && !IsSpace(v[|v| - 1]))
    ensures Strip(" " + v) == v
  {
    assert (" " + v)[1..] == v;
    assert TrimLeft(" " + v) == TrimLeft(v);
  }

  /** The appended line is found for its key and yields its value. */
  lemma LineYieldsValue(key: string, value: string)
    requires ':' !in key
    requires value == [] || (!IsSpace(value[0]) && !IsSpace(value[|value| - 1]))
    ensures Candidate(key, PreferenceLine(key, value)) == Some(value)
  {
    assert key == "" + key + "";
    KeyInsideName("", key, "", value);
  }

  /**
   * The key is matched as a piece of text, not as a whole name: looking up
   * `key` also finds the line of any name around it (`emoji` finds the
   * line saved for `emoji_usage`).
   */
  lemma KeyInsideName(before: string, key: string, after: string, value: string)
    requires ':' !in before + key + after
    requires value == [] || (!IsSpace(value[0]) && !IsSpace(value[|value| - 1]))
    ensures Candidate(key, PreferenceLine(before + key + after, value)) == Some(value)
  {
    var name := before + key + after;
    var line := PreferenceLine(name, value);
    assert line == ("- **" + before) + key + (after + "**: " + value);
    ContainsIgnoringCaseInfix("- **" + before, key, after + "**: " + value);
    var a := "- **" + name + "**";
    forall j | 0 <= j < |a| ensures a[j] != ':' {
      if 4 <= j < 4 + |name| { assert a[j] == name[j - 4]; }
    }
    assert line == a + ":" + (" " + value);
    AfterColon(a, " " + value);
    StripSpaced(value);
  }

  lemma AfterColon(a: string, b: string)
    requires ':' !in a
    ensures ':' in a + ":" + b && AfterFirst(a + ":" + b, ':') == b
  {
    var s := a + ":" + b;
    assert s[|a|] == ':';
    var r := AfterFirst(s, ':');
    var i := |s| - |r| - 1;
    assert forall j :: 0 <= j < |a| ==> s[j] == a[j];
    assert i == |a|;
  }

  /**
   * Saving `key = value` and then looking the key up yields the value, as long
   * as the key has no ':', neither has a line break, the value has no outer
   * white space, the file ended with a line break and no earlier line matches.
   */
  lemma SaveThenGet(content: Option<string>, key: string, value: string)
    requires ':' !in key && '\n' !in key && '\n' !in value
    requires value == [] || (!IsSpace(value[0]) && !IsSpace(value[|value| - 1]))
    requires content.Some? ==> Lookup(content.value, key).None? && (content.value == "" || content.value[|content.value| - 1] == '\n')
    ensures var (saved, r) := Save(content, key, value, None, None);
      r.Saved? && saved.Some? && Lookup(saved.value, key) == Some(value) && PreferenceText(saved, key, None) == value
  {
    var line := PreferenceLine(key, value);
    var base := if content.Some? then content.value else Header;
    LineYieldsValue(key, value);
    LineHasNoBreak(key, value);
    if base == "" {
      EmptyBase(base, line);
      LookupOfLine(line, key);
    } else {
      if content.None? {
        HeaderHasNoValue(key);
      } else {
        LookupTrailing(base, key);
      }
      AppendedLineFound(base, line, key);
    }
  }

  lemma LineHasNoBreak(key: string, value: string)
    requires '\n' !in key && '\n' !in value
    ensures '\n' !in PreferenceLine(key, value)
  {
    var line := PreferenceLine(key, value);
    forall j | 0 <= j < |line| ensures line[j] != '\n' {
      if 4 <= j < 4 + |key| {
        assert line[j] == key[j - 4];
      } else if j >= |key| + 8 {
        assert line[j] == value[j - |key| - 8];
      }
    }
  }

  lemma EmptyBase(base: string, line: string)
    requires base == ""
    ensures base + line + "\n" == line + "\n"
  {
  }

  /** A line appended after a file whose lines do not match is the one found. */
  lemma AppendedLineFound(base: string, line: string, key: string)
    requires '\n' !in line
    requires |base| > 0 && base[|base| - 1] == '\n' && Lookup(base[..|base| - 1], key).None?
    ensures Lookup(base + line + "\n", key) == Candidate(key, line)
  {
    LookupOfLine(line, key);
    Regroup(base, line);
    LookupConcat(base[..|base| - 1], line + "\n", key);
  }

  lemma Regroup(base: string, line: string)
    requires |base| > 0 && base[|base| - 1] == '\n'
    ensures base + line + "\n" == base[..|base| - 1] + "\n" + (line + "\n")
  {
    assert base == base[..|base| - 1] + "\n";
  }

  /** A file of one line holds what that line yields. */
  lemma LookupOfLine(line: string, key: string)
    requires '\n' !in line
    ensures Lookup(line + "\n", key) == Candidate(key, line)
  {
    LinesTrailing(line);
    SingleLine(line);
    var cs := Candidates(key, line + "\n");
    assert cs == [Candidate(key, line), Candidate(key, "")];
    assert cs[1].None?;
    if cs[0].Some? {
      FirstSomeAt(cs, 0);
    }
  }

  /** The lines of the header have no ':', so they never match. */
  lemma HeaderHasNoValue(key: string)
    ensures Lookup(Header[..|Header| - 1], key).None?
  {
    var h := "# Working Preferences";
    assert Header[..|Header| - 1] == h + "\n";
    assert ':' !in h && '\n' !in h;
    LookupOfLine(h, key);
  }

  /** Dropping the final line break keeps a scan that found nothing empty. */
  lemma LookupTrailing(base: string, key: string)
    requires |base| > 0 && base[|base| - 1] == '\n' && Lookup(base, key).None?
    ensures Lookup(base[..|base| - 1], key).None?
  {
    var p := base[..|base| - 1];
    assert base == p + "\n";
    LinesTrailing(p);
    var a := Candidates(key, p);
    var c := Candidates(key, p + "\n");
    assert forall k :: 0 <= k < |a| ==> a[k] == c[k];
  }

  /** The lines of a text are scanned the same with or without a final line break. */
  lemma LookupDropNewline(x: string, key: string)
    ensures Lookup(x + "\n", key) == Lookup(x, key)
  {
    LinesTrailing(x);
    CandidatesOfConcat(key, Lines(x), [""]);
    var a := Candidates(key, x);
    assert Candidates(key, x + "\n") == a + [Candidate(key, "")];
    if FirstValue(a).Some? {
      FirstValuePrefix(a, [Candidate(key, "")]);
    } else {
      FirstValueSkip(a, [Candidate(key, "")]);
    }
  }

  /** Once a line matches, whatever follows it is never reached. */
  lemma LookupConcatFound(p: string, q: string, key: string)
    requires Lookup(p, key).Some?
    ensures Lookup(p + "\n" + q, key) == Lookup(p, key)
  {
    LinesConcat(p, q);
    CandidatesOfConcat(key, Lines(p), Lines(q));
    FirstValuePrefix(Candidates(key, p), Candidates(key, q));
  }

  /**
   * Saving a key a second time appends a second line, and the lookup keeps
   * returning the first value: a save adds, it never updates.
   */
  lemma SaveTwiceKeepsFirst(content: Option<string>, key: string, first: string, second: string)
    requires ':' !in key && '\n' !in key && '\n' !in first
    requires first == [] || (!IsSpace(first[0]) && !IsSpace(first[|first| - 1]))
    requires content.Some? ==> Lookup(content.value, key).None? && (content.value == "" || content.value[|content.value| - 1] == '\n')
    ensures var (once, _) := Save(content, key, first, None, None);
      var (twice, r) := Save(once, key, second, None, None);
      r.Saved? && PreferenceText(twice, key, None) == first
  {
    SaveThenGet(content, key, first);
    var once := Save(content, key, first, None, None).0.value;
    var p := once[..|once| - 1];
    assert once == p + "\n";
    LookupDropNewline(p, key);
    Regroup(once, PreferenceLine(key, second));
    LookupConcatFound(p, PreferenceLine(key, second) + "\n", key);
  }
}
