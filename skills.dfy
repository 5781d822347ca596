/**
 * Skills: markdown prompt files kept in a public and a private directory
 * (modules/skills_loader.py). A skill's name is its file stem, its source
 * is decided from the directory path, and its description is the first
 * heading or the first meaningful paragraph line of the file.
 *
 * The directories, the `*.md` listing and file reads are the `SkillDisk`
 * parameter; paths are sequences of components.
 */
module Skills {
  import opened Wrappers
  import opened Strings

  // ---------------------------------------------------------------------
  // `_extract_description` (modules/skills_loader.py:36-52)
  // ---------------------------------------------------------------------

  /**
   * What one line yields once stripped: nothing when blank, a heading's text
   * without its leading '#' marks, or a line longer than 20 characters cut to
   * 100 characters plus "...".
   */
  function SkillCandidate(line: string): (r: Option<string>)
    ensures Strip(line) == "" ==> r.None?
    ensures StartsWith(Strip(line), "#") ==> r == Some(Strip(LStripChar(Strip(line), '#')))
    ensures Strip(line) != "" && !StartsWith(Strip(line), "#") ==>
      (r.Some? <==> |Strip(line)| > 20) && (r.Some? ==> r.value == Truncate100(Strip(line)) && |r.value| <= 103)
  {
    var l := Strip(line);
    if l == "" then None
    else if StartsWith(l, "#") then Some(Strip(LStripChar(l, '#')))
    else if |l| > 20 then Some(Truncate100(l))
    else None
  }

  /** The lines of the stripped content. */
  function SkillLines(content: string): seq<string>
  {
    Lines(Strip(content))
  }

  function SkillCandidates(content: string): (r: seq<Option<string>>)
    ensures |r| == |SkillLines(content)|
    ensures forall k :: 0 <= k < |r| ==> r[k] == SkillCandidate(SkillLines(content)[k])
  {
    var lines := SkillLines(content);
    seq(|lines|, k requires 0 <= k < |lines| => SkillCandidate(lines[k]))
  }

  /**
   * The description is what the first line that yields anything yields; no
   * such line gives `None`.
   */
  function ExtractDescription(content: string): (r: Option<string>)
    ensures r.None? <==> forall k :: 0 <= k < |SkillCandidates(content)| ==> SkillCandidates(content)[k].None?
    ensures r.Some? ==>
      exists k :: 0 <= k < |SkillCandidates(content)| && r == SkillCandidates(content)[k]
        && forall j :: 0 <= j < k ==> SkillCandidates(content)[j].None?
  {
    var cs := SkillCandidates(content);
    match FirstSome(cs, 0)
    case None => None
    case Some(k) => cs[k]
  }

  /**
   * A heading is the description when every line before it is blank or a
   * short (at most 20 characters) non-heading line; such lines are skipped.
   */
  lemma HeadingWins(content: string, i: nat)
    requires i < |SkillLines(content)|
    requires forall k :: 0 <= k < i ==>
      (Strip(SkillLines(content)[k]) == "" || (!StartsWith(Strip(SkillLines(content)[k]), "#") && |Strip(SkillLines(content)[k])| <= 20))
    requires StartsWith(Strip(SkillLines(content)[i]), "#")
    ensures ExtractDescription(content) == Some(Strip(LStripChar(Strip(SkillLines(content)[i]), '#')))
  {
    var lines := SkillLines(content);
    var cs := SkillCandidates(content);
    forall k | 0 <= k < i ensures cs[k].None? {
      assert cs[k] == SkillCandidate(lines[k]);
    }
    assert cs[i] == SkillCandidate(lines[i]);
    FirstSomeAt(cs, i);
  }

  /**
   * Without a heading, a paragraph line is returned only when it is longer
   * than 20 characters, the lines before it being blank or too short; the
   * description is then at most 103 characters.
   */
  lemma ParagraphWins(content: string, i: nat)
    requires i < |SkillLines(content)|
    requires forall k :: 0 <= k < i ==>
      (Strip(SkillLines(content)[k]) == "" || (!StartsWith(Strip(SkillLines(content)[k]), "#") && |Strip(SkillLines(content)[k])| <= 20))
    requires !StartsWith(Strip(SkillLines(content)[i]), "#") && |Strip(SkillLines(content)[i])| > 20
    ensures ExtractDescription(content) == Some(Truncate100(Strip(SkillLines(content)[i])))
    ensures |ExtractDescription(content).value| <= 103
  {
    var lines := SkillLines(content);
    var cs := SkillCandidates(content);
    forall k | 0 <= k < i ensures cs[k].None? {
      assert cs[k] == SkillCandidate(lines[k]);
    }
    assert cs[i] == SkillCandidate(lines[i]);
    FirstSomeAt(cs, i);
  }

  // ---------------------------------------------------------------------
  // Listing and loading (modules/skills_loader.py:17-33, :55-157)
  // ---------------------------------------------------------------------

  type Path = seq<string>

  datatype SkillDisk = SkillDisk(
    isPresent: Path -> bool,
    markdownFiles: Path -> seq<Path>,   // `glob('*.md')` of a directory
    read: Path -> Result<string, string>)

  function PathText(p: Path): string
  {
    "/" + Join(p, "/")
  }

  /** `_get_skills_directories`: the public, then the private directory, each only when present. */
  function SkillsDirs(disk: SkillDisk, baseDir: Path): (dirs: seq<Path>)
    ensures |dirs| <= 2
    ensures forall d :: d in dirs ==> disk.isPresent(d)
    ensures forall d :: d in dirs ==> d == baseDir + ["modules", "skills"] || d == baseDir + ["private", "skills"]
    ensures (baseDir + ["modules", "skills"] in dirs) <==> disk.isPresent(baseDir + ["modules", "skills"])
    ensures (baseDir + ["private", "skills"] in dirs) <==> disk.isPresent(baseDir + ["private", "skills"])
    ensures disk.isPresent(baseDir + ["modules", "skills"]) ==> dirs[0] == baseDir + ["modules", "skills"]
    ensures |dirs| == 2 ==> dirs[0] == baseDir + ["modules", "skills"] && dirs[1] == baseDir + ["private", "skills"]
  {
    var pub := baseDir + ["modules", "skills"];
    var priv := baseDir + ["private", "skills"];
    assert pub != priv by { assert pub[|baseDir|] != priv[|baseDir|]; }
    (if disk.isPresent(pub) then [pub] else []) + (if disk.isPresent(priv) then [priv] else [])
  }

  /** A skill is "private" exactly when its directory's path text contains "private". */
  function SourceOf(dir: Path): (source: string)
    ensures source == "private" <==> Contains(PathText(dir), "private")
    ensures source == "public" <==> !Contains(PathText(dir), "private")
  {
    if Contains(PathText(dir), "private") then "private" else "public"
  }

  function FileName(p: Path): string
  {
    if p == [] then "" else p[|p| - 1]
  }

  datatype SkillInfo = SkillInfo(name: string, description: Option<string>, source: string, path: string)

  /** The entry of one readable file. */
  function InfoOf(dir: Path, file: Path, content: string): (s: SkillInfo)
    ensures s.name + Suffix(FileName(file)) == FileName(file)
    ensures s.source == SourceOf(dir) && s.description == ExtractDescription(content)
  {
    SkillInfo(Stem(FileName(file)), ExtractDescription(content), SourceOf(dir), PathText(file))
  }

  /** The entries of the files of one directory; a file that cannot be read is skipped. */
  function ListFiles(disk: SkillDisk, dir: Path, files: seq<Path>): (r: seq<SkillInfo>)
    ensures |r| <= |files|
  {
    if files == [] then []
    else
      var rest := ListFiles(disk, dir, files[1..]);
      match disk.read(files[0])
      case Err(_) => rest
      case Ok(content) => [InfoOf(dir, files[0], content)] + rest
  }

  /** Every readable file is listed. */
  lemma {:induction false} ListFilesComplete(disk: SkillDisk, dir: Path, files: seq<Path>)
    ensures forall f :: f in files && disk.read(f).Ok? ==> InfoOf(dir, f, disk.read(f).value) in ListFiles(disk, dir, files)
  {
    if files != [] {
      ListFilesComplete(disk, dir, files[1..]);
      var rest := ListFiles(disk, dir, files[1..]);
      assert forall f :: f in files ==> f == files[0] || f in files[1..];
      match disk.read(files[0])
      case Err(_) =>
        assert ListFiles(disk, dir, files) == rest;
      case Ok(content) =>
        assert ListFiles(disk, dir, files) == [InfoOf(dir, files[0], content)] + rest;
    }
  }

  /** Every entry comes from a readable file of the directory. */
  lemma {:induction false} ListFilesSound(disk: SkillDisk, dir: Path, files: seq<Path>)
    ensures forall s :: s in ListFiles(disk, dir, files) ==>
      exists f :: f in files && disk.read(f).Ok? && s == InfoOf(dir, f, disk.read(f).value)
  {
    if files != [] {
      ListFilesSound(disk, dir, files[1..]);
      var rest := ListFiles(disk, dir, files[1..]);
      forall s | s in ListFiles(disk, dir, files)
        ensures exists f :: f in files && disk.read(f).Ok? && s == InfoOf(dir, f, disk.read(f).value)
      {
        if s in rest {
          var f :| f in files[1..] && disk.read(f).Ok? && s == InfoOf(dir, f, disk.read(f).value);
          assert f in files;
        } else {
          assert disk.read(files[0]).Ok? && s == InfoOf(dir, files[0], disk.read(files[0]).value);
          assert files[0] in files;
        }
      }
    }
  }

  /** The entries of every directory in turn: exactly the readable `*.md` files of `dirs`. */
  function ListDirs(disk: SkillDisk, dirs: seq<Path>): (r: seq<SkillInfo>)
    ensures forall d, f :: d in dirs && f in disk.markdownFiles(d) && disk.read(f).Ok? ==>
      InfoOf(d, f, disk.read(f).value) in r
    ensures forall s :: s in r ==>
      exists d, f :: d in dirs && f in disk.markdownFiles(d) && disk.read(f).Ok?
        && s == InfoOf(d, f, disk.read(f).value)
  {
    if dirs == [] then []
    else
      ListFilesComplete(disk, dirs[0], disk.markdownFiles(dirs[0]));
      ListFilesSound(disk, dirs[0], disk.markdownFiles(dirs[0]));
      var rest := ListDirs(disk, dirs[1..]);
      assert forall d :: d in dirs[1..] ==> d in dirs;
      assert forall d :: d in dirs ==> d == dirs[0] || d in dirs[1..];
      ListFiles(disk, dirs[0], disk.markdownFiles(dirs[0])) + rest
  }

  datatype Listing = Listing(skills: seq<SkillInfo>, count: nat, message: string)

  /** `list_skills()` (modules/skills_loader.py:55-98). */
  function ListSkills(disk: SkillDisk, baseDir: Path): (r: Listing)
    ensures r.count == |r.skills| && r.message == "Found " + NatToString(r.count) + " skills"
  {
    var skills := ListDirs(disk, SkillsDirs(disk, baseDir));
    Listing(skills, |skills|, "Found " + NatToString(|skills|) + " skills")
  }

  const Instructions := "This is your skill prompt. Embody this mode in the current session. "
    + "The prompt defines how you should think, communicate, and collaborate "
    + "while in this mode."

  datatype UseResult =
    | Loaded(skillName: string, prompt: string, source: string, instructions: string)
    | LoadFailed(error: string, skillName: string)
    | NotFound(error: string, skillName: string, availableSkills: seq<string>, suggestion: string)

  function Names(skills: seq<SkillInfo>): (names: seq<string>)
    ensures |names| == |skills| && forall k :: 0 <= k < |skills| ==> names[k] == skills[k].name
  {
    seq(|skills|, k requires 0 <= k < |skills| => skills[k].name)
  }

  function SkillFile(dir: Path, skillName: string): Path
  {
    dir + [skillName + ".md"]
  }

  /** `skill_file.exists()` for one directory. */
  predicate HoldsSkill(disk: SkillDisk, dir: Path, skillName: string)
  {
    disk.isPresent(SkillFile(dir, skillName))
  }

  /**
   * The answer for a directory holding the file (modules/skills_loader.py:126-146):
   * the prompt with the directory's source when the read succeeds, the read
   * error otherwise.
   */
  function SkillAnswer(disk: SkillDisk, dir: Path, skillName: string): (r: UseResult)
    ensures r.skillName == skillName && (r.Loaded? || r.LoadFailed?)
    ensures r.Loaded? <==> disk.read(SkillFile(dir, skillName)).Ok?
    ensures r.Loaded? ==>
      r.prompt == disk.read(SkillFile(dir, skillName)).value && r.source == SourceOf(dir) && r.instructions == Instructions
    ensures r.LoadFailed? ==>
      r.error == "Failed to load skill '" + skillName + "': " + disk.read(SkillFile(dir, skillName)).error
  {
    match disk.read(SkillFile(dir, skillName))
    case Ok(prompt) => Loaded(skillName, prompt, SourceOf(dir), Instructions)
    case Err(e) => LoadFailed("Failed to load skill '" + skillName + "': " + e, skillName)
  }

  /**
   * The search loop from position `from` on: the answer of the first
   * directory holding the file, `None` when none does.
   */
  function FindSkill(disk: SkillDisk, dirs: seq<Path>, skillName: string, from: nat): (r: Option<UseResult>)
    requires from <= |dirs|
    ensures r.None? <==> forall k :: from <= k < |dirs| ==> !HoldsSkill(disk, dirs[k], skillName)
    ensures r.Some? ==>
      exists j :: from <= j < |dirs| && HoldsSkill(disk, dirs[j], skillName)
        && (forall k :: from <= k < j ==> !HoldsSkill(disk, dirs[k], skillName))
        && r.value == SkillAnswer(disk, dirs[j], skillName)
    decreases |dirs| - from
  {
    if from == |dirs| then None
    else if HoldsSkill(disk, dirs[from], skillName) then Some(SkillAnswer(disk, dirs[from], skillName))
    else FindSkill(disk, dirs, skillName, from + 1)
  }

  /**
   * `use_skill(skill_name)`: the answer of the first directory holding the
   * file; otherwise the error lists the names `list_skills` reports.
   */
  function UseSkill(disk: SkillDisk, baseDir: Path, skillName: string): (r: UseResult)
    ensures r.NotFound? <==> forall d :: d in SkillsDirs(disk, baseDir) ==> !HoldsSkill(disk, d, skillName)
    ensures r.NotFound? ==>
      (r.availableSkills == Names(ListSkills(disk, baseDir).skills) && r.error == "Skill '" + skillName + "' not found"
       && r.suggestion == "Use list_skills() to see all available skills")
    ensures !r.NotFound? ==>
      exists j :: 0 <= j < |SkillsDirs(disk, baseDir)|
        && HoldsSkill(disk, SkillsDirs(disk, baseDir)[j], skillName)
        && (forall k :: 0 <= k < j ==> !HoldsSkill(disk, SkillsDirs(disk, baseDir)[k], skillName))
        && r == SkillAnswer(disk, SkillsDirs(disk, baseDir)[j], skillName)
    ensures r.skillName == skillName
  {
    var dirs := SkillsDirs(disk, baseDir);
    match FindSkill(disk, dirs, skillName, 0)
    case Some(found) => found
    case None =>
      assert forall d :: d in dirs ==> exists k :: 0 <= k < |dirs| && dirs[k] == d;
      NotFound("Skill '" + skillName + "' not found", skillName, Names(ListSkills(disk, baseDir).skills),
               "Use list_skills() to see all available skills")
  }

  /** A skill the public directory holds is answered from there, whatever the private directory holds. */
  lemma PublicShadowsPrivate(disk: SkillDisk, baseDir: Path, skillName: string)
    requires disk.isPresent(baseDir + ["modules", "skills"]) && HoldsSkill(disk, baseDir + ["modules", "skills"], skillName)
    ensures UseSkill(disk, baseDir, skillName) == SkillAnswer(disk, baseDir + ["modules", "skills"], skillName)
  {
    var dirs := SkillsDirs(disk, baseDir);
    assert dirs[0] == baseDir + ["modules", "skills"];
  }

  /** Otherwise a skill the private directory holds is answered from there. */
  lemma PrivateWhenNotPublic(disk: SkillDisk, baseDir: Path, skillName: string)
    requires !(disk.isPresent(baseDir + ["modules", "skills"]) && HoldsSkill(disk, baseDir + ["modules", "skills"], skillName))
    requires disk.isPresent(baseDir + ["private", "skills"]) && HoldsSkill(disk, baseDir + ["private", "skills"], skillName)
    ensures UseSkill(disk, baseDir, skillName) == SkillAnswer(disk, baseDir + ["private", "skills"], skillName)
  {
    var dirs := SkillsDirs(disk, baseDir);
    var pub := baseDir + ["modules", "skills"];
    var priv := baseDir + ["private", "skills"];
    assert priv in dirs;
    assert forall k :: 0 <= k < |dirs| && dirs[k] != priv ==> dirs[k] == pub;
  }

  /**
   * The source test reads the whole path: when the base directory's own path
   * contains "private", skills of the public directory are reported private too.
   */
  lemma PublicUnderPrivatePath(baseDir: Path)
    requires Contains(PathText(baseDir), "private")
    ensures SourceOf(baseDir + ["modules", "skills"]) == "private"
  {
    var d := baseDir + ["modules", "skills"];
    var t := PathText(baseDir);
    var u := PathText(d);
    assert d[..|baseDir|] == baseDir;
    JoinPrefix(baseDir, ["modules", "skills"], "/");
    assert StartsWith(u, t);
    assert u[..|t|] == t;
    assert Contains(u[..|t|], "private");
    var j :| 0 <= j <= |t| && OccursAt(t, "private", j);
    assert u[j..j + 7] == t[j..j + 7];
    ContainsAt(u, "private", j);
  }

  lemma {:induction false} JoinPrefix(a: seq<string>, b: seq<string>, sep: string)
    requires |b| >= 1
    ensures StartsWith(Join(a + b, sep), Join(a, sep))
  {
    if |a| > 1 {
      assert (a + b)[1..] == a[1..] + b;
      JoinPrefix(a[1..], b, sep);
      JoinCons(a[0], a[1..], sep);
      JoinCons(a[0], a[1..] + b, sep);
      assert a + b == [a[0]] + (a[1..] + b);
      assert a == [a[0]] + a[1..];
    } else if |a| == 1 {
      JoinCons(a[0], b, sep);
      assert a + b == [a[0]] + b;
    }
  }
}
