/** The record shapes both scanners produce and the migrator consumes
    (the `ScanResults`, `Issue`, `Dependency` and `BuildSystem` records of
    cli/internal/sdk/types.go and the dictionaries of sdk/scanner.py), the
    project tree both scanners walk, and the recommendation messages both
    scanners derive from a scan. */
module Report {
  import opened Text

  // Category names, spelled as the pattern tables spell them.
  const InlineAssembly: string := "inline_assembly"
  const X86Intrinsics: string := "x86_intrinsics"
  const ArchitectureChecks: string := "architecture_checks"
  const PlatformSpecific: string := "platform_specific"

  /** Severity of an issue and confidence of a change share the three tiers. */
  datatype Level = High | Medium | Low

  datatype Issue = Issue(
    file: string,
    line: int,
    category: string,
    pattern: string,
    matchedText: string,
    severity: Level,
    suggestion: string)

  datatype Dependency = Dependency(name: string, version: string, kind: string, armCompatible: string)

  datatype BuildSystem = BuildSystem(file: string, system: string, needsReview: bool)

  datatype ScanReport = ScanReport(
    totalFiles: nat,
    scannedFiles: nat,
    issues: seq<Issue>,
    dependencies: seq<Dependency>,
    buildSystems: seq<BuildSystem>,
    recommendations: seq<string>)

  /** Every dependency record carries this compatibility verdict. */
  const Unknown: string := "unknown"

  /** A manifest file as a scanner finds it: missing, present but unreadable
      (or unparsable), interrupted by a read error after `delivered` was
      decoded, or present with its parsed contents. */
  datatype Manifest<T> = Absent | Unreadable | Interrupted(delivered: T) | Parsed(contents: T)

  /** `package.json` after `json.load`: the entries of its `dependencies`
      and `devDependencies` objects in file order (an absent object has
      none). */
  datatype NpmPackage = NpmPackage(dependencies: seq<(string, string)>, devDependencies: seq<(string, string)>)

  /** A value of Cargo.toml's `[dependencies]` table after `toml.load`: a
      version string, a table with or without a `version` key, or any other
      kind of value. */
  datatype CargoSpec = VersionText(text: string) | Table(versionKey: Option<string>) | OtherValue

  /** The four manifests both scanners look for in the project directory. */
  datatype Manifests = Manifests(
    packageJson: Manifest<NpmPackage>,
    requirementsTxt: Manifest<string>,
    cargoToml: Manifest<seq<(string, CargoSpec)>>,
    goMod: Manifest<string>)

  /** The lines of a text file: the pieces between newlines. */
  function TextLines(text: string): (r: seq<string>)
    ensures |r| >= 1 && forall i :: 0 <= i < |r| ==> '\n' !in r[i]
  {
    LinesHaveNoNewline(text);
    SplitAll(text, "\n")
  }

  /** The lines a line-by-line reader has handed out once `text` is all it
      has decoded: every piece but the unterminated last one. */
  function CompleteLines(text: string): seq<string> {
    var lines := TextLines(text);
    lines[..|lines| - 1]
  }

  /** The complete lines of a text are the first lines of any longer text
      it begins. */
  lemma {:induction false} CompleteLinesPrefix(text: string, rest: string)
    ensures CompleteLines(text) <= TextLines(text + rest)
    decreases |text|
  {
    var o := IndexOf(text, "\n");
    if o.Some? {
      var i := o.value;
      var line := text[..i];
      var tail := text[i + 1..];
      FirstLineCut(text, i);
      NewlineSplit(line, tail);
      NewlineSplit(line, tail + rest);
      assert text + rest == line + "\n" + (tail + rest);
      CompleteLinesPrefix(tail, rest);
    }
  }

  /** The first newline of a text cuts it into a newline-free first line
      and the rest. */
  lemma FirstLineCut(text: string, i: nat)
    requires IndexOf(text, "\n") == Some(i)
    ensures i < |text| && text == text[..i] + "\n" + text[i + 1..] && '\n' !in text[..i]
  {
    assert OccursAt(text, "\n", i);
    forall j | 0 <= j < i ensures text[..i][j] != '\n' {
      assert !OccursAt(text, "\n", j);
      assert text[j..j + 1] == [text[j]];
    }
  }

  /** Cutting at the first newline: the text before it is the first line. */
  lemma NewlineSplit(x: string, y: string)
    requires '\n' !in x
    ensures SplitAll(x + "\n" + y, "\n") == [x] + SplitAll(y, "\n")
  {
    var s := x + "\n" + y;
    assert OccursAt(s, "\n", |x|) by {
      assert s[|x|..|x| + 1] == "\n";
    }
    forall j | 0 <= j < |x| ensures !OccursAt(s, "\n", j) {
      assert s[j] == x[j];
    }
    assert IndexOf(s, "\n") == Some(|x|);
    assert s[..|x|] == x && s[|x| + 1..] == y;
  }

  lemma LinesHaveNoNewline(text: string)
    ensures forall i :: 0 <= i < |SplitAll(text, "\n")| ==> '\n' !in SplitAll(text, "\n")[i]
  {
    var r := SplitAll(text, "\n");
    SplitAllParts(text, "\n");
    forall i, j | 0 <= i < |r| && 0 <= j < |r[i]| ensures r[i][j] != '\n' {
      assert !OccursAt(r[i], "\n", j);
      assert r[i][j..j + 1] == [r[i][j]];
    }
  }

  /** One line inside a go.mod `require ( … )` block, as both scanners read
      it: once stripped, a line that is neither empty nor a `//` comment and
      has at least two whitespace-separated fields names a module (first
      field) at a version (second field). */
  function RequireLine(lang: Lang, raw: string): Option<Dependency> {
    var line := Strip(lang, raw);
    if line != [] && !StartsWith(line, "//") then
      var parts := Fields(lang, line);
      if |parts| >= 2 then Some(Dependency(parts[0], parts[1], "go", Unknown)) else None
    else None
  }

  /** A go.mod record: a non-empty module name and version without
      whitespace, compatibility not yet known. */
  predicate GoRecord(lang: Lang, d: Dependency) {
    d.kind == "go" && d.armCompatible == Unknown
    && |d.name| > 0 && NoSpace(lang, d.name) && |d.version| > 0 && NoSpace(lang, d.version)
  }

  /** Every record a line gives is a go.mod record. */
  lemma RequireLineIsGo(lang: Lang, raw: string)
    ensures RequireLine(lang, raw).Some? ==> GoRecord(lang, RequireLine(lang, raw).value)
  {
    var line := Strip(lang, raw);
    if line != [] && !StartsWith(line, "//") {
      var parts := Fields(lang, line);
      if |parts| >= 2 {
        assert parts[0] in parts && parts[1] in parts;
      }
    }
  }

  /** A line gives a record exactly when, stripped, it is neither empty nor
      a `//` comment and has at least two fields; the record takes the first
      two. */
  lemma RequireLineShape(lang: Lang, raw: string)
    ensures RequireLine(lang, raw).Some? <==>
      (Strip(lang, raw) != [] && !StartsWith(Strip(lang, raw), "//") && |Fields(lang, Strip(lang, raw))| >= 2)
    ensures RequireLine(lang, raw).Some? ==>
      (RequireLine(lang, raw).value.name == Fields(lang, Strip(lang, raw))[0] && RequireLine(lang, raw).value.version == Fields(lang, Strip(lang, raw))[1])
  {
  }

  lemma StripIndented(lang: Lang, x: string)
    requires x != [] && !IsSpace(lang, x[0]) && !IsSpace(lang, x[|x| - 1])
    ensures Strip(lang, "\t" + x) == x
  {
    assert ("\t" + x)[1..] == x;
    assert TrimLeft(lang, x) == x;
    assert TrimLeft(lang, "\t" + x) == x;
    StripNoSpace(lang, x);
  }

  lemma RequireLineOfFields(lang: Lang, raw: string, x: string, name: string, version: string)
    requires Strip(lang, raw) == x && x != [] && !StartsWith(x, "//") && Fields(lang, x) == [name, version]
    ensures RequireLine(lang, raw) == Some(Dependency(name, version, "go", Unknown))
  {
  }

  lemma NotCommentStart(name: string, rest: string)
    requires |name| > 0 && !StartsWith(name, "//")
    ensures !StartsWith(name + " " + rest, "//")
  {
    var x := name + " " + rest;
    if |name| >= 2 {
      assert x[..2] == name[..2];
    } else {
      assert x[1] == ' ';
    }
  }

  /** A tab-indented `module version` line reads back as that module at that
      version. */
  lemma RequireLineRoundTrip(lang: Lang, name: string, version: string)
    requires |name| > 0 && NoSpace(lang, name) && !StartsWith(name, "//")
    requires |version| > 0 && NoSpace(lang, version)
    ensures RequireLine(lang, "\t" + name + " " + version) == Some(Dependency(name, version, "go", Unknown))
  {
    assert "\t" + name + " " + version == "\t" + (name + " " + version);
    RequireLineIndented(lang, name, version);
  }

  lemma FieldsOfPair(lang: Lang, name: string, version: string)
    requires |name| > 0 && NoSpace(lang, name) && |version| > 0 && NoSpace(lang, version)
    ensures Fields(lang, name + " " + version) == [name, version]
  {
    FieldsCons(lang, name, version);
    FieldsOfWord(lang, version);
  }

  lemma RequireLineIndented(lang: Lang, name: string, version: string)
    requires |name| > 0 && NoSpace(lang, name) && !StartsWith(name, "//")
    requires |version| > 0 && NoSpace(lang, version)
    ensures RequireLine(lang, "\t" + (name + " " + version)) == Some(Dependency(name, version, "go", Unknown))
  {
    var x := name + " " + version;
    assert Strip(lang, "\t" + x) == x by {
      assert x[0] == name[0] && x[|x| - 1] == version[|version| - 1];
      StripIndented(lang, x);
    }
    assert !StartsWith(x, "//") by {
      NotCommentStart(name, version);
    }
    FieldsOfPair(lang, name, version);
    RequireLineOfFields(lang, "\t" + x, x, name, version);
  }



  // ---------------------------------------------------------------------
  // The project tree

  /** A directory tree in walk order. */
  datatype Node = File(name: string) | Dir(name: string, children: seq<Node>)

  /** Every regular file under `nodes`, as its path components below the
      walked directory, in pre-order. */
  function FilesOf(nodes: seq<Node>, prefix: seq<string>): (r: seq<seq<string>>)
    decreases nodes
    ensures forall i :: 0 <= i < |r| ==> |r[i]| > |prefix| && r[i][..|prefix|] == prefix
  {
    if nodes == [] then []
    else FilesOfNode(nodes[0], prefix) + FilesOf(nodes[1..], prefix)
  }

  function FilesOfNode(n: Node, prefix: seq<string>): (r: seq<seq<string>>)
    decreases n
    ensures forall i :: 0 <= i < |r| ==> |r[i]| > |prefix| && r[i][..|prefix|] == prefix
  {
    match n
    case File(name) => [prefix + [name]]
    case Dir(name, children) =>
      var r := FilesOf(children, prefix + [name]);
      assert forall i :: 0 <= i < |r| ==> r[i][..|prefix|] == (prefix + [name])[..|prefix|];
      r
  }

  /** Every entry (file or directory) under `nodes`, as its path components
      below the walked directory, a directory before its contents. */
  function EntriesOf(nodes: seq<Node>, prefix: seq<string>): (r: seq<seq<string>>)
    decreases nodes
    ensures forall i :: 0 <= i < |r| ==> |r[i]| > |prefix| && r[i][..|prefix|] == prefix
  {
    if nodes == [] then []
    else EntriesOfNode(nodes[0], prefix) + EntriesOf(nodes[1..], prefix)
  }

  function EntriesOfNode(n: Node, prefix: seq<string>): (r: seq<seq<string>>)
    decreases n
    ensures |r| >= 1 && r[0] == prefix + [n.name]
    ensures forall i :: 0 <= i < |r| ==> |r[i]| > |prefix| && r[i][..|prefix|] == prefix
  {
    match n
    case File(name) => [prefix + [name]]
    case Dir(name, children) =>
      var below := EntriesOf(children, prefix + [name]);
      assert forall i :: 0 <= i < |below| ==> below[i][..|prefix|] == (prefix + [name])[..|prefix|];
      [prefix + [name]] + below
  }

  /** The entries directly inside the walked directory. */
  function TopLevel(nodes: seq<Node>): (r: seq<seq<string>>)
    ensures |r| == |nodes| && forall i :: 0 <= i < |nodes| ==> r[i] == [nodes[i].name]
  {
    if nodes == [] then [] else [[nodes[0].name]] + TopLevel(nodes[1..])
  }

  /** Every top-level entry is also reached by the full walk. */
  lemma {:induction false} TopLevelInEntries(nodes: seq<Node>, i: nat)
    requires i < |nodes|
    ensures TopLevel(nodes)[i] in EntriesOf(nodes, [])
    decreases nodes
  {
    var first := EntriesOfNode(nodes[0], []);
    assert EntriesOf(nodes, []) == first + EntriesOf(nodes[1..], []);
    if i == 0 {
      assert first[0] == [nodes[0].name];
    } else {
      TopLevelInEntries(nodes[1..], i - 1);
    }
  }

  // ---------------------------------------------------------------------
  // Recommendations

  function CountHighSeverity(issues: seq<Issue>): (n: nat)
    ensures n <= |issues|
    ensures n == 0 <==> forall i :: 0 <= i < |issues| ==> issues[i].severity != High
  {
    if issues == [] then 0
    else (if issues[0].severity == High then 1 else 0) + CountHighSeverity(issues[1..])
  }

  function Systems(bs: seq<BuildSystem>): (r: seq<string>)
    ensures |r| == |bs| && forall i :: 0 <= i < |bs| ==> r[i] == bs[i].system
  {
    if bs == [] then [] else [bs[0].system] + Systems(bs[1..])
  }

  /** One recommendation line, without its leading glyph. */
  datatype Advice =
    | NoIssues
    | FoundIssues(count: nat)
    | HighSeverity(count: nat)
    | CMakeHint
    | MakeHint
    | DependencyCount(count: nat)

  function SummaryLines(issueCount: nat, highCount: nat): (r: seq<Advice>)
    ensures 1 <= |r| <= 2 && r[0] == (if issueCount == 0 then NoIssues else FoundIssues(issueCount))
    ensures CMakeHint !in r && MakeHint !in r && forall a :: a in r ==> !a.DependencyCount?
    ensures HighSeverity(highCount) in r <==> issueCount > 0 && highCount > 0
    ensures forall a :: a in r && a.HighSeverity? ==> a.count == highCount
  {
    if issueCount == 0 then [NoIssues]
    else [FoundIssues(issueCount)] + (if highCount > 0 then [HighSeverity(highCount)] else [])
  }

  function BuildHints(hasCMake: bool, hasMake: bool): (r: seq<Advice>)
    ensures |r| <= 2 && (CMakeHint in r <==> hasCMake) && (MakeHint in r <==> hasMake)
    ensures multiset(r)[CMakeHint] <= 1 && multiset(r)[MakeHint] <= 1
    ensures forall a :: a in r ==> a == CMakeHint || a == MakeHint
  {
    (if hasCMake then [CMakeHint] else []) + (if hasMake then [MakeHint] else [])
  }

  /** The recommendation lines a scan earns, in the order both scanners
      emit them: a summary line, a high-severity line when there are issues
      of high severity, one hint per kind of build system recognised (CMake,
      Make, however many records of it exist), and a dependency line. */
  function Advise(issueCount: nat, highCount: nat, hasCMake: bool, hasMake: bool, depCount: nat): (r: seq<Advice>)
    ensures 1 <= |r| <= 5
    ensures r[0] == (if issueCount == 0 then NoIssues else FoundIssues(issueCount))
  {
    SummaryLines(issueCount, highCount) + BuildHints(hasCMake, hasMake)
      + (if depCount > 0 then [DependencyCount(depCount)] else [])
  }

  /** The high-severity line appears exactly when some issue is of high
      severity, and it carries that count. */
  lemma AdviseHighSeverity(issueCount: nat, highCount: nat, hasCMake: bool, hasMake: bool, depCount: nat)
    requires highCount <= issueCount
    ensures var r := Advise(issueCount, highCount, hasCMake, hasMake, depCount);
      && (HighSeverity(highCount) in r <==> highCount > 0)
      && (forall a :: a in r && a.HighSeverity? ==> a.count == highCount)
  {
    var r := Advise(issueCount, highCount, hasCMake, hasMake, depCount);
    var deps := if depCount > 0 then [DependencyCount(depCount)] else [];
    assert r == SummaryLines(issueCount, highCount) + BuildHints(hasCMake, hasMake) + deps;
  }

  /** The CMake and Make hints each appear at most once, exactly when such a
      build system was recognised. */
  lemma AdviseBuildHints(issueCount: nat, highCount: nat, hasCMake: bool, hasMake: bool, depCount: nat)
    ensures var r := Advise(issueCount, highCount, hasCMake, hasMake, depCount);
      && (CMakeHint in r <==> hasCMake) && (MakeHint in r <==> hasMake)
      && multiset(r)[CMakeHint] <= 1 && multiset(r)[MakeHint] <= 1
  {
    var summary := SummaryLines(issueCount, highCount);
    var build := BuildHints(hasCMake, hasMake);
    var deps := if depCount > 0 then [DependencyCount(depCount)] else [];
    assert multiset(summary)[CMakeHint] == 0 && multiset(summary)[MakeHint] == 0;
    assert multiset(deps)[CMakeHint] == 0 && multiset(deps)[MakeHint] == 0;
    assert multiset(summary + build + deps) == multiset(summary) + multiset(build) + multiset(deps);
  }

  /** The dependency line appears exactly when there is a dependency, and it
      carries the number of dependencies. */
  lemma AdviseDependencies(issueCount: nat, highCount: nat, hasCMake: bool, hasMake: bool, depCount: nat)
    ensures var r := Advise(issueCount, highCount, hasCMake, hasMake, depCount);
      && (DependencyCount(depCount) in r <==> depCount > 0)
      && (forall a :: a in r && a.DependencyCount? ==> a.count == depCount)
  {
    var r := Advise(issueCount, highCount, hasCMake, hasMake, depCount);
    var deps := if depCount > 0 then [DependencyCount(depCount)] else [];
    assert r == SummaryLines(issueCount, highCount) + BuildHints(hasCMake, hasMake) + deps;
  }

  /** The text of a recommendation after its glyph; counts are in decimal. */
  function AdviceText(a: Advice): string {
    match a
    case NoIssues => "No obvious x86-specific code detected"
    case FoundIssues(n) => "Found " + NatToString(n) + " potential compatibility issues"
    case HighSeverity(n) => NatToString(n) + " high-severity issues require immediate attention"
    case CMakeHint => "CMake detected - review CMakeLists.txt for architecture-specific settings"
    case MakeHint => "Makefile detected - review for architecture-specific compiler flags"
    case DependencyCount(n) => NatToString(n) + " dependencies found - verify ARM compatibility"
  }
}
