/** The Go command-line scanner (`Scanner` of cli/internal/scanner/scanner.go),
    the second implementation of the scan. It shares the pattern catalogue
    and the tables of the Python scanner but differs where it looks:

    - it reads a file line by line and asks each pattern for its leftmost
      match on the line, case-sensitively, so a line gives at most one issue
      per pattern;
    - it prunes directories whose name is exactly a skip name;
    - its requirements parser cuts at every `==` and keeps the `>=`;
    - it reads go.mod with an `inRequireBlock` state machine;
    - it notes that package.json and Cargo.toml exist without reading them.

    The regular-expression engine is a parameter: `FindString` stands for
    `regexp.MustCompile(pattern).FindString(line)`, the text of the leftmost
    match or "" when there is none. A Go map's iteration order is not fixed,
    so the order in which the catalogue is tried on each line is a parameter
    too, and the results are shown not to depend on it beyond their order. */
module GoScanner {
  import opened Text
  import opened Report
  import opened PyScanner
  import opened PyProject

  // ---------------------------------------------------------------------
  // Severity and suggestion tables

  /** The severity map of `getSeverity`. */
  const SeverityTable: map<string, Level> :=
    map[InlineAssembly := High, X86Intrinsics := High, ArchitectureChecks := Medium, PlatformSpecific := Medium]

  /** The suggestion map of `getSuggestion`. */
  const SuggestionTable: map<string, string> := map[
    InlineAssembly := "Replace with portable C/C++ code or use ARM NEON intrinsics",
    X86Intrinsics := "Replace with ARM NEON equivalents or portable alternatives",
    ArchitectureChecks := "Add ARM architecture checks or use runtime detection",
    PlatformSpecific := "Use cross-platform alternatives or add ARM-specific implementations"]

  /** `getSeverity`: "low" for a category the map lacks. */
  function GoSeverity(category: string): Level {
    if category in SeverityTable then SeverityTable[category] else Low
  }

  /** `getSuggestion`: the generic advice for a category the map lacks; the
      matched text does not affect it. */
  function GoSuggestion(category: string, matchedText: string): string {
    if category in SuggestionTable then SuggestionTable[category] else DefaultSuggestion
  }

  /** Both scanners grade every category alike, the unknown ones included. */
  lemma SeverityAgrees(category: string)
    ensures GoSeverity(category) == Severity(category)
  {
    if !IsCategory(category) {
      assert category !in SeverityTable.Keys;
    }
  }

  /** Both scanners advise every category alike, the unknown ones included. */
  lemma SuggestionAgrees(category: string, matchedText: string)
    ensures GoSuggestion(category, matchedText) == Suggestion(category, matchedText)
  {
    if !IsCategory(category) {
      assert category !in SuggestionTable.Keys;
    }
  }

  // ---------------------------------------------------------------------
  // Matching one line

  /** The regular-expression engine: the leftmost match of a pattern in a
      line, "" when there is none. */
  type FindString = (string, string) -> string

  /** `FindString` for a pattern without metacharacters: the pattern itself
      when it occurs in the line, exactly as written. */
  function LiteralFind(lit: string, line: string): string {
    if Contains(line, lit) then lit else ""
  }

  /** The issue a non-empty match of catalogue entry `e` on line `n` gives. */
  function LineIssue(file: string, n: nat, line: string, find: FindString, e: PatternEntry): seq<Issue> {
    var m := find(e.pattern, line);
    if m != "" then [Issue(file, n, e.category, e.pattern, m, GoSeverity(e.category), GoSuggestion(e.category, m))]
    else []
  }

  /** The issues of one line, the entries tried in the order given. */
  function LineIssues(file: string, n: nat, line: string, entries: seq<PatternEntry>, find: FindString): seq<Issue> {
    Gather(entries, (e: PatternEntry) => LineIssue(file, n, line, find, e))
  }

  /** An issue of a line is exactly a non-empty leftmost match of one of the
      entries on that line, graded by the tables. */
  lemma LineIssuesMembers(file: string, n: nat, line: string, entries: seq<PatternEntry>, find: FindString, x: Issue)
    ensures x in LineIssues(file, n, line, entries, find) <==>
      exists k :: 0 <= k < |entries| && find(entries[k].pattern, line) != ""
        && x == Issue(file, n, entries[k].category, entries[k].pattern, find(entries[k].pattern, line),
                      Severity(entries[k].category), Suggestion(entries[k].category, find(entries[k].pattern, line)))
  {
    var f := (e: PatternEntry) => LineIssue(file, n, line, find, e);
    GatherMember(entries, f, x);
    forall k | 0 <= k < |entries|
      ensures GoSeverity(entries[k].category) == Severity(entries[k].category)
      ensures GoSuggestion(entries[k].category, find(entries[k].pattern, line))
           == Suggestion(entries[k].category, find(entries[k].pattern, line))
    {
      SeverityAgrees(entries[k].category);
      SuggestionAgrees(entries[k].category, find(entries[k].pattern, line));
    }
  }

  /** No two entries share a pattern. */
  predicate DistinctPatterns(entries: seq<PatternEntry>) {
    forall i, j :: 0 <= i < j < |entries| ==> entries[i].pattern != entries[j].pattern
  }

  /** With a catalogue that repeats no pattern, a line gives at most one
      issue per pattern. */
  lemma {:induction false} OneIssuePerPattern(file: string, n: nat, line: string, entries: seq<PatternEntry>, find: FindString)
    requires DistinctPatterns(entries)
    ensures var r := LineIssues(file, n, line, entries, find);
      forall i, j :: 0 <= i < j < |r| ==> r[i].pattern != r[j].pattern
    decreases |entries|
  {
    if entries != [] {
      var m := |entries|;
      var front := entries[..m - 1];
      var f := (e: PatternEntry) => LineIssue(file, n, line, find, e);
      var a := Gather(front, f);
      var b := f(entries[m - 1]);
      assert DistinctPatterns(front) by {
        forall i, j | 0 <= i < j < |front| ensures front[i].pattern != front[j].pattern {
          assert front[i] == entries[i] && front[j] == entries[j];
        }
      }
      OneIssuePerPattern(file, n, line, front, find);
      assert a == LineIssues(file, n, line, front, find);
      assert LineIssues(file, n, line, entries, find) == a + b;
      forall i | 0 <= i < |a| ensures a[i].pattern != entries[m - 1].pattern {
        GatherMember(front, f, a[i]);
        var k :| 0 <= k < |front| && a[i] in f(front[k]);
        assert front[k] == entries[k];
      }
      assert |b| <= 1 && forall x :: x in b ==> x.pattern == entries[m - 1].pattern;
      var r := a + b;
      forall i, j | 0 <= i < j < |r| ensures r[i].pattern != r[j].pattern {
        if j >= |a| {
          assert i < |a| && r[j] in b && r[i] == a[i];
        } else {
          assert r[i] == a[i] && r[j] == a[j];
        }
      }
    }
  }

  /** The order in which the catalogue is tried changes the order of a
      line's issues and nothing else. */
  lemma LineIssuesOrder(file: string, n: nat, line: string, entries: seq<PatternEntry>, other: seq<PatternEntry>, find: FindString)
    requires multiset(entries) == multiset(other)
    ensures multiset(LineIssues(file, n, line, entries, find)) == multiset(LineIssues(file, n, line, other, find))
  {
    GatherPermutation(entries, other, (e: PatternEntry) => LineIssue(file, n, line, find, e));
  }

  // ---------------------------------------------------------------------
  // Matching one file

  /** The order in which the catalogue is tried on each line of each file.
      Go's map iteration varies only the order of the categories and keeps
      each category's list in order; any order of the catalogue is allowed
      here, which covers those. */
  type Order = (string, nat) -> seq<PatternEntry>

  /** The issues of a file's lines, the first line numbered 1. */
  function FileLinesIssues(file: string, lines: seq<string>, order: Order, find: FindString): seq<Issue>
    decreases |lines|
  {
    if lines == [] then []
    else
      var n := |lines|;
      FileLinesIssues(file, lines[..n - 1], order, find) + LineIssues(file, n, lines[n - 1], order(file, n), find)
  }

  /** Every issue of a file names a line of it, counted from 1, and carries
      the leftmost match of its pattern on that line; issues come in line
      order. */
  lemma {:induction false} FileIssuesLines(file: string, lines: seq<string>, order: Order, find: FindString)
    ensures var r := FileLinesIssues(file, lines, order, find);
      && (forall x :: x in r ==>
            1 <= x.line <= |lines| && x.matchedText != "" && x.matchedText == find(x.pattern, lines[x.line - 1]))
      && (forall i, j :: 0 <= i < j < |r| ==> r[i].line <= r[j].line)
    decreases |lines|
  {
    if lines != [] {
      var n := |lines|;
      var a := FileLinesIssues(file, lines[..n - 1], order, find);
      var b := LineIssues(file, n, lines[n - 1], order(file, n), find);
      FileIssuesLines(file, lines[..n - 1], order, find);
      assert FileLinesIssues(file, lines, order, find) == a + b;
      forall x | x in a ensures x.matchedText == find(x.pattern, lines[x.line - 1]) {
        assert lines[..n - 1][x.line - 1] == lines[x.line - 1];
      }
      forall x | x in b ensures x.line == n && x.matchedText != "" && x.matchedText == find(x.pattern, lines[n - 1]) {
        LineIssuesMembers(file, n, lines[n - 1], order(file, n), find, x);
      }
      forall i, j | 0 <= i < j < |a + b| ensures (a + b)[i].line <= (a + b)[j].line {
        if j >= |a| {
          assert (a + b)[j] in b;
          if i < |a| {
            assert (a + b)[i] in a;
          } else {
            assert (a + b)[i] in b;
          }
        }
      }
    }
  }

  /** Whatever order each line tries a catalogue in, a file gives the same
      issues as in the catalogue's own order, up to their order. */
  lemma {:induction false} FileIssuesOrder(file: string, lines: seq<string>, order: Order,
                                           catalogue: seq<PatternEntry>, find: FindString)
    requires forall n :: 1 <= n <= |lines| ==> multiset(order(file, n)) == multiset(catalogue)
    ensures multiset(FileLinesIssues(file, lines, order, find))
         == multiset(FileLinesIssues(file, lines, (f: string, n: nat) => catalogue, find))
    decreases |lines|
  {
    if lines != [] {
      var n := |lines|;
      var canonical := (f: string, n: nat) => catalogue;
      FileIssuesOrder(file, lines[..n - 1], order, catalogue, find);
      LineIssuesOrder(file, n, lines[n - 1], order(file, n), catalogue, find);
      var a := FileLinesIssues(file, lines[..n - 1], order, find);
      var b := LineIssues(file, n, lines[n - 1], order(file, n), find);
      var a' := FileLinesIssues(file, lines[..n - 1], canonical, find);
      var b' := LineIssues(file, n, lines[n - 1], catalogue, find);
      assert FileLinesIssues(file, lines, order, find) == a + b;
      assert FileLinesIssues(file, lines, canonical, find) == a' + b';
      assert multiset(a + b) == multiset(a) + multiset(b);
      assert multiset(a' + b') == multiset(a') + multiset(b');
    }
  }

  /** The pattern loops of `scanFile` for one line: each entry in the order
      given, an issue for each non-empty match. */
  method ScanLine(file: string, n: nat, line: string, entries: seq<PatternEntry>, find: FindString) returns (found: seq<Issue>)
    ensures found == LineIssues(file, n, line, entries, find)
  {
    found := [];
    for k := 0 to |entries|
      invariant found == LineIssues(file, n, line, entries[..k], find)
    {
      assert entries[..k + 1][..k] == entries[..k];
      var e := entries[k];
      var m := find(e.pattern, line);
      if m != "" {
        found := found + [Issue(file, n, e.category, e.pattern, m, GoSeverity(e.category), GoSuggestion(e.category, m))];
      }
    }
    assert entries[..|entries|] == entries;
  }

  /** `scanFile` on a file that reads without error: line by line, each
      entry of the catalogue in the order this line tries them. */
  method ScanFileLines(file: string, lines: seq<string>, order: Order, find: FindString) returns (issues: seq<Issue>)
    ensures issues == FileLinesIssues(file, lines, order, find)
  {
    issues := [];
    var lineNum := 0;
    while lineNum < |lines|
      invariant 0 <= lineNum <= |lines|
      invariant issues == FileLinesIssues(file, lines[..lineNum], order, find)
    {
      var line := lines[lineNum];
      lineNum := lineNum + 1;
      assert lines[..lineNum][..lineNum - 1] == lines[..lineNum - 1];
      var found := ScanLine(file, lineNum, line, order(file, lineNum), find);
      issues := issues + found;
    }
    assert lines[..|lines|] == lines;
  }

  // ---------------------------------------------------------------------
  // Case sensitivity

  lemma LowerHasNoCapitalG(line: string, j: nat)
    requires Lower(line) == line && j < |line|
    ensures line[j] != 'G'
  {
    assert Lower(line)[j] == LowerChar(line[j]);
  }

  /** Go matches case-sensitively where Python ignores case: a lower-case
      line spelling `getsysteminfo` gives a Python match of `GetSystemInfo`
      and no Go match. */
  lemma CaseSensitiveLiteral(line: string, q: nat)
    requires Lower(line) == line && CaselessAt(line, "GetSystemInfo", q)
    ensures LiteralFind("GetSystemInfo", line) == ""
    ensures |LiteralMatches(line, "GetSystemInfo")| > 0
  {
    var lit := "GetSystemInfo";
    forall j | 0 <= j < |line| ensures !OccursAt(line, lit, j) {
      LowerHasNoCapitalG(line, j);
    }
    ContainsIff(line, lit);
    LiteralMatchesLeftmost(line, lit, 0, q);
  }

  // ---------------------------------------------------------------------
  // Which files are scanned

  /** `filepath.Ext` of a name: the text from its last dot, or "" when it
      has none. */
  function GoExt(name: string): (s: string)
    ensures s == [] || (s[0] == '.' && EndsWith(name, s))
  {
    match LastIndexOfChar(name, '.')
    case None => []
    case Some(i) => name[i..]
  }

  /** Where pathlib sees a suffix, Go sees the same extension; they differ
      only on a name whose last dot starts or ends it (`.h`, `notes.`),
      where pathlib sees none. */
  lemma ExtAgreesWithSuffix(name: string)
    ensures Suffix(name) != [] ==> GoExt(name) == Suffix(name)
    ensures GoExt(name) != Suffix(name) ==> Suffix(name) == [] && (name[0] == '.' || name[|name| - 1] == '.')
  {
  }

  /** The walk of `getSourceFiles` below a directory that was not pruned:
      a directory named exactly like one of the skip names is pruned with
      all it holds; a file is kept when its lower-cased extension is one of
      the scannable ones (ASCII lower-casing decides this as
      `strings.ToLower` does, since no non-ASCII rune lowers to one of
      their letters). */
  function WalkFiles(nodes: seq<Node>, prefix: seq<string>): seq<seq<string>>
    decreases nodes
  {
    if nodes == [] then [] else WalkNode(nodes[0], prefix) + WalkFiles(nodes[1..], prefix)
  }

  function WalkNode(n: Node, prefix: seq<string>): seq<seq<string>>
    decreases n
  {
    match n
    case File(name) => if Lower(GoExt(name)) in ScannableExtensions then [prefix + [name]] else []
    case Dir(name, children) => if name in SkipFragments then [] else WalkFiles(children, prefix + [name])
  }

  /** `getSourceFiles`: the walk starts at the project directory, whose own
      name is checked against the skip names like any other. */
  function GoSourceFiles(rootName: string, tree: seq<Node>): seq<seq<string>> {
    if rootName in SkipFragments then [] else WalkFiles(tree, [])
  }

  /** A path the Go walk keeps: no directory on it has a skip name, and its
      file name has a scannable extension. */
  predicate GoKept(p: seq<string>) {
    |p| > 0 && (forall i :: 0 <= i < |p| - 1 ==> p[i] !in SkipFragments)
    && Lower(GoExt(p[|p| - 1])) in ScannableExtensions
  }

  predicate NoSkipName(prefix: seq<string>) {
    forall i :: 0 <= i < |prefix| ==> prefix[i] !in SkipFragments
  }

  lemma {:induction false} WalkFilesMembers(nodes: seq<Node>, prefix: seq<string>)
    requires NoSkipName(prefix)
    ensures forall p :: p in WalkFiles(nodes, prefix) <==> p in FilesOf(nodes, prefix) && GoKept(p)
    decreases nodes
  {
    if nodes != [] {
      WalkNodeMembers(nodes[0], prefix);
      WalkFilesMembers(nodes[1..], prefix);
    }
  }

  lemma {:induction false} WalkNodeMembers(n: Node, prefix: seq<string>)
    requires NoSkipName(prefix)
    ensures forall p :: p in WalkNode(n, prefix) <==> p in FilesOfNode(n, prefix) && GoKept(p)
    decreases n
  {
    match n
    case File(name) =>
      var p := prefix + [name];
      assert forall i :: 0 <= i < |p| - 1 ==> p[i] == prefix[i];
    case Dir(name, children) =>
      var below := prefix + [name];
      var all := FilesOf(children, below);
      if name in SkipFragments {
        forall p | p in all ensures !GoKept(p) {
          assert p[..|below|] == below;
          assert p[|prefix|] == below[|prefix|] == name;
        }
      } else {
        assert NoSkipName(below) by {
          forall i | 0 <= i < |below| ensures below[i] !in SkipFragments {
            if i < |prefix| {
              assert below[i] == prefix[i];
            }
          }
        }
        WalkFilesMembers(children, below);
      }
  }

  /** The Go walk keeps exactly the files of the tree that lie under no
      directory with a skip name, the project directory included, and whose
      extension is scannable. The test is on whole names: a file called
      `distance.cpp` is scanned, where the Python scanner skips it. */
  lemma GoSourceFilesMembers(rootName: string, tree: seq<Node>)
    ensures forall p :: p in GoSourceFiles(rootName, tree) <==>
      rootName !in SkipFragments && p in FilesOf(tree, []) && GoKept(p)
  {
    if rootName !in SkipFragments {
      WalkFilesMembers(tree, []);
    }
  }

  // ---------------------------------------------------------------------
  // The file loop of `Scan`

  /** How each file reads: its lines, or `None` when it cannot be opened or
      `bufio.Scanner` stops with an error (a line longer than its buffer). */
  type LineReader = seq<string> -> Option<seq<string>>

  /** The issues of a file as `Scan` keeps them: none when reading failed. */
  function FileIssuesOf(p: seq<string>, read: LineReader, order: Order, find: FindString): seq<Issue> {
    match read(p)
    case None => []
    case Some(lines) => FileLinesIssues(Join(p, "/"), lines, order, find)
  }

  function GoProjectIssues(files: seq<seq<string>>, read: LineReader, order: Order, find: FindString): seq<Issue> {
    Gather(files, (p: seq<string>) => FileIssuesOf(p, read, order, find))
  }

  /** The number of files that read without error. */
  function ReadableCount(files: seq<seq<string>>, read: LineReader): (n: nat)
    ensures n <= |files|
  {
    if files == [] then 0
    else ReadableCount(files[..|files| - 1], read) + (if read(files[|files| - 1]).Some? then 1 else 0)
  }

  /** Every file is counted as scanned exactly when every file reads. */
  lemma {:induction false} AllScannedIffAllRead(files: seq<seq<string>>, read: LineReader)
    ensures ReadableCount(files, read) == |files| <==> forall i :: 0 <= i < |files| ==> read(files[i]).Some?
    decreases |files|
  {
    if files != [] {
      var n := |files|;
      AllScannedIffAllRead(files[..n - 1], read);
      if forall i :: 0 <= i < n ==> read(files[i]).Some? {
        var pre := files[..n - 1];
        forall i | 0 <= i < |pre| ensures read(pre[i]).Some? {
          assert pre[i] == files[i];
        }
      } else if read(files[n - 1]).Some? {
        var i :| 0 <= i < n && read(files[i]).None?;
        assert files[..n - 1][i] == files[i];
      }
    }
  }

  /** A file that fails to read adds no issue, and the files after it are
      still scanned. */
  lemma FailedFileContributesNothing(front: seq<seq<string>>, p: seq<string>, back: seq<seq<string>>,
                                     read: LineReader, order: Order, find: FindString)
    requires read(p).None?
    ensures GoProjectIssues(front + [p] + back, read, order, find) == GoProjectIssues(front + back, read, order, find)
  {
    GatherSkip(front, p, back, (q: seq<string>) => FileIssuesOf(q, read, order, find));
  }

  /** Whatever order each line tries a catalogue in, one file gives the
      same issues as in the catalogue's own order, up to their order. */
  lemma FileIssuesOfOrder(p: seq<string>, read: LineReader, order: Order, catalogue: seq<PatternEntry>, find: FindString)
    requires forall f, n :: multiset(order(f, n)) == multiset(catalogue)
    ensures multiset(FileIssuesOf(p, read, order, find))
         == multiset(FileIssuesOf(p, read, (f: string, n: nat) => catalogue, find))
  {
    if read(p).Some? {
      FileIssuesOrder(Join(p, "/"), read(p).value, order, catalogue, find);
    }
  }

  /** Whatever order each line tries a catalogue in, the project gives the
      same issues as in the catalogue's own order, up to their order. */
  lemma {:induction false} ProjectIssuesOrder(files: seq<seq<string>>, read: LineReader, order: Order,
                                              catalogue: seq<PatternEntry>, find: FindString)
    requires forall f, n :: multiset(order(f, n)) == multiset(catalogue)
    ensures multiset(GoProjectIssues(files, read, order, find))
         == multiset(GoProjectIssues(files, read, (f: string, n: nat) => catalogue, find))
    decreases |files|
  {
    if files != [] {
      var k := |files|;
      var canonical := (f: string, n: nat) => catalogue;
      ProjectIssuesOrder(files[..k - 1], read, order, catalogue, find);
      FileIssuesOfOrder(files[k - 1], read, order, catalogue, find);
      var a := GoProjectIssues(files[..k - 1], read, order, find);
      var b := FileIssuesOf(files[k - 1], read, order, find);
      var a' := GoProjectIssues(files[..k - 1], read, canonical, find);
      var b' := FileIssuesOf(files[k - 1], read, canonical, find);
      assert GoProjectIssues(files, read, order, find) == a + b;
      assert GoProjectIssues(files, read, canonical, find) == a' + b';
      assert multiset(a + b) == multiset(a) + multiset(b);
      assert multiset(a' + b') == multiset(a') + multiset(b');
    }
  }

  /** The file loop of `Scan`: every file counts towards the total, only
      one that reads without error towards the scanned files and the
      issues. */
  method ScanFiles(files: seq<seq<string>>, read: LineReader, order: Order, find: FindString)
    returns (total: nat, scanned: nat, issues: seq<Issue>)
    ensures total == |files| && scanned == ReadableCount(files, read) && scanned <= total
    ensures issues == GoProjectIssues(files, read, order, find)
  {
    total := |files|;
    scanned, issues := 0, [];
    for i := 0 to |files|
      invariant scanned == ReadableCount(files[..i], read)
      invariant issues == GoProjectIssues(files[..i], read, order, find)
    {
      assert files[..i + 1][..i] == files[..i] && files[..i + 1][i] == files[i];
      var content := read(files[i]);
      if content.None? {
        continue;
      }
      var found := ScanFileLines(Join(files[i], "/"), content.value, order, find);
      issues := issues + found;
      scanned := scanned + 1;
    }
    assert files[..|files|] == files;
  }

  // ---------------------------------------------------------------------
  // requirements.txt

  /** One line of requirements.txt as `scanPythonDependencies` reads it: a
      pin is cut at every `==` and keeps the second piece, a minimum keeps
      its `>=` in front of the version, anything else is any version. */
  function GoRequirementLine(raw: string): Option<Dependency> {
    var line := Strip(Go, raw);
    if line == [] || StartsWith(line, "#") then None
    else if Contains(line, "==") then
      var parts := SplitAll(line, "==");
      Some(Dependency(Strip(Go, parts[0]), if |parts| > 1 then Strip(Go, parts[1]) else "", "python", Unknown))
    else if Contains(line, ">=") then
      var parts := SplitAll(line, ">=");
      Some(Dependency(Strip(Go, parts[0]), if |parts| > 1 then ">=" + Strip(Go, parts[1]) else "", "python", Unknown))
    else Some(Dependency(line, "*", "python", Unknown))
  }

  /** Exactly the blank lines and the `#` comment lines give no record, as
      in the Python scanner; the two skip the same lines when the line holds
      no information separator, the only whitespace they disagree on. */
  lemma GoRequirementSkipped(raw: string)
    ensures GoRequirementLine(raw).None? <==> Strip(Go, raw) == [] || StartsWith(Strip(Go, raw), "#")
    ensures NoInfoSeparator(raw) ==> (GoRequirementLine(raw).None? <==> RequirementLine(raw).None?)
  {
    GoRequirementBlank(raw);
    if NoInfoSeparator(raw) {
      RequirementSkipped(raw);
      StripAgrees(raw);
    }
  }

  lemma GoRequirementBlank(raw: string)
    ensures GoRequirementLine(raw).None? <==> Strip(Go, raw) == [] || StartsWith(Strip(Go, raw), "#")
  {
  }

  /** A line holding only an information separator: Python strips it to
      nothing and skips it, Go keeps it as a requirement name. */
  lemma SeparatorLineDiverges()
    ensures RequirementLine("\U{001C}") == None
    ensures GoRequirementLine("\U{001C}") == Some(Dependency("\U{001C}", "*", "python", Unknown))
  {
    var x := "\U{001C}";
    assert TrimLeft(Python, x[1..]) == [];
    assert Strip(Python, x) == [];
    StripNoSpace(Go, x);
    assert !Contains(x, "==") && !Contains(x, ">=");
  }

  /** Cutting at every separator and cutting at the first agree on the
      second piece when the separator occurs only once. */
  lemma SplitOnce(line: string, sep: string)
    requires |sep| > 0 && Contains(line, sep) && !Contains(SplitFirst(line, sep).1, sep)
    ensures |SplitAll(line, sep)| == 2
    ensures SplitAll(line, sep)[0] == SplitFirst(line, sep).0 && SplitAll(line, sep)[1] == SplitFirst(line, sep).1
  {
    var i := IndexOf(line, sep).value;
    assert SplitFirst(line, sep).1 == line[i + |sep|..];
    assert SplitAll(line, sep) == [line[..i]] + SplitAll(line[i + |sep|..], sep);
  }

  /** The second piece of Go's split is the text after the first separator
      up to the next one, or to the end when there is none. */
  lemma SecondPiece(line: string, sep: string)
    requires |sep| > 0 && Contains(line, sep)
    ensures |SplitAll(line, sep)| >= 2
    ensures SplitAll(line, sep)[0] == SplitFirst(line, sep).0
    ensures SplitAll(line, sep)[1] == SplitAll(SplitFirst(line, sep).1, sep)[0]
  {
    var i := IndexOf(line, sep).value;
    assert SplitFirst(line, sep).1 == line[i + |sep|..];
    assert SplitAll(line, sep) == [line[..i]] + SplitAll(line[i + |sep|..], sep);
  }

  /** For any pinned line, Go's version is the stripped text between the
      first `==` and the next one, where Python's is everything after the
      first. */
  lemma GoPinnedVersion(raw: string)
    requires !StartsWith(Strip(Go, raw), "#") && Contains(Strip(Go, raw), "==")
    ensures var parts := SplitFirst(Strip(Go, raw), "==");
      GoRequirementLine(raw) == Some(Dependency(Strip(Go, parts.0), Strip(Go, SplitAll(parts.1, "==")[0]), "python", Unknown))
  {
    SecondPiece(Strip(Go, raw), "==");
  }

  lemma GoPinnedParts(raw: string, name: string, rest: string)
    requires !StartsWith(Strip(Go, raw), "#") && Contains(Strip(Go, raw), "==")
    requires SplitFirst(Strip(Go, raw), "==") == (name, rest)
    ensures GoRequirementLine(raw) == Some(Dependency(Strip(Go, name), Strip(Go, SplitAll(rest, "==")[0]), "python", Unknown))
  {
    GoPinnedVersion(raw);
  }

  /** For any minimum line without a pin, Go's version is `>=` and the
      stripped text between the first `>=` and the next one. */
  lemma GoMinimumVersion(raw: string)
    requires !StartsWith(Strip(Go, raw), "#") && !Contains(Strip(Go, raw), "==") && Contains(Strip(Go, raw), ">=")
    ensures var parts := SplitFirst(Strip(Go, raw), ">=");
      GoRequirementLine(raw) == Some(Dependency(Strip(Go, parts.0), ">=" + Strip(Go, SplitAll(parts.1, ">=")[0]), "python", Unknown))
  {
    SecondPiece(Strip(Go, raw), ">=");
  }

  /** A line with a single `==` and no information separator gives the same
      record in both scanners. */
  lemma PinnedAgrees(raw: string)
    requires NoInfoSeparator(raw)
    requires Contains(Strip(Go, raw), "==") && !Contains(SplitFirst(Strip(Go, raw), "==").1, "==")
    ensures GoRequirementLine(raw) == RequirementLine(raw)
  {
    var line := Strip(Go, raw);
    StripAgrees(raw);
    SplitOnce(line, "==");
    PartsAgree(raw, line, "==");
  }

  /** A requirement line with a single `>=`, no `==` and no information
      separator gives the same name in both scanners, and Go keeps the
      operator in front of the version. */
  lemma MinimumKeepsOperator(raw: string)
    requires NoInfoSeparator(raw)
    requires !StartsWith(Strip(Go, raw), "#") && !Contains(Strip(Go, raw), "==")
    requires Contains(Strip(Go, raw), ">=") && !Contains(SplitFirst(Strip(Go, raw), ">=").1, ">=")
    ensures GoRequirementLine(raw).Some? && RequirementLine(raw).Some?
    ensures GoRequirementLine(raw).value.name == RequirementLine(raw).value.name
    ensures GoRequirementLine(raw).value.version == ">=" + RequirementLine(raw).value.version
  {
    var line := Strip(Go, raw);
    StripAgrees(raw);
    SplitOnce(line, ">=");
    PartsAgree(raw, line, ">=");
  }

  /** Both pieces around the first separator of a stripped line without
      information separators strip alike in both languages. */
  lemma PartsAgree(raw: string, line: string, sep: string)
    requires NoInfoSeparator(raw) && line == Strip(Go, raw) && Contains(line, sep)
    ensures Strip(Go, SplitFirst(line, sep).0) == Strip(Python, SplitFirst(line, sep).0)
    ensures Strip(Go, SplitFirst(line, sep).1) == Strip(Python, SplitFirst(line, sep).1)
  {
    StripInfix(Go, raw);
    var k := |raw| - |TrimLeft(Go, raw)|;
    NoInfoSeparatorInfix(raw, k, k + |line|);
    var i := IndexOf(line, sep).value;
    NoInfoSeparatorInfix(line, 0, i);
    NoInfoSeparatorInfix(line, i + |sep|, |line|);
    StripAgrees(line[..i]);
    StripAgrees(line[i + |sep|..]);
  }

  /** A repeated pin `name==v1==v2`: Python keeps everything after the
      first `==` as the version (so `a==1==2` pins `1==2`), Go only the
      piece up to the second (so `a==1==2` pins `1`). */
  lemma RepeatedPinDiverges(name: string, v1: string, v2: string)
    requires PlainName(name) && Words(v1, v2)
    ensures RequirementLine(name + "==" + (v1 + "==" + v2)) == Some(Dependency(name, v1 + "==" + v2, "python", Unknown))
    ensures GoRequirementLine(name + "==" + (v1 + "==" + v2)) == Some(Dependency(name, v1, "python", Unknown))
  {
    var rest := v1 + "==" + v2;
    assert Trimmed(Python, rest) by {
      assert rest[0] == v1[0] && rest[|rest| - 1] == v2[|v2| - 1];
    }
    RequirementPinnedRoundTrip(name, rest);
    GoRepeatedPin(name, v1, v2);
  }

  /** A repeated minimum `name>=v1>=v2`: Python's version is everything
      after the first `>=` (`1>=2` for `a>=1>=2`), Go's is `>=` and the
      piece up to the second (`>=1`). */
  lemma RepeatedMinimumDiverges(name: string, v1: string, v2: string)
    requires PlainName(name) && Words(v1, v2)
    ensures RequirementLine(name + ">=" + (v1 + ">=" + v2)) == Some(Dependency(name, v1 + ">=" + v2, "python", Unknown))
    ensures GoRequirementLine(name + ">=" + (v1 + ">=" + v2)) == Some(Dependency(name, ">=" + v1, "python", Unknown))
  {
    PythonRepeatedMinimumOf(name, v1, v2);
    GoRepeatedMinimum(name, v1, v2);
  }

  /** Two version words: non-empty, trimmed and free of `=`. */
  predicate Words(v1: string, v2: string) {
    v1 != [] && NoEquals(v1) && Trimmed(Python, v1) && v2 != [] && NoEquals(v2) && Trimmed(Python, v2)
  }

  /** No character of `s` is `=`, stated one character at a time. */
  predicate NoEquals(s: string) {
    s == [] || (s[0] != '=' && NoEquals(s[1..]))
  }

  lemma {:induction false} NoEqualsIff(s: string)
    ensures NoEquals(s) <==> '=' !in s
  {
    if s != [] {
      NoEqualsIff(s[1..]);
      assert s == [s[0]] + s[1..];
    }
  }

  lemma TrimmedInGo(s: string)
    requires Trimmed(Python, s)
    ensures Trimmed(Go, s)
  {
  }

  /** Go's record for `name==v1==v2`: the version stops at the second
      `==`. */
  lemma GoRepeatedPin(name: string, v1: string, v2: string)
    requires PlainName(name) && Words(v1, v2)
    ensures GoRequirementLine(name + "==" + (v1 + "==" + v2)) == Some(Dependency(name, v1, "python", Unknown))
  {
    RepeatedLineFacts(name, "==", v1, v2);
    GoPinnedStripped(name + "==" + (v1 + "==" + v2), name, v1, v2);
  }

  /** What Go's scanner reads off `name op v1 op v2`: the line and its
      first two pieces are already stripped, the line is no comment, and
      it cuts at its first operator into the name and the rest, whose own
      first piece is `v1`. */
  lemma RepeatedLineFacts(name: string, op: string, v1: string, v2: string)
    requires PlainName(name) && Words(v1, v2) && (op == "==" || op == ">=")
    ensures var line := name + op + (v1 + op + v2);
      Strip(Go, line) == line && !StartsWith(line, "#") && Contains(line, op)
      && SplitFirst(line, op) == (name, v1 + op + v2) && Strip(Go, name) == name
      && SplitAll(v1 + op + v2, op)[0] == v1 && Strip(Go, v1) == v1
  {
    var line := name + op + (v1 + op + v2);
    RepeatedLineShape(name, op, v1, v2);
    FirstWordPiece(v1, op, v2);
    TrimmedFixed(line, name, v1);
    NotComment(line);
  }

  lemma NotComment(line: string)
    requires line != [] && line[0] != '#'
    ensures !StartsWith(line, "#")
  {
    assert line[..1][0] == line[0];
  }

  lemma FirstWordPiece(v1: string, op: string, v2: string)
    requires NoEquals(v1) && (op == "==" || op == ">=")
    ensures SplitAll(v1 + op + v2, op)[0] == v1
  {
    NoEqualsIff(v1);
    SecondPieceOf(v1, op, v2);
  }

  /** `name>=v1>=v2` holds no `==`. */
  lemma RepeatedMinimumNoPin(name: string, v1: string, v2: string)
    requires PlainName(name) && Words(v1, v2)
    ensures !Contains(name + ">=" + (v1 + ">=" + v2), "==")
  {
    NoEqualsIff(v1);
    NoEqualsIff(v2);
    NoPinIn(name, v1, v2);
  }

  /** Go's strip leaves trimmed texts alone. */
  lemma TrimmedFixed(line: string, name: string, v1: string)
    requires Trimmed(Go, line) && Trimmed(Go, name) && Trimmed(Go, v1)
    ensures Strip(Go, line) == line && Strip(Go, name) == name && Strip(Go, v1) == v1
  {
    StripNoSpace(Go, line);
    StripNoSpace(Go, name);
    StripNoSpace(Go, v1);
  }

  lemma GoPinnedStripped(line: string, name: string, v1: string, v2: string)
    requires Strip(Go, line) == line && !StartsWith(line, "#") && Contains(line, "==")
    requires SplitFirst(line, "==") == (name, v1 + "==" + v2) && Strip(Go, name) == name
    requires SplitAll(v1 + "==" + v2, "==")[0] == v1 && Strip(Go, v1) == v1
    ensures GoRequirementLine(line) == Some(Dependency(name, v1, "python", Unknown))
  {
    GoPinnedParts(line, name, v1 + "==" + v2);
  }

  /** Go's record for `name>=v1>=v2`: the version is `>=` and the piece
      up to the second `>=`. */
  lemma GoRepeatedMinimum(name: string, v1: string, v2: string)
    requires PlainName(name) && Words(v1, v2)
    ensures GoRequirementLine(name + ">=" + (v1 + ">=" + v2)) == Some(Dependency(name, ">=" + v1, "python", Unknown))
  {
    RepeatedLineFacts(name, ">=", v1, v2);
    RepeatedMinimumNoPin(name, v1, v2);
    GoMinimumStripped(name + ">=" + (v1 + ">=" + v2), name, v1, v2);
  }

  lemma GoMinimumStripped(line: string, name: string, v1: string, v2: string)
    requires Strip(Go, line) == line && !StartsWith(line, "#") && !Contains(line, "==") && Contains(line, ">=")
    requires SplitFirst(line, ">=") == (name, v1 + ">=" + v2) && Strip(Go, name) == name
    requires SplitAll(v1 + ">=" + v2, ">=")[0] == v1 && Strip(Go, v1) == v1
    ensures GoRequirementLine(line) == Some(Dependency(name, ">=" + v1, "python", Unknown))
  {
    GoMinimumVersion(line);
  }

  /** `name op v1 op v2` is trimmed in Go, is no comment and cuts at its
      first operator into the name and the rest; the name and `v1` are
      left alone by Go's strip. */
  lemma RepeatedLineShape(name: string, op: string, v1: string, v2: string)
    requires op == "==" || op == ">="
    requires PlainName(name) && Words(v1, v2)
    ensures var line := name + op + (v1 + op + v2);
      Trimmed(Go, line) && line != [] && line[0] != '#'
      && Contains(line, op) && SplitFirst(line, op) == (name, v1 + op + v2)
      && Trimmed(Go, name) && Trimmed(Go, v1)
  {
    var rest := v1 + op + v2;
    var line := name + op + rest;
    TrimmedInGo(name);
    TrimmedInGo(v1);
    assert line[0] == name[0] && line[|line| - 1] == v2[|v2| - 1];
    TrimmedInGo(line);
    SplitAtName(name, op, rest);
  }

  /** Python's record for `name>=v1>=v2`: the version is everything after
      the first operator. */
  lemma PythonRepeatedMinimumOf(name: string, v1: string, v2: string)
    requires PlainName(name) && Words(v1, v2)
    ensures RequirementLine(name + ">=" + (v1 + ">=" + v2)) == Some(Dependency(name, v1 + ">=" + v2, "python", Unknown))
  {
    var rest := v1 + ">=" + v2;
    var line := name + ">=" + rest;
    assert Trimmed(Python, line) by {
      assert line[0] == name[0] && line[|line| - 1] == v2[|v2| - 1];
    }
    assert Trimmed(Python, rest) by {
      assert rest[0] == v1[0] && rest[|rest| - 1] == v2[|v2| - 1];
    }
    assert !StartsWith(line, "#") by {
      assert line[0] == name[0];
    }
    assert !Contains(line, "==") by {
      NoEqualsIff(v1);
      NoEqualsIff(v2);
      NoPinIn(name, v1, v2);
      assert name + ">=" + v1 + ">=" + v2 == line;
    }
    SplitAtName(name, ">=", rest);
    MinimumLine(line, name, rest);
  }

  /** `name>=v1>=v2` holds no `==` when none of its words holds a `=`. */
  lemma NoPinIn(name: string, v1: string, v2: string)
    requires '=' !in name && '=' !in v1 && '=' !in v2
    ensures !Contains(name + ">=" + (v1 + ">=" + v2), "==")
  {
    var line := name + ">=" + (v1 + ">=" + v2);
    forall j | 0 <= j < |line| - 1 && line[j] == '=' ensures line[j + 1] != '=' {
      assert j == |name| + 1 || j == |name| + 2 + |v1| + 1;
    }
    NoDoubleEquals(line);
  }

  lemma NoDoubleEquals(s: string)
    requires forall j :: 0 <= j < |s| - 1 ==> s[j] != '=' || s[j + 1] != '='
    ensures !Contains(s, "==")
  {
    forall j: nat ensures !OccursAt(s, "==", j) {
      if j + 2 <= |s| {
        assert s[j..j + 2][0] == s[j] && s[j..j + 2][1] == s[j + 1];
      }
    }
  }

  /** The piece of `name + op + rest` before its first `op`, when the name
      holds no `=`, is the name, and Go's split starts with it. */
  lemma SecondPieceOf(name: string, op: string, rest: string)
    requires '=' !in name && |op| == 2 && op[1] == '='
    ensures SplitAll(name + op + rest, op)[0] == name
  {
    SplitAtName(name, op, rest);
    SplitAllFirst(name + op + rest, op);
  }

  function GoRequirementRecords(lines: seq<string>): seq<Dependency> {
    if lines == [] then []
    else
      var front := GoRequirementRecords(lines[..|lines| - 1]);
      match GoRequirementLine(lines[|lines| - 1])
      case None => front
      case Some(d) => front + [d]
  }

  /** `scanPythonDependencies` over the lines it reads. */
  method ScanRequirementLines(lines: seq<string>) returns (deps: seq<Dependency>)
    ensures deps == GoRequirementRecords(lines)
  {
    deps := [];
    for i := 0 to |lines|
      invariant deps == GoRequirementRecords(lines[..i])
    {
      assert lines[..i + 1][..i] == lines[..i] && lines[..i + 1][i] == lines[i];
      var parsed := GoRequirementLine(lines[i]);
      if parsed.Some? {
        deps := deps + [parsed.value];
      }
    }
    assert lines[..|lines|] == lines;
  }

  // ---------------------------------------------------------------------
  // go.mod

  /** A stripped line that opens a require block. */
  predicate OpensBlock(raw: string) {
    StartsWith(Strip(Go, raw), "require (")
  }

  /** Whether the reader is inside a require block after a line. */
  function NextInBlock(inBlock: bool, raw: string): bool {
    if OpensBlock(raw) then true
    else if inBlock && Strip(Go, raw) == ")" then false
    else inBlock
  }

  /** The record a line gives in a given state: only a line inside a block
      that neither opens nor closes one can give one, split into fields as
      the Python scanner splits a block line but at Go's whitespace. */
  function BlockLine(inBlock: bool, raw: string): Option<Dependency> {
    if OpensBlock(raw) || !inBlock || Strip(Go, raw) == ")" then None else RequireLine(Go, raw)
  }

  function InBlockAfter(lines: seq<string>): bool {
    if lines == [] then false else NextInBlock(InBlockAfter(lines[..|lines| - 1]), lines[|lines| - 1])
  }

  function GoModRecords(lines: seq<string>): seq<Dependency> {
    if lines == [] then []
    else
      var front := GoModRecords(lines[..|lines| - 1]);
      match BlockLine(InBlockAfter(lines[..|lines| - 1]), lines[|lines| - 1])
      case None => front
      case Some(d) => front + [d]
  }

  /** `scanGoDependencies` over the lines it reads: the `inRequireBlock`
      flag is set by an opening line and cleared by a line that is exactly
      `)`. */
  method ScanGoModLines(lines: seq<string>) returns (deps: seq<Dependency>)
    ensures deps == GoModRecords(lines)
  {
    deps := [];
    var inRequireBlock := false;
    for i := 0 to |lines|
      invariant inRequireBlock == InBlockAfter(lines[..i])
      invariant deps == GoModRecords(lines[..i])
    {
      GoModPrefixStep(lines, i);
      var line := Strip(Go, lines[i]);
      if StartsWith(line, "require (") {
        inRequireBlock := true;
        continue;
      }
      if inRequireBlock && line == ")" {
        inRequireBlock := false;
        continue;
      }
      if inRequireBlock {
        var parsed := RequireLine(Go, lines[i]);
        if parsed.Some? {
          deps := deps + [parsed.value];
        }
      }
    }
    assert lines[..|lines|] == lines;
  }

  /** Every record is a go.mod record, at most one per line. */
  lemma {:induction false} GoModRecordsAreGo(lines: seq<string>)
    ensures |GoModRecords(lines)| <= |lines|
    ensures forall i :: 0 <= i < |GoModRecords(lines)| ==> GoRecord(Go, GoModRecords(lines)[i])
  {
    if lines != [] {
      GoModRecordsAreGo(lines[..|lines| - 1]);
      RequireLineIsGo(Go, lines[|lines| - 1]);
    }
  }

  /** Without a line opening a require block, nothing is recorded: a
      one-line `require module version` is not read. */
  lemma {:induction false} NoBlockNoRecords(lines: seq<string>)
    requires forall i :: 0 <= i < |lines| ==> !OpensBlock(lines[i])
    ensures !InBlockAfter(lines) && GoModRecords(lines) == []
  {
    if lines != [] {
      var front := lines[..|lines| - 1];
      assert forall i :: 0 <= i < |front| ==> front[i] == lines[i];
      NoBlockNoRecords(front);
    }
  }

  lemma NotBlockOpener(name: string, rest: string)
    requires |name| > 0 && NoSpace(Go, name) && name != "require"
    ensures !StartsWith(name + " " + rest, "require (")
  {
    var x := name + " " + rest;
    if |name| >= 8 {
      assert x[7] == name[7];
    } else if |name| == 7 {
      assert x[..7] == name;
    } else {
      assert x[|name|] == ' ';
    }
  }

  /** An indented `module version` line inside a block gives that module
      at that version and leaves the block open. */
  lemma EntryLine(name: string, version: string)
    requires |name| > 0 && NoSpace(Go, name) && !StartsWith(name, "//") && name != "require"
    requires |version| > 0 && NoSpace(Go, version)
    ensures BlockLine(true, "\t" + name + " " + version) == Some(Dependency(name, version, "go", Unknown))
    ensures NextInBlock(true, "\t" + name + " " + version)
  {
    var x := name + " " + version;
    assert "\t" + name + " " + version == "\t" + x;
    assert Strip(Go, "\t" + x) == x by {
      assert x[0] == name[0] && x[|x| - 1] == version[|version| - 1];
      StripIndented(Go, x);
    }
    NotBlockOpener(name, version);
    assert x != ")" by {
      assert |x| >= 3;
    }
    RequireLineRoundTrip(Go, name, version);
  }

  lemma Opener()
    ensures OpensBlock("require (")
  {
    var o := "require (";
    StripNoSpace(Go, o);
    assert StartsWith(Strip(Go, o), o);
  }

  lemma Closer()
    ensures !OpensBlock(")") && Strip(Go, ")") == ")"
  {
    StripNoSpace(Go, ")");
    assert !StartsWith(")", "require (");
  }

  /** One more line: the state and the records after it follow from the
      state before it. */
  lemma GoModStep(lines: seq<string>, x: string)
    ensures InBlockAfter(lines + [x]) == NextInBlock(InBlockAfter(lines), x)
    ensures GoModRecords(lines + [x]) == GoModRecords(lines) +
      (match BlockLine(InBlockAfter(lines), x) case None => [] case Some(d) => [d])
  {
    assert (lines + [x])[..|lines|] == lines;
  }

  /** The same step, one line further into a file. */
  lemma GoModPrefixStep(lines: seq<string>, i: nat)
    requires i < |lines|
    ensures InBlockAfter(lines[..i + 1]) == NextInBlock(InBlockAfter(lines[..i]), lines[i])
    ensures GoModRecords(lines[..i + 1]) == GoModRecords(lines[..i]) +
      (match BlockLine(InBlockAfter(lines[..i]), lines[i]) case None => [] case Some(d) => [d])
  {
    assert lines[..i + 1][..i] == lines[..i] && lines[..i + 1][i] == lines[i];
  }

  /** An opener and one entry: inside the block, with the entry recorded. */
  lemma OpenerThenEntry(opener: string, entry: string, d: Dependency)
    requires OpensBlock(opener) && BlockLine(true, entry) == Some(d) && NextInBlock(true, entry)
    ensures InBlockAfter([opener, entry]) && GoModRecords([opener, entry]) == [d]
  {
    OpenerAlone(opener);
    GoModStep([opener], entry);
    assert [opener] + [entry] == [opener, entry];
  }

  lemma OpenerAlone(opener: string)
    requires OpensBlock(opener)
    ensures InBlockAfter([opener]) && GoModRecords([opener]) == []
  {
    var l0: seq<string> := [];
    GoModStep(l0, opener);
    assert l0 + [opener] == [opener];
  }

  lemma ThreeLineBlock(opener: string, entry: string, closer: string, d: Dependency)
    requires OpensBlock(opener) && BlockLine(true, entry) == Some(d) && NextInBlock(true, entry)
    requires !OpensBlock(closer) && Strip(Go, closer) == ")"
    ensures GoModRecords([opener, entry, closer]) == [d] && !InBlockAfter([opener, entry, closer])
  {
    OpenerThenEntry(opener, entry, d);
    GoModStep([opener, entry], closer);
    assert [opener, entry] + [closer] == [opener, entry, closer];
  }

  /** A block of one indented `module version` line reads back as that
      module at that version, and the block is closed after it. */
  lemma BlockRoundTrip(name: string, version: string)
    requires |name| > 0 && NoSpace(Go, name) && !StartsWith(name, "//") && name != "require"
    requires |version| > 0 && NoSpace(Go, version)
    ensures var lines := ["require (", "\t" + name + " " + version, ")"];
      GoModRecords(lines) == [Dependency(name, version, "go", Unknown)] && !InBlockAfter(lines)
  {
    EntryLine(name, version);
    Opener();
    Closer();
    ThreeLineBlock("require (", "\t" + name + " " + version, ")", Dependency(name, version, "go", Unknown));
  }

  // ---------------------------------------------------------------------
  // Dependencies

  /** What `scanNpmDependencies` returns when package.json exists. */
  const NpmPlaceholder: Dependency := Dependency("npm-dependencies", "detected", "npm", Unknown)

  /** What `scanCargoDependencies` returns when Cargo.toml exists. */
  const CargoPlaceholder: Dependency := Dependency("cargo-dependencies", "detected", "cargo", Unknown)

  function NpmPlaceholderPart(m: Manifest<NpmPackage>): seq<Dependency> {
    if m.Absent? then [] else [NpmPlaceholder]
  }

  function CargoPlaceholderPart(m: Manifest<seq<(string, CargoSpec)>>): seq<Dependency> {
    if m.Absent? then [] else [CargoPlaceholder]
  }

  function RequirementsPart(m: Manifest<string>): seq<Dependency> {
    if m.Parsed? then GoRequirementRecords(TextLines(m.contents)) else []
  }

  function GoModPart(m: Manifest<string>): seq<Dependency> {
    if m.Parsed? then GoModRecords(TextLines(m.contents)) else []
  }

  /** The records of the four manifests: npm, then Python, Cargo and Go.
      package.json and Cargo.toml are only looked for, never read, so one
      that exists gives its placeholder even when it cannot be read; a
      requirements.txt or go.mod that cannot be read gives nothing. */
  function GoDependencies(m: Manifests): seq<Dependency> {
    NpmPlaceholderPart(m.packageJson) + RequirementsPart(m.requirementsTxt)
    + CargoPlaceholderPart(m.cargoToml) + GoModPart(m.goMod)
  }

  lemma {:induction false} RequirementRecordsArePython(lines: seq<string>)
    ensures forall d :: d in GoRequirementRecords(lines) ==> d.kind == "python"
  {
    if lines != [] {
      var front := lines[..|lines| - 1];
      RequirementRecordsArePython(front);
      var last := GoRequirementLine(lines[|lines| - 1]);
      assert last.Some? ==> last.value.kind == "python";
      assert GoRequirementRecords(lines) == GoRequirementRecords(front) + (if last.Some? then [last.value] else []);
    }
  }

  /** The npm and Cargo records are the placeholders alone: one each
      exactly when the manifest exists. */
  lemma PlaceholdersOnly(m: Manifests)
    ensures var r := GoDependencies(m);
      && (forall d :: d in r && d.kind == "npm" ==> d == NpmPlaceholder)
      && (forall d :: d in r && d.kind == "cargo" ==> d == CargoPlaceholder)
      && (NpmPlaceholder in r <==> !m.packageJson.Absent?)
      && (CargoPlaceholder in r <==> !m.cargoToml.Absent?)
  {
    var npm := NpmPlaceholderPart(m.packageJson);
    var python := RequirementsPart(m.requirementsTxt);
    var cargo := CargoPlaceholderPart(m.cargoToml);
    var gomod := GoModPart(m.goMod);
    if m.requirementsTxt.Parsed? {
      RequirementRecordsArePython(TextLines(m.requirementsTxt.contents));
    }
    if m.goMod.Parsed? {
      GoModRecordsAreGo(TextLines(m.goMod.contents));
    }
    assert forall d :: d in python ==> d.kind == "python";
    assert forall d :: d in gomod ==> d.kind == "go";
    assert GoDependencies(m) == npm + python + cargo + gomod;
  }

  /** `scanDependencies`. */
  method ScanDependencies(m: Manifests) returns (deps: seq<Dependency>)
    ensures deps == GoDependencies(m)
  {
    var npm: seq<Dependency> := [];
    if !m.packageJson.Absent? {
      npm := [NpmPlaceholder];
    }
    var python: seq<Dependency> := [];
    if m.requirementsTxt.Parsed? {
      python := ScanRequirementLines(TextLines(m.requirementsTxt.contents));
    }
    var cargo: seq<Dependency> := [];
    if !m.cargoToml.Absent? {
      cargo := [CargoPlaceholder];
    }
    var gomod: seq<Dependency> := [];
    if m.goMod.Parsed? {
      gomod := ScanGoModLines(TextLines(m.goMod.contents));
    }
    assert npm == NpmPlaceholderPart(m.packageJson) && python == RequirementsPart(m.requirementsTxt);
    assert cargo == CargoPlaceholderPart(m.cargoToml) && gomod == GoModPart(m.goMod);
    deps := npm + python + cargo + gomod;
  }

  // ---------------------------------------------------------------------
  // Build systems

  /** The build files `scanBuildSystems` looks for, by exact name, with the
      system each indicates. */
  const GoBuildPatterns: seq<(string, string)> := [
    ("CMakeLists.txt", "cmake"), ("Makefile", "make"), ("build.gradle", "gradle"),
    ("pom.xml", "maven"), ("package.json", "npm"), ("Cargo.toml", "cargo"), ("go.mod", "go_modules")
  ]

  /** `filepath.Glob` of the name in the project directory (any kind of
      entry), then every regular file of that name found by the walk, the
      top-level ones included. */
  function GoPatternRecords(tree: seq<Node>, name: string, system: string): seq<BuildSystem> {
    MatchingRecords(TopLevel(tree), name, system) + MatchingRecords(FilesOf(tree, []), name, system)
  }

  /** The records of every pattern, in the order the map is iterated. */
  function GoBuildRecords(tree: seq<Node>, order: seq<(string, string)>): seq<BuildSystem> {
    Gather(order, (p: (string, string)) => GoPatternRecords(tree, p.0, p.1))
  }

  /** The map's iteration order changes the order of the records and
      nothing else. */
  lemma BuildOrderIrrelevant(tree: seq<Node>, order: seq<(string, string)>)
    requires multiset(order) == multiset(GoBuildPatterns)
    ensures multiset(GoBuildRecords(tree, order)) == multiset(GoBuildRecords(tree, GoBuildPatterns))
  {
    GatherPermutation(order, GoBuildPatterns, (p: (string, string)) => GoPatternRecords(tree, p.0, p.1));
  }

  /** `scanBuildSystems`: every record it makes is marked for review. */
  method ScanBuildSystems(tree: seq<Node>, order: seq<(string, string)>) returns (r: seq<BuildSystem>)
    ensures r == GoBuildRecords(tree, order)
    ensures forall i :: 0 <= i < |r| ==> r[i].needsReview
  {
    r := [];
    for k := 0 to |order|
      invariant r == GoBuildRecords(tree, order[..k])
      invariant forall i :: 0 <= i < |r| ==> r[i].needsReview
    {
      assert order[..k + 1][..k] == order[..k];
      var (pattern, system) := order[k];
      var matches := MatchingRecords(TopLevel(tree), pattern, system);
      matches := matches + MatchingRecords(FilesOf(tree, []), pattern, system);
      r := r + matches;
    }
    assert order[..|order|] == order;
  }

  // ---------------------------------------------------------------------
  // Recommendations

  /** The characters that open each kind of recommendation, as the Go
      source spells them: the UTF-8 bytes of the Python scanner's emoji
      read one byte per character (Windows-1252). */
  function GoGlyph(a: Advice): string {
    match a
    case NoIssues => "\U{00E2}\U{0153}\U{2026} "
    case FoundIssues(_) => "\U{00F0}\U{0178}\U{201D} "
    case HighSeverity(_) => "\U{00E2}\U{0161}\U{00A0}\U{00EF}\U{00B8}  "
    case CMakeHint => "\U{00F0}\U{0178}\U{201C}\U{2039} "
    case MakeHint => "\U{00F0}\U{0178}\U{201C}\U{2039} "
    case DependencyCount(_) => "\U{00F0}\U{0178}\U{201C}\U{00A6} "
  }

  function GoLine(a: Advice): string {
    GoGlyph(a) + AdviceText(a)
  }

  /** One line per piece of advice, each formatted by `line`. */
  function RenderWith(advice: seq<Advice>, line: Advice -> string): (r: seq<string>)
    ensures |r| == |advice| && forall i :: 0 <= i < |r| ==> r[i] == line(advice[i])
  {
    if advice == [] then [] else [line(advice[0])] + RenderWith(advice[1..], line)
  }

  function GoRender(advice: seq<Advice>): seq<string> {
    RenderWith(advice, GoLine)
  }

  /** `generateRecommendations`. */
  function GoRecommendations(issues: seq<Issue>, buildSystems: seq<BuildSystem>, deps: seq<Dependency>): seq<string> {
    var systems := Systems(buildSystems);
    GoRender(Advise(|issues|, CountHighSeverity(issues), "cmake" in systems, "make" in systems, |deps|))
  }

  /** Two lists of recommendations that say the same things in the same
      order, the first with the Go scanner's glyphs and the second with the
      Python scanner's. */
  ghost predicate SameAdvice(g: seq<string>, p: seq<string>) {
    |g| == |p| && forall i :: 0 <= i < |g| ==> exists a :: g[i] == GoLine(a) && p[i] == Glyph(a) + AdviceText(a)
  }

  /** Rendering the same advice both ways pairs the lines up. */
  lemma RenderBoth(a: seq<Advice>)
    ensures SameAdvice(GoRender(a), Render(a))
  {
    var g := GoRender(a);
    var p := Render(a);
    forall i | 0 <= i < |g| ensures exists b :: g[i] == GoLine(b) && p[i] == Glyph(b) + AdviceText(b) {
      assert g[i] == GoLine(a[i]) && p[i] == Glyph(a[i]) + AdviceText(a[i]);
    }
  }

  /** Both scanners recommend the same things in the same order; line by
      line, only the opening glyph differs. */
  lemma SameAdviceAsPython(issues: seq<Issue>, buildSystems: seq<BuildSystem>, deps: seq<Dependency>)
    ensures SameAdvice(GoRecommendations(issues, buildSystems, deps), Recommendations(issues, buildSystems, deps))
  {
    var systems := Systems(buildSystems);
    var a := Advise(|issues|, CountHighSeverity(issues), "cmake" in systems, "make" in systems, |deps|);
    RenderBoth(a);
    assert GoRecommendations(issues, buildSystems, deps) == GoRender(a);
    assert Recommendations(issues, buildSystems, deps) == Render(a);
  }

  const GoNothingFound: string := "\U{00E2}\U{0153}\U{2026} " + "No obvious x86-specific code detected"

  /** Only the nothing-found glyph has U+0153 in second place. */
  lemma GoGlyphSecond(a: Advice)
    ensures |GoGlyph(a)| >= 2 && (GoGlyph(a)[1] == '\U{0153}' <==> a == NoIssues)
  {
  }

  lemma GoRenderFirst(a: seq<Advice>)
    requires |a| >= 1
    ensures GoRender(a)[0] == GoNothingFound <==> a[0] == NoIssues
  {
    var line := GoRender(a)[0];
    assert line == GoGlyph(a[0]) + AdviceText(a[0]);
    GoGlyphSecond(a[0]);
    if a[0] == NoIssues {
      assert line == GoNothingFound;
    } else {
      assert line[1] == GoGlyph(a[0])[1];
      assert GoNothingFound[1] == '\U{0153}';
    }
  }

  /** There are one to five recommendations, and the first reports that no
      x86 code was found exactly when there are no issues. */
  lemma GoRecommendationsSummary(issues: seq<Issue>, buildSystems: seq<BuildSystem>, deps: seq<Dependency>)
    ensures var r := GoRecommendations(issues, buildSystems, deps);
      1 <= |r| <= 5 && (r[0] == GoNothingFound <==> |issues| == 0)
  {
    var systems := Systems(buildSystems);
    var a := Advise(|issues|, CountHighSeverity(issues), "cmake" in systems, "make" in systems, |deps|);
    assert GoRecommendations(issues, buildSystems, deps) == GoRender(a);
    GoRenderFirst(a);
  }

  lemma {:induction false} RenderConcat(a: seq<Advice>, b: seq<Advice>, line: Advice -> string)
    ensures RenderWith(a + b, line) == RenderWith(a, line) + RenderWith(b, line)
  {
    if a != [] {
      assert (a + b)[1..] == a[1..] + b;
      RenderConcat(a[1..], b, line);
    } else {
      assert a + b == b;
    }
  }

  /** Rendering the advice renders its three parts one after another. */
  lemma RenderAdvise(issueCount: nat, highCount: nat, hasCMake: bool, hasMake: bool, depCount: nat, line: Advice -> string)
    ensures RenderWith(Advise(issueCount, highCount, hasCMake, hasMake, depCount), line)
      == RenderWith(SummaryLines(issueCount, highCount), line) + RenderWith(BuildHints(hasCMake, hasMake), line)
        + RenderWith(if depCount > 0 then [DependencyCount(depCount)] else [], line)
  {
    var summary := SummaryLines(issueCount, highCount);
    var build := BuildHints(hasCMake, hasMake);
    RenderConcat(summary, build, line);
    RenderConcat(summary + build, if depCount > 0 then [DependencyCount(depCount)] else [], line);
  }

  /** The counting loop of `generateRecommendations`. */
  method CountHigh(issues: seq<Issue>) returns (high: nat)
    ensures high == CountHighSeverity(issues)
  {
    high := 0;
    for i := 0 to |issues|
      invariant high + CountHighSeverity(issues[i..]) == CountHighSeverity(issues)
    {
      assert issues[i..][1..] == issues[i + 1..];
      if issues[i].severity == High {
        high := high + 1;
      }
    }
  }

  /** The `buildSystemTypes` loop: the systems seen, each mapped to true. */
  method SystemTypes(buildSystems: seq<BuildSystem>) returns (types: map<string, bool>)
    ensures forall s :: s in types <==> s in Systems(buildSystems)
    ensures forall s :: s in types ==> types[s]
  {
    types := map[];
    for i := 0 to |buildSystems|
      invariant forall s :: s in types <==> exists k :: 0 <= k < i && buildSystems[k].system == s
      invariant forall s :: s in types ==> types[s]
    {
      types := types[buildSystems[i].system := true];
    }
    var systems := Systems(buildSystems);
    forall s ensures s in types <==> s in systems {
      if s in systems {
        var k :| 0 <= k < |systems| && systems[k] == s;
        assert buildSystems[k].system == s;
      }
    }
  }

  /** The summary lines: nothing found, or the issue count followed by the
      high-severity count when there is one. */
  method SummaryRecs(issueCount: nat, highSeverityCount: nat, line: Advice -> string) returns (recs: seq<string>)
    ensures recs == RenderWith(SummaryLines(issueCount, highSeverityCount), line)
  {
    if issueCount == 0 {
      recs := [line(NoIssues)];
    } else {
      recs := [line(FoundIssues(issueCount))];
      if highSeverityCount > 0 {
        recs := recs + [line(HighSeverity(highSeverityCount))];
      }
    }
  }

  /** The CMake hint, then the Make hint, as the systems were seen. */
  method HintRecs(types: map<string, bool>, line: Advice -> string) returns (recs: seq<string>)
    ensures recs == RenderWith(BuildHints("cmake" in types && types["cmake"], "make" in types && types["make"]), line)
  {
    recs := [];
    if "cmake" in types && types["cmake"] {
      recs := recs + [line(CMakeHint)];
    }
    if "make" in types && types["make"] {
      recs := recs + [line(MakeHint)];
    }
  }

  /** The dependency count, when there are dependencies. */
  method DependencyRecs(depCount: nat, line: Advice -> string) returns (recs: seq<string>)
    ensures recs == RenderWith(if depCount > 0 then [DependencyCount(depCount)] else [], line)
  {
    recs := [];
    if depCount > 0 {
      recs := [line(DependencyCount(depCount))];
    }
  }

  /** `generateRecommendations`: appends the summary, the high-severity
      line, the CMake and Make hints and the dependency line as they apply,
      each formatted as glyph then text. */
  method GenerateRecommendations(issues: seq<Issue>, buildSystems: seq<BuildSystem>, deps: seq<Dependency>)
    returns (recs: seq<string>)
    ensures recs == GoRecommendations(issues, buildSystems, deps)
  {
    var highSeverityCount := CountHigh(issues);
    recs := SummaryRecs(|issues|, highSeverityCount, GoLine);
    var types := SystemTypes(buildSystems);
    var hints := HintRecs(types, GoLine);
    recs := recs + hints;
    var depLines := DependencyRecs(|deps|, GoLine);
    recs := recs + depLines;
    ghost var systems := Systems(buildSystems);
    assert ("cmake" in types && types["cmake"]) == ("cmake" in systems);
    assert ("make" in types && types["make"]) == ("make" in systems);
    RenderAdvise(|issues|, highSeverityCount, "cmake" in systems, "make" in systems, |deps|, GoLine);
  }

  // ---------------------------------------------------------------------
  // The scan

  /** `Scan`: the files the walk keeps, each read and matched; the build
      systems; the dependencies; the recommendations drawn from them. The
      pattern table and the build-file map are fixed literals; only the
      order each line tries the catalogue in and the order the build-file
      map is iterated in are the runtime's choice, so the issues and the
      build systems are those of the literals' own order, up to order. */
  method Scan(rootName: string, tree: seq<Node>, read: LineReader, order: Order, find: FindString,
              buildOrder: seq<(string, string)>, m: Manifests)
    returns (r: ScanReport)
    requires forall f, n :: multiset(order(f, n)) == multiset(Patterns)
    requires multiset(buildOrder) == multiset(GoBuildPatterns)
    ensures r.totalFiles == |GoSourceFiles(rootName, tree)|
    ensures r.scannedFiles == ReadableCount(GoSourceFiles(rootName, tree), read) <= r.totalFiles
    ensures r.issues == GoProjectIssues(GoSourceFiles(rootName, tree), read, order, find)
    ensures r.buildSystems == GoBuildRecords(tree, buildOrder)
    ensures r.dependencies == GoDependencies(m)
    ensures r.recommendations == GoRecommendations(r.issues, r.buildSystems, r.dependencies)
    ensures multiset(r.issues)
         == multiset(GoProjectIssues(GoSourceFiles(rootName, tree), read, (f: string, n: nat) => Patterns, find))
    ensures multiset(r.buildSystems) == multiset(GoBuildRecords(tree, GoBuildPatterns))
  {
    var files := GoSourceFiles(rootName, tree);
    var total, scanned, issues := ScanFiles(files, read, order, find);
    ProjectIssuesOrder(files, read, order, Patterns, find);
    var buildSystems := ScanBuildSystems(tree, buildOrder);
    BuildOrderIrrelevant(tree, buildOrder);
    var deps := ScanDependencies(m);
    var recs := GenerateRecommendations(issues, buildSystems, deps);
    r := ScanReport(total, scanned, issues, deps, buildSystems, recs);
  }
}
