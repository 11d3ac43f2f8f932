/** The Python scanner (`CodeScanner` of sdk/scanner.py): it walks a project,
    matches a fixed catalogue of x86 patterns against every source file,
    numbers each match by the newlines before it, records the build systems
    and dependency manifests it recognises, and sums the result up as
    recommendations.

    The regular-expression engine is a parameter: `Finder` stands for
    `re.finditer(pattern, content, re.IGNORECASE | re.MULTILINE)` and yields
    each match's start offset and text. The three literal patterns also get
    a concrete search, `LiteralMatches`. */
module PyScanner {
  import opened Text
  import opened OrderedDict
  import opened Report

  datatype PatternEntry = PatternEntry(category: string, pattern: string)

  /** The pattern catalogue, category by category in dict order, each
      category's patterns in list order. */
  const Patterns: seq<PatternEntry> := [
    PatternEntry(InlineAssembly, "__asm__\\s*\\("),
    PatternEntry(InlineAssembly, "asm\\s*\\("),
    PatternEntry(InlineAssembly, "_asm\\s*{"),
    PatternEntry(X86Intrinsics, "#include\\s*<.*mmintrin\\.h.*>"),
    PatternEntry(X86Intrinsics, "#include\\s*<.*xmmintrin\\.h.*>"),
    PatternEntry(X86Intrinsics, "#include\\s*<.*emmintrin\\.h.*>"),
    PatternEntry(X86Intrinsics, "#include\\s*<.*pmmintrin\\.h.*>"),
    PatternEntry(X86Intrinsics, "#include\\s*<.*immintrin\\.h.*>"),
    PatternEntry(X86Intrinsics, "_mm_\\w+"),
    PatternEntry(X86Intrinsics, "_mm\\d+_\\w+"),
    PatternEntry(ArchitectureChecks, "#ifdef\\s+_M_X64"),
    PatternEntry(ArchitectureChecks, "#ifdef\\s+__x86_64__"),
    PatternEntry(ArchitectureChecks, "#ifdef\\s+_M_IX86"),
    PatternEntry(ArchitectureChecks, "#ifdef\\s+__i386__"),
    PatternEntry(PlatformSpecific, "GetSystemInfo"),
    PatternEntry(PlatformSpecific, "IsWow64Process"),
    PatternEntry(PlatformSpecific, "SYSTEM_INFO")
  ]

  /** The patterns without metacharacters: plain words. */
  const LiteralPatterns: seq<string> := ["GetSystemInfo", "IsWow64Process", "SYSTEM_INFO"]

  const ScannableExtensions: set<string> := {
    ".c", ".cpp", ".cc", ".cxx", ".h", ".hpp", ".hxx", ".py",
    ".go", ".rs", ".java", ".cs", ".js", ".ts", ".jsx", ".tsx"
  }

  /** Fragments that exclude a file when they occur anywhere in its path. */
  const SkipFragments: seq<string> := [
    ".git", "__pycache__", "node_modules", ".venv", "venv", "build", "dist", ".tox", ".pytest_cache"
  ]

  predicate IsCategory(c: string) {
    c == InlineAssembly || c == X86Intrinsics || c == ArchitectureChecks || c == PlatformSpecific
  }

  /** Every entry names one of the four categories, and the
      platform-specific entries are exactly the literal patterns. */
  lemma PlatformEntriesAreLiteral()
    ensures forall i :: 0 <= i < |Patterns| ==> IsCategory(Patterns[i].category)
    ensures forall i :: 0 <= i < |Patterns| && Patterns[i].category == PlatformSpecific ==>
      Patterns[i].pattern in LiteralPatterns
    ensures forall i :: 0 <= i < |LiteralPatterns| ==> Patterns[14 + i] == PatternEntry(PlatformSpecific, LiteralPatterns[i])
  {
    forall i | 0 <= i < |Patterns|
      ensures IsCategory(Patterns[i].category)
      ensures Patterns[i].category == PlatformSpecific ==> Patterns[i].pattern in LiteralPatterns
    {
      if i < 14 {
        assert |Patterns[i].category| != |PlatformSpecific|;
      } else {
        assert Patterns[i].pattern == LiteralPatterns[i - 14];
      }
    }
  }

  // ---------------------------------------------------------------------
  // Line numbers

  /** The line a match starting at `offset` lies on: one more than the
      newlines before it (slicing clamps an offset past the end). */
  function LineNumber(content: string, offset: nat): (line: nat)
    ensures 1 <= line <= Count(content, '\n') + 1
  {
    var k := if offset <= |content| then offset else |content|;
    CountPrefixMonotone(content, k, |content|, '\n');
    assert content[..|content|] == content;
    Count(content[..k], '\n') + 1
  }

  /** A later match never lies on an earlier line. */
  lemma LineNumberMonotone(content: string, a: nat, b: nat)
    requires a <= b
    ensures LineNumber(content, a) <= LineNumber(content, b)
  {
    var ka := if a <= |content| then a else |content|;
    var kb := if b <= |content| then b else |content|;
    CountPrefixMonotone(content, ka, kb, '\n');
  }

  /** Text made of lines, each followed by a newline. */
  function Terminated(lines: seq<string>): string {
    if lines == [] then [] else Terminated(lines[..|lines| - 1]) + lines[|lines| - 1] + "\n"
  }

  lemma {:induction false} CountTerminated(lines: seq<string>)
    requires forall i :: 0 <= i < |lines| ==> '\n' !in lines[i]
    ensures Count(Terminated(lines), '\n') == |lines|
    decreases |lines|
  {
    if lines != [] {
      var last := lines[|lines| - 1];
      CountTerminated(lines[..|lines| - 1]);
      CountAppend(Terminated(lines[..|lines| - 1]) + last, "\n", '\n');
      CountAppend(Terminated(lines[..|lines| - 1]), last, '\n');
      CountAbsent(last, '\n');
      assert Count("\n", '\n') == 1 by {
        assert "\n"[..0] == [];
      }
    }
  }

  /** Offset numbering agrees with numbering lines in read order: a match
      starting in the line that follows `before` (at any column, up to the
      line's end) gets number `|before| + 1`. */
  lemma LineNumberOfLine(before: seq<string>, line: string, rest: string, col: nat)
    requires forall i :: 0 <= i < |before| ==> '\n' !in before[i]
    requires '\n' !in line && col <= |line|
    ensures LineNumber(Terminated(before) + line + rest, |Terminated(before)| + col) == |before| + 1
  {
    var t := Terminated(before);
    var content := t + line + rest;
    assert content[..|t| + col] == t + line[..col];
    CountAppend(t, line[..col], '\n');
    CountTerminated(before);
    assert forall j :: 0 <= j < col ==> line[..col][j] == line[j];
    CountAbsent(line[..col], '\n');
  }

  // ---------------------------------------------------------------------
  // Severity and suggestion tables

  function Severity(category: string): (s: Level)
    ensures s == High <==> category == InlineAssembly || category == X86Intrinsics
    ensures s == Medium <==> category == ArchitectureChecks || category == PlatformSpecific
    ensures s == Low <==> !IsCategory(category)
  {
    if category == InlineAssembly || category == X86Intrinsics then High
    else if category == ArchitectureChecks || category == PlatformSpecific then Medium
    else Low
  }

  const DefaultSuggestion: string := "Review for ARM compatibility"

  /** The fix suggested for a category; the matched text does not affect it. */
  function Suggestion(category: string, matchedText: string): (s: string)
    ensures s == DefaultSuggestion <==> !IsCategory(category)
  {
    if category == InlineAssembly then "Replace with portable C/C++ code or use ARM NEON intrinsics"
    else if category == X86Intrinsics then "Replace with ARM NEON equivalents or portable alternatives"
    else if category == ArchitectureChecks then "Add ARM architecture checks or use runtime detection"
    else if category == PlatformSpecific then "Use cross-platform alternatives or add ARM-specific implementations"
    else DefaultSuggestion
  }

  // ---------------------------------------------------------------------
  // Matches and issues

  /** One match of a pattern: where it starts and the text it covers. */
  datatype Match = Match(start: nat, text: string)

  /** The regular-expression engine: all non-overlapping matches of a
      pattern in a text, leftmost first. */
  type Finder = (string, string) -> seq<Match>

  /** `lit` occurs at `q` in `content` up to case, as `re.IGNORECASE`
      compares an ASCII pattern. */
  predicate CaselessAt(content: string, lit: string, q: nat) {
    q + |lit| <= |content| && Fold(content[q..q + |lit|]) == Fold(lit)
  }

  lemma CaselessAtFolded(content: string, lit: string, q: nat)
    ensures CaselessAt(content, lit, q) <==> OccursAt(Fold(content), Fold(lit), q)
  {
    if q + |lit| <= |content| {
      FoldSlice(content, q, q + |lit|);
    }
  }

  /** The long s matches an `S` of a pattern: `GetſystemInfo` is a match of
      `GetSystemInfo`, though ASCII lower-casing tells the two apart. */
  lemma LongSMatches()
    ensures CaselessAt("Get\U{017F}ystemInfo", "GetSystemInfo", 0)
    ensures Lower("Get\U{017F}ystemInfo") != Lower("GetSystemInfo")
  {
    assert Lower("Get\U{017F}ystemInfo")[3] != Lower("GetSystemInfo")[3];
  }

  /** `re.finditer(lit, content, re.IGNORECASE)` for a pattern without
      metacharacters: the non-overlapping occurrences that agree with `lit`
      up to case, leftmost first, searching from `from`. */
  function LiteralMatchesFrom(content: string, lit: string, from: nat): (r: seq<Match>)
    requires |lit| > 0 && from <= |content|
    decreases |content| - from
    ensures forall k :: 0 <= k < |r| ==>
      from <= r[k].start && CaselessAt(content, lit, r[k].start)
      && r[k].text == content[r[k].start..r[k].start + |lit|]
    ensures forall k, l :: 0 <= k < l < |r| ==> r[k].start + |lit| <= r[l].start
  {
    match IndexFrom(Fold(content), Fold(lit), from)
    case None => []
    case Some(i) =>
      CaselessAtFolded(content, lit, i);
      [Match(i, content[i..i + |lit|])] + LiteralMatchesFrom(content, lit, i + |lit|)
  }

  function LiteralMatches(content: string, lit: string): seq<Match>
    requires |lit| > 0
  {
    LiteralMatchesFrom(content, lit, 0)
  }

  /** The search misses nothing: when `lit` occurs at or after `from`, there
      is a first match, and no occurrence lies between `from` and it. */
  lemma LiteralMatchesLeftmost(content: string, lit: string, from: nat, j: nat)
    requires |lit| > 0 && from <= j && from <= |content| && CaselessAt(content, lit, j)
    ensures var r := LiteralMatchesFrom(content, lit, from);
      && |r| > 0 && r[0].start <= j
      && forall q :: from <= q < r[0].start ==> !CaselessAt(content, lit, q)
  {
    CaselessAtFolded(content, lit, j);
    var i := IndexFrom(Fold(content), Fold(lit), from);
    assert i.Some?;
    forall q | from <= q < i.value
      ensures !CaselessAt(content, lit, q)
    {
      CaselessAtFolded(content, lit, q);
    }
  }

  /** The issue a match of catalogue entry `e` gives. */
  function MakeIssue(file: string, content: string, e: PatternEntry, m: Match): Issue {
    Issue(file, LineNumber(content, m.start), e.category, e.pattern, m.text,
      Severity(e.category), Suggestion(e.category, m.text))
  }

  /** The issues of one entry's matches, in match order. */
  function MatchIssues(file: string, content: string, e: PatternEntry, ms: seq<Match>): (r: seq<Issue>)
    ensures |r| == |ms|
    ensures forall i :: 0 <= i < |r| ==> r[i] == MakeIssue(file, content, e, ms[i])
  {
    if ms == [] then [] else MatchIssues(file, content, e, ms[..|ms| - 1]) + [MakeIssue(file, content, e, ms[|ms| - 1])]
  }

  /** The issues of several catalogue entries, entry by entry. */
  function EntryIssues(file: string, content: string, entries: seq<PatternEntry>, finditer: Finder): seq<Issue> {
    if entries == [] then []
    else
      var e := entries[|entries| - 1];
      EntryIssues(file, content, entries[..|entries| - 1], finditer)
        + MatchIssues(file, content, e, finditer(e.pattern, content))
  }

  /** The issues of one file; a file that cannot be read has none. */
  function FileIssues(file: string, content: Option<string>, finditer: Finder): seq<Issue> {
    match content
    case None => []
    case Some(c) => EntryIssues(file, c, Patterns, finditer)
  }

  /** What every issue of a file satisfies: it names the file, a line of the
      content, a catalogue entry, and that entry's severity and suggestion. */
  predicate IssueOf(file: string, content: string, issue: Issue) {
    && issue.file == file
    && 1 <= issue.line <= Count(content, '\n') + 1
    && PatternEntry(issue.category, issue.pattern) in Patterns
    && issue.severity == Severity(issue.category)
    && issue.suggestion == Suggestion(issue.category, issue.matchedText)
  }

  function MatchTotal(content: string, entries: seq<PatternEntry>, finditer: Finder): nat {
    if entries == [] then 0
    else MatchTotal(content, entries[..|entries| - 1], finditer) + |finditer(entries[|entries| - 1].pattern, content)|
  }

  /** One issue per match, and each is a well-formed issue of the file. */
  lemma {:induction false} EntryIssuesShape(file: string, content: string, entries: seq<PatternEntry>, finditer: Finder)
    requires forall e :: e in entries ==> e in Patterns
    ensures |EntryIssues(file, content, entries, finditer)| == MatchTotal(content, entries, finditer)
    ensures forall i :: 0 <= i < |EntryIssues(file, content, entries, finditer)| ==>
      IssueOf(file, content, EntryIssues(file, content, entries, finditer)[i])
    decreases |entries|
  {
    if entries != [] {
      var front := entries[..|entries| - 1];
      var e := entries[|entries| - 1];
      assert forall x :: x in front ==> x in entries;
      EntryIssuesShape(file, content, front, finditer);
      var prev := EntryIssues(file, content, front, finditer);
      var more := MatchIssues(file, content, e, finditer(e.pattern, content));
      assert EntryIssues(file, content, entries, finditer) == prev + more;
      forall i | 0 <= i < |prev + more| ensures IssueOf(file, content, (prev + more)[i]) {
        if i >= |prev| {
          assert (prev + more)[i] == more[i - |prev|];
        }
      }
    }
  }

  /** No issue the scanner reports is of low severity, and none carries the
      default suggestion: every category comes from the catalogue. */
  lemma IssuesNeverLow(file: string, content: Option<string>, finditer: Finder)
    ensures forall i :: 0 <= i < |FileIssues(file, content, finditer)| ==>
      FileIssues(file, content, finditer)[i].severity != Low
      && FileIssues(file, content, finditer)[i].suggestion != DefaultSuggestion
  {
    if content.Some? {
      EntryIssuesShape(file, content.value, Patterns, finditer);
      PlatformEntriesAreLiteral();
    }
  }

  /** Every platform-specific issue among `issues` has its pattern as its
      text, up to case. */
  predicate PlatformTextMatches(issues: seq<Issue>) {
    forall i :: 0 <= i < |issues| && issues[i].category == PlatformSpecific ==>
      Fold(issues[i].matchedText) == Fold(issues[i].pattern)
  }

  lemma PlatformTextMatchesConcat(a: seq<Issue>, b: seq<Issue>)
    requires PlatformTextMatches(a) && PlatformTextMatches(b)
    ensures PlatformTextMatches(a + b)
  {
    forall i | 0 <= i < |a + b| && (a + b)[i].category == PlatformSpecific
      ensures Fold((a + b)[i].matchedText) == Fold((a + b)[i].pattern)
    {
      if i >= |a| {
        assert (a + b)[i] == b[i - |a|];
      } else {
        assert (a + b)[i] == a[i];
      }
    }
  }

  /** The issues of a literal entry's matches carry its pattern, up to case. */
  lemma LiteralMatchIssues(file: string, content: string, e: PatternEntry)
    requires |e.pattern| > 0
    ensures PlatformTextMatches(MatchIssues(file, content, e, LiteralMatches(content, e.pattern)))
  {
    CaselessMatchIssues(file, content, e, LiteralMatches(content, e.pattern));
  }

  /** `m` is an occurrence of `lit` up to case, and holds the text found. */
  predicate MatchOf(content: string, lit: string, m: Match) {
    CaselessAt(content, lit, m.start) && m.text == content[m.start..m.start + |lit|]
  }

  lemma CaselessMatchIssues(file: string, content: string, e: PatternEntry, ms: seq<Match>)
    requires forall k :: 0 <= k < |ms| ==> MatchOf(content, e.pattern, ms[k])
    ensures PlatformTextMatches(MatchIssues(file, content, e, ms))
  {
    var more := MatchIssues(file, content, e, ms);
    forall i | 0 <= i < |more| ensures Fold(more[i].matchedText) == Fold(more[i].pattern) {
      assert more[i].matchedText == ms[i].text && more[i].pattern == e.pattern;
      LiteralMatchText(content, e.pattern, ms[i]);
    }
  }

  lemma LiteralMatchText(content: string, lit: string, m: Match)
    requires MatchOf(content, lit, m)
    ensures Fold(m.text) == Fold(lit)
  {
  }

  /** The issues of an entry of another category are not platform-specific. */
  lemma OtherMatchIssues(file: string, content: string, e: PatternEntry, ms: seq<Match>)
    requires e.category != PlatformSpecific
    ensures PlatformTextMatches(MatchIssues(file, content, e, ms))
  {
    var more := MatchIssues(file, content, e, ms);
    forall i | 0 <= i < |more| ensures more[i].category != PlatformSpecific {
      assert more[i] == MakeIssue(file, content, e, ms[i]);
    }
  }

  /** Over any entries whose platform-specific members are searched as
      plain words, every platform-specific issue's text is its pattern up to
      case. */
  lemma {:induction false} EntriesLiteralIssues(file: string, content: string, entries: seq<PatternEntry>, finditer: Finder)
    requires forall k :: 0 <= k < |entries| && entries[k].category == PlatformSpecific ==>
      |entries[k].pattern| > 0 && finditer(entries[k].pattern, content) == LiteralMatches(content, entries[k].pattern)
    ensures PlatformTextMatches(EntryIssues(file, content, entries, finditer))
    decreases |entries|
  {
    if entries != [] {
      var n := |entries|;
      var front := entries[..n - 1];
      var e := entries[n - 1];
      assert forall k :: 0 <= k < |front| ==> front[k] == entries[k];
      EntriesLiteralIssues(file, content, front, finditer);
      if e.category == PlatformSpecific {
        LiteralMatchIssues(file, content, e);
      } else {
        OtherMatchIssues(file, content, e, finditer(e.pattern, content));
      }
      PlatformTextMatchesConcat(EntryIssues(file, content, front, finditer),
                                MatchIssues(file, content, e, finditer(e.pattern, content)));
    }
  }

  /** With the literal patterns searched as plain words, every
      platform-specific issue of a file has its pattern as its text, up to
      case. */
  lemma LiteralIssuesMatchPattern(file: string, content: string, finditer: Finder)
    requires forall p :: p in LiteralPatterns ==> finditer(p, content) == LiteralMatches(content, p)
    ensures PlatformTextMatches(FileIssues(file, Some(content), finditer))
  {
    PlatformEntriesAreLiteral();
    assert forall p :: p in LiteralPatterns ==> |p| > 0;
    EntriesLiteralIssues(file, content, Patterns, finditer);
  }

  /** The inner loop of `_scan_file`: one issue per match of one entry. */
  method MatchesToIssues(file: string, content: string, e: PatternEntry, matches: seq<Match>) returns (found: seq<Issue>)
    ensures found == MatchIssues(file, content, e, matches)
  {
    found := [];
    var j := 0;
    while j < |matches|
      invariant 0 <= j <= |matches|
      invariant found == MatchIssues(file, content, e, matches[..j])
    {
      var m := matches[j];
      var line := LineNumber(content, m.start);
      found := found + [Issue(file, line, e.category, e.pattern, m.text, Severity(e.category), Suggestion(e.category, m.text))];
      assert matches[..j + 1][..j] == matches[..j];
      j := j + 1;
    }
    assert matches[..j] == matches;
  }

  /** `_scan_file`: read the file, run every catalogue pattern over the whole
      content and turn each match into an issue. A read failure is caught
      and yields no issues. */
  method ScanFile(file: string, content: Option<string>, finditer: Finder) returns (issues: seq<Issue>)
    ensures issues == FileIssues(file, content, finditer)
    ensures content.Some? ==> |issues| == MatchTotal(content.value, Patterns, finditer)
    ensures content.Some? ==> forall i :: 0 <= i < |issues| ==> IssueOf(file, content.value, issues[i])
  {
    issues := [];
    if content.None? {
      return;
    }
    issues := ScanContent(file, content.value, Patterns, finditer);
    EntryIssuesShape(file, content.value, Patterns, finditer);
  }

  /** The loop of `_scan_file` over the catalogue: each entry's matches in
      turn. */
  method ScanContent(file: string, content: string, entries: seq<PatternEntry>, finditer: Finder) returns (issues: seq<Issue>)
    ensures issues == EntryIssues(file, content, entries, finditer)
  {
    issues := [];
    var k := 0;
    while k < |entries|
      invariant 0 <= k <= |entries|
      invariant issues == EntryIssues(file, content, entries[..k], finditer)
    {
      var e := entries[k];
      var found := MatchesToIssues(file, content, e, finditer(e.pattern, content));
      issues := issues + found;
      assert entries[..k + 1][..k] == entries[..k];
      k := k + 1;
    }
    assert entries[..k] == entries;
  }

  // ---------------------------------------------------------------------
  // Which files are scanned

  /** pathlib's `suffix`: the text from the last dot of the name, unless
      that dot starts or ends the name. */
  function Suffix(name: string): (s: string)
    ensures s == [] || (|s| >= 2 && s[0] == '.' && EndsWith(name, s) && '.' !in s[1..] && |s| < |name|)
  {
    match LastIndexOfChar(name, '.')
    case None => []
    case Some(i) =>
      if 0 < i < |name| - 1 then
        assert forall j :: 0 <= j < |name[i..][1..]| ==> name[i..][1..][j] == name[i + 1 + j];
        name[i..]
      else []
  }

  /** A file is skipped when a skip fragment occurs anywhere in its full
      path, directory names and file name alike. */
  predicate ShouldSkip(path: string) {
    exists f :: f in SkipFragments && Contains(path, f)
  }

  /** The path string of an entry: the project path's components followed
      by the entry's. */
  function FullPath(root: seq<string>, rel: seq<string>): string {
    Join(root + rel, "/")
  }

  /** A file is scanned when its lower-cased suffix is scannable and its
      path holds no skip fragment. ASCII lower-casing decides membership
      exactly as `str.lower()` does: no non-ASCII character lowers to a
      letter of the scannable suffixes. */
  predicate IsSourceFile(root: seq<string>, rel: seq<string>)
    requires |rel| > 0
  {
    Lower(Suffix(rel[|rel| - 1])) in ScannableExtensions && !ShouldSkip(FullPath(root, rel))
  }

  /** The files kept, in walk order. */
  function SourceFiles(root: seq<string>, paths: seq<seq<string>>): (r: seq<seq<string>>)
    requires forall i :: 0 <= i < |paths| ==> |paths[i]| > 0
    ensures |r| <= |paths|
    ensures forall i :: 0 <= i < |r| ==> |r[i]| > 0
  {
    if paths == [] then []
    else
      var rest := SourceFiles(root, paths[1..]);
      if IsSourceFile(root, paths[0]) then [paths[0]] + rest else rest
  }

  /** Exactly the walked paths that are source files are kept. */
  lemma {:induction false} SourceFilesMembers(root: seq<string>, paths: seq<seq<string>>)
    requires forall i :: 0 <= i < |paths| ==> |paths[i]| > 0
    ensures forall p :: p in SourceFiles(root, paths) <==> p in paths && |p| > 0 && IsSourceFile(root, p)
    decreases |paths|
  {
    if paths != [] {
      SourceFilesMembers(root, paths[1..]);
      assert forall p :: p in paths <==> p == paths[0] || p in paths[1..];
    }
  }

  /** `_get_source_files`: walk every entry, keep the regular files with a
      scannable suffix whose path holds no skip fragment. */
  method GetSourceFiles(root: seq<string>, tree: seq<Node>) returns (files: seq<seq<string>>)
    ensures files == SourceFiles(root, FilesOf(tree, []))
    ensures forall p :: p in files <==> p in FilesOf(tree, []) && IsSourceFile(root, p)
  {
    var all := FilesOf(tree, []);
    files := [];
    var i := |all|;
    while i > 0
      invariant 0 <= i <= |all|
      invariant files == SourceFiles(root, all[i..])
    {
      i := i - 1;
      assert all[i..][1..] == all[i + 1..];
      if IsSourceFile(root, all[i]) {
        files := [all[i]] + files;
      }
    }
    SourceFilesMembers(root, all);
  }

  lemma JoinContainsPart(parts: seq<string>, sep: string, k: nat, f: string)
    requires k < |parts| && Contains(parts[k], f)
    ensures Contains(Join(parts, sep), f)
    decreases |parts|
  {
    var j := IndexOf(parts[k], f).value;
    if k == 0 {
      if |parts| > 1 {
        assert Join(parts, sep) == parts[0] + (sep + Join(parts[1..], sep));
      }
      assert Join(parts, sep)[j..j + |f|] == parts[0][j..j + |f|];
      assert OccursAt(Join(parts, sep), f, j);
    } else {
      JoinContainsPart(parts[1..], sep, k - 1, f);
      var rest := Join(parts[1..], sep);
      var q := IndexOf(rest, f).value;
      var pre := parts[0] + sep;
      assert Join(parts, sep) == pre + rest;
      assert (pre + rest)[|pre| + q..|pre| + q + |f|] == rest[q..q + |f|];
      assert OccursAt(Join(parts, sep), f, |pre| + q);
    }
  }

  /** The project path itself takes part in the skip test: a project kept
      under a directory whose name holds a skip fragment (say `builds` or
      `distance`) has no source file at all. */
  lemma RootFragmentSkipsEverything(root: seq<string>, tree: seq<Node>, k: nat, f: string)
    requires k < |root| && f in SkipFragments && Contains(root[k], f)
    ensures SourceFiles(root, FilesOf(tree, [])) == []
  {
    var all := FilesOf(tree, []);
    var r := SourceFiles(root, all);
    if r != [] {
      var p := r[0];
      assert p in r;
      assert (root + p)[k] == root[k];
      JoinContainsPart(root + p, "/", k, f);
      assert ShouldSkip(FullPath(root, p));
      SourceFilesMembers(root, all);
      assert false;
    }
  }

  /** The skip test looks at substrings, so a file whose own name merely
      contains a fragment, such as `distance.cpp` (which contains `dist`),
      is not scanned. */
  lemma SubstringSkipsFileName()
    ensures !IsSourceFile([], ["src", "distance.cpp"])
  {
    var parts: seq<string> := ["src", "distance.cpp"];
    assert [] + parts == parts;
    assert parts[1..] == ["distance.cpp"];
    var path := FullPath([], parts);
    assert path == "src" + "/" + "distance.cpp";
    assert OccursAt(path, "dist", 4);
    assert "dist" in SkipFragments;
  }

  // ---------------------------------------------------------------------
  // The whole-project scan

  /** What `f` yields for each element of `xs` in turn, concatenated. */
  function Gather<U, T>(xs: seq<U>, f: U -> seq<T>): seq<T> {
    if xs == [] then []
    else Gather(xs[..|xs| - 1], f) + f(xs[|xs| - 1])
  }

  lemma {:induction false} GatherAppend<U, T>(a: seq<U>, b: seq<U>, f: U -> seq<T>)
    ensures Gather(a + b, f) == Gather(a, f) + Gather(b, f)
    decreases |b|
  {
    if b == [] {
      assert a + b == a;
    } else {
      GatherAppend(a, b[..|b| - 1], f);
      assert (a + b)[..|a + b| - 1] == a + b[..|b| - 1];
      assert (a + b)[|a + b| - 1] == b[|b| - 1];
    }
  }

  /** Every occurrence in what one element yields is an occurrence in the
      whole. */
  lemma {:induction false} GatherCount<U, T>(xs: seq<U>, f: U -> seq<T>, k: nat, x: T)
    requires k < |xs|
    ensures multiset(Gather(xs, f))[x] >= multiset(f(xs[k]))[x]
    decreases |xs|
  {
    var n := |xs|;
    var front := Gather(xs[..n - 1], f);
    assert multiset(front + f(xs[n - 1])) == multiset(front) + multiset(f(xs[n - 1]));
    if k < n - 1 {
      assert xs[..n - 1][k] == xs[k];
      GatherCount(xs[..n - 1], f, k, x);
    }
  }

  /** An element of the whole comes from what some element yields. */
  lemma {:induction false} GatherMember<U, T>(xs: seq<U>, f: U -> seq<T>, x: T)
    ensures x in Gather(xs, f) <==> exists k :: 0 <= k < |xs| && x in f(xs[k])
    decreases |xs|
  {
    if xs != [] {
      var n := |xs|;
      GatherMember(xs[..n - 1], f, x);
      if x in Gather(xs[..n - 1], f) {
        var k :| 0 <= k < n - 1 && x in f(xs[..n - 1][k]);
        assert xs[..n - 1][k] == xs[k];
      }
      if exists k :: 0 <= k < n && x in f(xs[k]) {
        var k :| 0 <= k < n && x in f(xs[k]);
        if k < n - 1 {
          assert xs[..n - 1][k] == xs[k];
        }
      }
    }
  }

  /** Removing the same element from two equal multisets of sequences
      leaves equal multisets. */
  lemma RemoveMatching<U>(front: seq<U>, u: U, ys: seq<U>, j: nat)
    requires j < |ys| && ys[j] == u
    requires multiset(front + [u]) == multiset(ys)
    ensures multiset(front) == multiset(ys[..j] + ys[j + 1..])
  {
    var rest := ys[..j] + ys[j + 1..];
    assert ys == ys[..j] + [u] + ys[j + 1..];
    assert multiset(ys) == multiset(ys[..j]) + multiset{u} + multiset(ys[j + 1..]);
    assert multiset(front + [u]) == multiset(front) + multiset{u};
    assert multiset(rest) == multiset(ys[..j]) + multiset(ys[j + 1..]);
    forall z ensures multiset(front)[z] == multiset(rest)[z] {
      assert multiset(front + [u])[z] == multiset(front)[z] + multiset{u}[z];
      assert multiset(ys)[z] == multiset(ys[..j])[z] + multiset{u}[z] + multiset(ys[j + 1..])[z];
    }
  }

  lemma GatherMiddle<U, T>(pre: seq<U>, u: U, post: seq<U>, f: U -> seq<T>)
    ensures Gather(pre + [u] + post, f) == Gather(pre, f) + f(u) + Gather(post, f)
  {
    GatherAppend(pre + [u], post, f);
    GatherAppend(pre, [u], f);
    assert [u][..0] == [];
  }

  /** Gathering with one element taken out of the middle and put last
      gives the same things. */
  lemma GatherMoveLast<U, T>(ys: seq<U>, j: nat, f: U -> seq<T>)
    requires j < |ys|
    ensures multiset(Gather(ys, f)) == multiset(Gather(ys[..j] + ys[j + 1..], f) + f(ys[j]))
  {
    var pre, u, post := ys[..j], ys[j], ys[j + 1..];
    assert ys == pre + [u] + post;
    GatherMiddle(pre, u, post, f);
    GatherAppend(pre, post, f);
    var a, b, c := Gather(pre, f), f(u), Gather(post, f);
    assert multiset(a + b + c) == multiset(a) + multiset(b) + multiset(c);
    assert multiset(a + c + b) == multiset(a) + multiset(c) + multiset(b);
  }

  /** Taking the elements in another order yields the same things, in
      another order. */
  lemma {:induction false} GatherPermutation<U, T>(xs: seq<U>, ys: seq<U>, f: U -> seq<T>)
    requires multiset(xs) == multiset(ys)
    ensures multiset(Gather(xs, f)) == multiset(Gather(ys, f))
    decreases |xs|
  {
    if xs == [] {
      assert |multiset(ys)| == 0;
    } else {
      var n := |xs|;
      var u := xs[n - 1];
      assert xs == xs[..n - 1] + [u];
      assert u in multiset(ys);
      var j :| 0 <= j < |ys| && ys[j] == u;
      RemoveMatching(xs[..n - 1], u, ys, j);
      GatherPermutation(xs[..n - 1], ys[..j] + ys[j + 1..], f);
      GatherMoveLast(ys, j, f);
    }
  }

  /** The issues of a whole project: the files in the order they were
      listed, each read and scanned. */
  function ProjectIssues(files: seq<seq<string>>, read: seq<string> -> Option<string>, finditer: Finder): seq<Issue> {
    Gather(files, p => FileIssues(Join(p, "/"), read(p), finditer))
  }

  /** Scanning two lists of files one after the other gives the issues of
      the first, then those of the second. */
  lemma ProjectIssuesAppend(a: seq<seq<string>>, b: seq<seq<string>>,
                            read: seq<string> -> Option<string>, finditer: Finder)
    ensures ProjectIssues(a + b, read, finditer) == ProjectIssues(a, read, finditer) + ProjectIssues(b, read, finditer)
  {
    GatherAppend(a, b, p => FileIssues(Join(p, "/"), read(p), finditer));
  }

  lemma GatherSkip<U, T>(front: seq<U>, p: U, back: seq<U>, f: U -> seq<T>)
    requires f(p) == []
    ensures Gather(front + [p] + back, f) == Gather(front + back, f)
  {
    GatherAppend(front + [p], back, f);
    GatherAppend(front, [p], f);
    GatherAppend(front, back, f);
    assert [p][..0] == [];
  }

  /** A file that cannot be read contributes nothing, and the files after it
      are still scanned. */
  lemma UnreadableFileContributesNothing(front: seq<seq<string>>, p: seq<string>, back: seq<seq<string>>,
                                         read: seq<string> -> Option<string>, finditer: Finder)
    requires read(p).None?
    ensures ProjectIssues(front + [p] + back, read, finditer) == ProjectIssues(front + back, read, finditer)
  {
    GatherSkip(front, p, back, q => FileIssues(Join(q, "/"), read(q), finditer));
  }
}
