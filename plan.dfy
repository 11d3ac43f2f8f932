/** The migration planner of sdk/migrator.py (`Migrator.create_plan` and
    the helpers it calls): the scan's issues grouped by file into numbered
    steps, each step's changes ordered by line from the bottom of the file
    up, every change given a replacement text and a confidence from fixed
    tables, build-system and dependency follow-ups, a testing strategy and
    an effort estimate. */
module MigrationPlan {
  import opened Text
  import opened Report
  import opened PyScanner

  // ---------------------------------------------------------------------
  // Confidence

  /** How far an automatic rewrite of a category can be trusted: only
      architecture checks are rewritten without review. */
  const ConfidenceMap: map<string, Level> :=
    map[X86Intrinsics := Medium, ArchitectureChecks := High, InlineAssembly := Low, PlatformSpecific := Low]

  /** `_get_confidence`: the table, "low" for any other category. */
  function Confidence(category: string): Level {
    if category in ConfidenceMap then ConfidenceMap[category] else Low
  }

  /** Confidence depends on the category alone: high exactly for
      architecture checks, medium exactly for intrinsics, low otherwise. */
  lemma ConfidenceByCategory(category: string)
    ensures Confidence(category) == High <==> category == ArchitectureChecks
    ensures Confidence(category) == Medium <==> category == X86Intrinsics
    ensures Confidence(category) == Low <==> category != ArchitectureChecks && category != X86Intrinsics
  {
  }

  // ---------------------------------------------------------------------
  // Replacement text

  /** NEON equivalents of SSE intrinsics, in the table's order: the first
      name found in a match wins. */
  const IntrinsicMappings: seq<(string, string)> := [
    ("_mm_add_ps", "vaddq_f32"), ("_mm_sub_ps", "vsubq_f32"), ("_mm_mul_ps", "vmulq_f32"),
    ("_mm_div_ps", "vdivq_f32"), ("_mm_load_ps", "vld1q_f32"), ("_mm_store_ps", "vst1q_f32"),
    ("_mm_set1_ps", "vdupq_n_f32"), ("_mm_add_epi32", "vaddq_s32"), ("_mm_sub_epi32", "vsubq_s32"),
    ("_mm_mullo_epi32", "vmulq_s32"), ("_mm_load_si128", "vld1q_s32"), ("_mm_store_si128", "vst1q_s32")
  ]

  /** The guard an x86-64 check becomes: it also admits 64-bit ARM. */
  const X64Guard: string := "#if defined(_M_X64) || defined(__x86_64__) || defined(__aarch64__)"

  /** The guard a 32-bit x86 check becomes: it also admits 32-bit ARM. */
  const IX86Guard: string := "#if defined(_M_IX86) || defined(__i386__) || defined(__arm__)"

  const TodoOpen: string := "/* TODO: "

  /** The index of the first entry of `table`, from `from` on, whose key
      occurs in `text`. */
  function FirstMappingFrom(table: seq<(string, string)>, text: string, from: nat): (r: Option<nat>)
    requires from <= |table|
    decreases |table| - from
    ensures r.Some? ==> (from <= r.value < |table| && Contains(text, table[r.value].0)
      && forall j :: from <= j < r.value ==> !Contains(text, table[j].0))
    ensures r.None? ==> forall j :: from <= j < |table| ==> !Contains(text, table[j].0)
  {
    if from == |table| then None
    else if Contains(text, table[from].0) then Some(from)
    else FirstMappingFrom(table, text, from + 1)
  }

  function FirstMapping(table: seq<(string, string)>, text: string): Option<nat> {
    FirstMappingFrom(table, text, 0)
  }

  predicate MentionsX64(text: string) {
    Contains(text, "_M_X64") || Contains(text, "__x86_64__")
  }

  predicate MentionsIX86(text: string) {
    Contains(text, "_M_IX86") || Contains(text, "__i386__")
  }

  /** The generic marker for a fragment no rule rewrites. */
  function ReviewMarker(m: string): string {
    TodoOpen + "Review " + m + " for ARM compatibility */"
  }

  /** `_get_replacement`: a NEON name for a mapped intrinsic (every
      occurrence of the first name found), a widened guard for an
      architecture check naming x86-64 or 32-bit x86, and otherwise a TODO
      comment quoting the matched text. */
  function Replacement(issue: Issue): string {
    var m := issue.matchedText;
    if issue.category == X86Intrinsics then
      match FirstMapping(IntrinsicMappings, m)
      case Some(i) => ReplaceAll(m, IntrinsicMappings[i].0, IntrinsicMappings[i].1)
      case None => TodoOpen + "Replace " + m + " with ARM NEON equivalent */"
    else if issue.category == InlineAssembly then
      TodoOpen + "Replace inline assembly with portable C code or ARM NEON */\n// Original: " + m
    else if issue.category == ArchitectureChecks && MentionsX64(m) then ReplaceAll(m, m, X64Guard)
    else if issue.category == ArchitectureChecks && MentionsIX86(m) then ReplaceAll(m, m, IX86Guard)
    else if issue.category == PlatformSpecific then
      TodoOpen + "Add ARM-compatible implementation for " + m + " */"
    else ReviewMarker(m)
  }

  /** An intrinsic is rewritten by the first table entry, in table order,
      whose name occurs in the match: every occurrence of that name becomes
      the NEON name. With no name found the result is a TODO comment. */
  lemma IntrinsicReplacement(issue: Issue, i: nat)
    requires issue.category == X86Intrinsics && i < |IntrinsicMappings|
    requires Contains(issue.matchedText, IntrinsicMappings[i].0)
    requires forall j :: 0 <= j < i ==> !Contains(issue.matchedText, IntrinsicMappings[j].0)
    ensures Replacement(issue) == ReplaceAll(issue.matchedText, IntrinsicMappings[i].0, IntrinsicMappings[i].1)
  {
    assert FirstMapping(IntrinsicMappings, issue.matchedText) == Some(i);
  }

  /** An architecture check that names x86-64 becomes the widened 64-bit
      guard, one that names only 32-bit x86 the widened 32-bit guard, and
      one that names neither the review marker. */
  lemma ArchitectureReplacement(issue: Issue)
    requires issue.category == ArchitectureChecks
    ensures MentionsX64(issue.matchedText) ==> Replacement(issue) == X64Guard
    ensures !MentionsX64(issue.matchedText) && MentionsIX86(issue.matchedText) ==> Replacement(issue) == IX86Guard
    ensures !MentionsX64(issue.matchedText) && !MentionsIX86(issue.matchedText) ==>
      Replacement(issue) == ReviewMarker(issue.matchedText)
  {
    ReplaceWhole(issue.matchedText, X64Guard);
    ReplaceWhole(issue.matchedText, IX86Guard);
  }

  /** A TODO comment that quotes `m` between two fixed texts. */
  lemma TodoQuotes(before: string, m: string, after: string)
    ensures StartsWith(TodoOpen + before + m + after, TodoOpen)
    ensures Contains(TodoOpen + before + m + after, m)
  {
    var t := TodoOpen + before + m + after;
    var k := |TodoOpen + before|;
    assert t[k..k + |m|] == m;
    assert OccursAt(t, m, k);
    assert t[..|TodoOpen|] == TodoOpen;
  }

  /** Whatever no rule rewrites becomes a TODO comment that quotes the
      matched text, so the reader can find the fragment again. */
  lemma UnmappedIsTodo(issue: Issue)
    requires issue.category == X86Intrinsics ==> FirstMapping(IntrinsicMappings, issue.matchedText).None?
    requires issue.category == ArchitectureChecks ==> !MentionsX64(issue.matchedText) && !MentionsIX86(issue.matchedText)
    ensures StartsWith(Replacement(issue), TodoOpen) && Contains(Replacement(issue), issue.matchedText)
  {
    var m := issue.matchedText;
    var r := Replacement(issue);
    if issue.category == X86Intrinsics {
      assert r == TodoOpen + "Replace " + m + " with ARM NEON equivalent */";
      TodoQuotes("Replace ", m, " with ARM NEON equivalent */");
    } else if issue.category == InlineAssembly {
      var before := "Replace inline assembly with portable C code or ARM NEON */\n// Original: ";
      assert r == TodoOpen + before + m + "";
      TodoQuotes(before, m, "");
    } else if issue.category == PlatformSpecific {
      assert r == TodoOpen + "Add ARM-compatible implementation for " + m + " */";
      TodoQuotes("Add ARM-compatible implementation for ", m, " */");
    } else {
      assert r == TodoOpen + "Review " + m + " for ARM compatibility */";
      TodoQuotes("Review ", m, " for ARM compatibility */");
    }
  }

  // ---------------------------------------------------------------------
  // Changes

  /** One planned edit: where, what was found, what to put instead and how
      far to trust it. */
  datatype Change = Change(line: int, category: string, original: string, replacement: string, confidence: Level)

  /** The change planned for one issue. */
  function ChangeOf(issue: Issue): (c: Change)
    ensures c.line == issue.line && c.category == issue.category && c.original == issue.matchedText
    ensures c.confidence == Confidence(issue.category)
  {
    Change(issue.line, issue.category, issue.matchedText, Replacement(issue), Confidence(issue.category))
  }

  function ChangeOne(issue: Issue): seq<Change> {
    [ChangeOf(issue)]
  }

  /** The changes for some issues, in their order. */
  function Changes(issues: seq<Issue>): seq<Change> {
    Gather(issues, ChangeOne)
  }

  lemma {:induction false} ChangesAt(issues: seq<Issue>)
    ensures |Changes(issues)| == |issues|
    ensures forall i :: 0 <= i < |issues| ==> Changes(issues)[i] == ChangeOf(issues[i])
  {
    if issues != [] {
      ChangesAt(issues[..|issues| - 1]);
    }
  }

  // ---------------------------------------------------------------------
  // Ordering by line, bottom of the file first

  predicate LinesDescending(s: seq<Issue>) {
    forall i, j :: 0 <= i < j < |s| ==> s[i].line >= s[j].line
  }

  /** The issues of `s` on line `n`, in their order. */
  function OnLine(s: seq<Issue>, n: int): seq<Issue> {
    if s == [] then [] else (if s[0].line == n then [s[0]] else []) + OnLine(s[1..], n)
  }

  /** Places `x` after every issue at its line or below it in the file. */
  function InsertByLine(r: seq<Issue>, x: Issue): (t: seq<Issue>)
    ensures |t| == |r| + 1
  {
    if r == [] then [x]
    else if x.line > r[0].line then [x] + r
    else
      assert r == [r[0]] + r[1..];
      [r[0]] + InsertByLine(r[1..], x)
  }

  /** Python's `sorted(issues, key=line, reverse=True)`: descending by line,
      issues on the same line kept in their order. */
  function SortByLineDesc(s: seq<Issue>): seq<Issue> {
    if s == [] then [] else InsertByLine(SortByLineDesc(s[..|s| - 1]), s[|s| - 1])
  }

  /** Inserting loses and adds nothing but the new issue. */
  lemma {:induction false} InsertPermutes(r: seq<Issue>, x: Issue)
    ensures multiset(InsertByLine(r, x)) == multiset(r) + multiset{x}
  {
    if r != [] && x.line <= r[0].line {
      InsertPermutes(r[1..], x);
      assert r == [r[0]] + r[1..];
    }
  }

  /** No line of an issue of `s` is greater than `n`. */
  predicate LinesAtMost(s: seq<Issue>, n: int) {
    forall i :: 0 <= i < |s| ==> s[i].line <= n
  }

  lemma {:induction false} InsertAtMost(r: seq<Issue>, x: Issue, n: int)
    requires LinesAtMost(r, n) && x.line <= n
    ensures LinesAtMost(InsertByLine(r, x), n)
  {
    if r != [] && x.line <= r[0].line {
      InsertAtMost(r[1..], x, n);
      var t := InsertByLine(r[1..], x);
      assert InsertByLine(r, x) == [r[0]] + t;
    }
  }

  lemma {:induction false} InsertKeepsDescending(r: seq<Issue>, x: Issue)
    requires LinesDescending(r)
    ensures LinesDescending(InsertByLine(r, x))
    ensures |InsertByLine(r, x)| > 0 && InsertByLine(r, x)[0].line == (if r == [] || x.line > r[0].line then x.line else r[0].line)
  {
    if r != [] && x.line <= r[0].line {
      InsertKeepsDescending(r[1..], x);
      assert LinesAtMost(r[1..], r[0].line);
      InsertAtMost(r[1..], x, r[0].line);
      var t := InsertByLine(r[1..], x);
      assert InsertByLine(r, x) == [r[0]] + t;
    }
  }

  lemma {:induction false} OnLineConcat(a: seq<Issue>, b: seq<Issue>, n: int)
    ensures OnLine(a + b, n) == OnLine(a, n) + OnLine(b, n)
  {
    if a != [] {
      assert (a + b)[1..] == a[1..] + b;
      OnLineConcat(a[1..], b, n);
    } else {
      assert a + b == b;
    }
  }

  lemma {:induction false} NoneOnLineAbove(r: seq<Issue>, n: int)
    requires LinesDescending(r) && (r != [] ==> r[0].line < n)
    ensures OnLine(r, n) == []
  {
    if r != [] {
      NoneOnLineAbove(r[1..], n);
    }
  }

  /** Inserting keeps the issues of each line in order, the new one last. */
  lemma {:induction false} InsertStable(r: seq<Issue>, x: Issue, n: int)
    requires LinesDescending(r)
    ensures OnLine(InsertByLine(r, x), n) == OnLine(r, n) + OnLine([x], n)
  {
    if r == [] {
    } else if x.line > r[0].line {
      OnLineConcat([x], r, n);
      if x.line == n {
        NoneOnLineAbove(r, n);
      }
    } else {
      InsertStable(r[1..], x, n);
      OnLineConcat([r[0]], InsertByLine(r[1..], x), n);
      OnLineConcat([r[0]], r[1..], n);
      assert [r[0]] + r[1..] == r;
    }
  }

  lemma {:induction false} SortDescending(s: seq<Issue>)
    ensures LinesDescending(SortByLineDesc(s))
  {
    if s != [] {
      SortDescending(s[..|s| - 1]);
      InsertKeepsDescending(SortByLineDesc(s[..|s| - 1]), s[|s| - 1]);
    }
  }

  lemma {:induction false} SortPermutes(s: seq<Issue>)
    ensures multiset(SortByLineDesc(s)) == multiset(s)
  {
    if s != [] {
      var front := s[..|s| - 1];
      SortPermutes(front);
      InsertPermutes(SortByLineDesc(front), s[|s| - 1]);
      assert s == front + [s[|s| - 1]];
    }
  }

  lemma {:induction false} SortStable(s: seq<Issue>)
    ensures forall n :: OnLine(SortByLineDesc(s), n) == OnLine(s, n)
  {
    if s != [] {
      var front := s[..|s| - 1];
      var x := s[|s| - 1];
      SortStable(front);
      SortDescending(front);
      assert s == front + [x];
      forall n ensures OnLine(SortByLineDesc(s), n) == OnLine(s, n) {
        InsertStable(SortByLineDesc(front), x, n);
        OnLineConcat(front, [x], n);
      }
    }
  }

  /** The sort orders by line, bottom first, loses and adds nothing, and
      keeps the issues of each line in their order (it is stable). */
  lemma SortByLineDescCorrect(s: seq<Issue>)
    ensures LinesDescending(SortByLineDesc(s))
    ensures multiset(SortByLineDesc(s)) == multiset(s)
    ensures forall n :: OnLine(SortByLineDesc(s), n) == OnLine(s, n)
  {
    SortDescending(s);
    SortPermutes(s);
    SortStable(s);
  }

  // ---------------------------------------------------------------------
  // Steps

  const FileMigration: string := "file_migration"

  /** One step of a plan: the changes to make in one file. */
  datatype Step = Step(id: nat, kind: string, file: string, issuesCount: nat, changes: seq<Change>)

  /** `_create_file_migration_step`: the file's issues, bottom of the file
      first, each turned into a change. */
  function FileStep(id: nat, file: string, issues: seq<Issue>): Step {
    Step(id, FileMigration, file, |issues|, Changes(SortByLineDesc(issues)))
  }

  /** The changes of `c` on line `n`, in their order. */
  function ChangesOnLine(c: seq<Change>, n: int): seq<Change> {
    if c == [] then [] else (if c[0].line == n then [c[0]] else []) + ChangesOnLine(c[1..], n)
  }

  lemma {:induction false} ChangesOnLineCommute(s: seq<Issue>, n: int)
    ensures ChangesOnLine(Changes(s), n) == Changes(OnLine(s, n))
  {
    if s != [] {
      ChangesOnLineCommute(s[1..], n);
      assert s == [s[0]] + s[1..];
      GatherAppend([s[0]], s[1..], ChangeOne);
      assert Gather([s[0]], ChangeOne) == [ChangeOf(s[0])];
      var c := Changes(s);
      assert c == [ChangeOf(s[0])] + Changes(s[1..]);
      assert c[1..] == Changes(s[1..]);
      var o := if s[0].line == n then [s[0]] else [];
      GatherAppend(o, OnLine(s[1..], n), ChangeOne);
      assert Gather(o, ChangeOne) == if s[0].line == n then [ChangeOf(s[0])] else [] by {
        if s[0].line == n {
          assert o == [] + [s[0]];
        }
      }
    }
  }

  /** A step holds one change per issue of its file, ordered bottom of the
      file first, each issue's line, category and text kept; changes on the
      same line come in the order the issues were found. */
  lemma FileStepChanges(id: nat, file: string, issues: seq<Issue>)
    ensures var st := FileStep(id, file, issues);
      && st.issuesCount == |st.changes| == |issues|
      && (forall i, j :: 0 <= i < j < |st.changes| ==> st.changes[i].line >= st.changes[j].line)
      && multiset(st.changes) == multiset(Changes(issues))
      && (forall n :: ChangesOnLine(st.changes, n) == Changes(OnLine(issues, n)))
  {
    var sorted := SortByLineDesc(issues);
    var c := Changes(sorted);
    SortByLineDescCorrect(issues);
    ChangesAt(sorted);
    assert |sorted| == |multiset(sorted)| == |issues|;
    GatherPermutation(sorted, issues, ChangeOne);
    forall n ensures ChangesOnLine(c, n) == Changes(OnLine(issues, n)) {
      ChangesOnLineCommute(sorted, n);
    }
  }

  lemma ChangesPrefixStep(s: seq<Issue>, i: nat)
    requires i < |s|
    ensures Changes(s[..i + 1]) == Changes(s[..i]) + [ChangeOf(s[i])]
  {
    assert s[..i + 1][..i] == s[..i] && s[..i + 1][i] == s[i];
  }

  /** The build step's loop: one change per issue, in sorted order. */
  method CreateFileMigrationStep(id: nat, file: string, issues: seq<Issue>) returns (step: Step)
    ensures step == FileStep(id, file, issues)
  {
    var sorted := SortByLineDesc(issues);
    var changes: seq<Change> := [];
    for i := 0 to |sorted|
      invariant changes == Changes(sorted[..i])
    {
      ChangesPrefixStep(sorted, i);
      var change := Change(sorted[i].line, sorted[i].category, sorted[i].matchedText,
                           Replacement(sorted[i]), Confidence(sorted[i].category));
      changes := changes + [change];
    }
    assert sorted[..|sorted|] == sorted;
    step := Step(id, FileMigration, file, |issues|, changes);
  }

  // ---------------------------------------------------------------------
  // Grouping by file

  /** The files of the issues, each once, in the order first seen. */
  function FirstSeenFiles(issues: seq<Issue>): seq<string> {
    if issues == [] then []
    else
      var files := FirstSeenFiles(issues[..|issues| - 1]);
      if issues[|issues| - 1].file in files then files else files + [issues[|issues| - 1].file]
  }

  /** The issues of one file, in their order. */
  function IssuesOf(issues: seq<Issue>, file: string): seq<Issue> {
    if issues == [] then []
    else IssuesOf(issues[..|issues| - 1], file) + (if issues[|issues| - 1].file == file then [issues[|issues| - 1]] else [])
  }

  predicate Distinct(files: seq<string>) {
    forall k, l :: 0 <= k < l < |files| ==> files[k] != files[l]
  }

  /** The first-seen files are exactly the files of the issues. */
  lemma {:induction false} FirstSeenMembers(issues: seq<Issue>)
    ensures forall f :: f in FirstSeenFiles(issues) <==> exists i :: 0 <= i < |issues| && issues[i].file == f
  {
    if issues != [] {
      var front := issues[..|issues| - 1];
      FirstSeenMembers(front);
      var files := FirstSeenFiles(issues);
      var x := issues[|issues| - 1];
      assert x.file in files;
      assert forall g :: g in files <==> g in FirstSeenFiles(front) || g == x.file;
      forall f ensures f in files <==> exists i :: 0 <= i < |issues| && issues[i].file == f {
        if f == x.file {
          assert issues[|issues| - 1].file == f;
        }
        if exists i :: 0 <= i < |front| && front[i].file == f {
          var i :| 0 <= i < |front| && front[i].file == f;
          assert issues[i].file == f;
        }
        if exists i :: 0 <= i < |issues| && issues[i].file == f {
          var i :| 0 <= i < |issues| && issues[i].file == f;
          if i < |front| {
            assert front[i].file == f;
          }
        }
      }
    }
  }

  /** The first-seen files name each file once. */
  lemma {:induction false} FirstSeenDistinct(issues: seq<Issue>)
    ensures Distinct(FirstSeenFiles(issues))
  {
    if issues != [] {
      FirstSeenDistinct(issues[..|issues| - 1]);
    }
  }

  /** Each file's first issue comes before the first issue of every file
      after it. */
  predicate OrderedByFirstIssue(issues: seq<Issue>, files: seq<string>) {
    forall k, l, i :: 0 <= k < l < |files| && 0 <= i < |issues| && issues[i].file == files[l] ==>
      exists j :: 0 <= j < i && issues[j].file == files[k]
  }

  /** A file comes before another exactly when its first issue does. */
  lemma {:induction false} FirstSeenOrder(issues: seq<Issue>)
    ensures OrderedByFirstIssue(issues, FirstSeenFiles(issues))
  {
    if issues != [] {
      var front := issues[..|issues| - 1];
      FirstSeenOrder(front);
      FirstSeenMembers(front);
      var old_ := FirstSeenFiles(front);
      var files := FirstSeenFiles(issues);
      forall k, l, i | 0 <= k < l < |files| && 0 <= i < |issues| && issues[i].file == files[l]
        ensures exists j :: 0 <= j < i && issues[j].file == files[k]
      {
        assert files[k] == old_[k] && old_[k] in old_;
        var j: nat;
        if i < |front| {
          assert front[i].file == files[l] && front[i].file in old_;
          assert l < |old_| && files[l] == old_[l];
          j := OrderedAt(front, old_, k, l, i);
        } else {
          j :| 0 <= j < |front| && front[j].file == old_[k];
        }
        assert issues[j] == front[j];
      }
      assert OrderedByFirstIssue(issues, files);
    }
  }

  lemma OrderedAt(issues: seq<Issue>, files: seq<string>, k: nat, l: nat, i: nat) returns (j: nat)
    requires OrderedByFirstIssue(issues, files)
    requires k < l < |files| && i < |issues| && issues[i].file == files[l]
    ensures j < i && issues[j].file == files[k]
  {
    assert files[k] in files;
    j :| 0 <= j < i && issues[j].file == files[k];
  }

  /** Exactly the files of the issues, each once, ordered by the first issue
      in each. */
  lemma FirstSeenFilesCorrect(issues: seq<Issue>)
    ensures var files := FirstSeenFiles(issues);
      && Distinct(files)
      && (forall f :: f in files <==> exists i :: 0 <= i < |issues| && issues[i].file == f)
      && (forall k, l, i :: 0 <= k < l < |files| && 0 <= i < |issues| && issues[i].file == files[l] ==>
            exists j :: 0 <= j < i && issues[j].file == files[k])
  {
    FirstSeenDistinct(issues);
    FirstSeenMembers(issues);
    FirstSeenOrder(issues);
  }

  /** The steps for the given files, numbered from 1. */
  function StepsFor(files: seq<string>, issues: seq<Issue>): (r: seq<Step>)
    ensures |r| == |files|
  {
    if files == [] then []
    else StepsFor(files[..|files| - 1], issues) + [FileStep(|files|, files[|files| - 1], IssuesOf(issues, files[|files| - 1]))]
  }

  lemma {:induction false} StepsForAt(files: seq<string>, issues: seq<Issue>)
    ensures forall k :: 0 <= k < |files| ==> StepsFor(files, issues)[k] == FileStep(k + 1, files[k], IssuesOf(issues, files[k]))
  {
    if files != [] {
      var front := files[..|files| - 1];
      StepsForAt(front, issues);
      var f := files[|files| - 1];
      assert StepsFor(files, issues) == StepsFor(front, issues) + [FileStep(|files|, f, IssuesOf(issues, f))];
      assert forall k :: 0 <= k < |front| ==> files[k] == front[k];
    }
  }

  /** The steps of a plan: one per file, in the order the files were first
      seen. */
  function Steps(issues: seq<Issue>): seq<Step> {
    StepsFor(FirstSeenFiles(issues), issues)
  }

  // ---------------------------------------------------------------------
  // Counting over the steps

  function CountWhere(s: seq<Issue>, P: Issue -> bool): (n: nat)
    ensures n <= |s|
  {
    if s == [] then 0 else CountWhere(s[..|s| - 1], P) + (if P(s[|s| - 1]) then 1 else 0)
  }

  predicate AnyIssue(x: Issue) {
    true
  }

  predicate IsArchitectureCheck(x: Issue) {
    x.category == ArchitectureChecks
  }

  lemma {:induction false} CountAll(s: seq<Issue>)
    ensures CountWhere(s, AnyIssue) == |s|
  {
    if s != [] {
      CountAll(s[..|s| - 1]);
    }
  }

  lemma {:induction false} CountAsGather(s: seq<Issue>, P: Issue -> bool, f: Issue -> seq<Issue>)
    requires forall x :: f(x) == (if P(x) then [x] else [])
    ensures CountWhere(s, P) == |Gather(s, f)|
  {
    if s != [] {
      CountAsGather(s[..|s| - 1], P, f);
    }
  }

  /** A count does not depend on the order of what is counted. */
  lemma CountWherePermutation(a: seq<Issue>, b: seq<Issue>, P: Issue -> bool)
    requires multiset(a) == multiset(b)
    ensures CountWhere(a, P) == CountWhere(b, P)
  {
    var f := (x: Issue) => if P(x) then [x] else [];
    CountAsGather(a, P, f);
    CountAsGather(b, P, f);
    GatherPermutation(a, b, f);
    assert |Gather(a, f)| == |multiset(Gather(a, f))| == |multiset(Gather(b, f))| == |Gather(b, f)|;
  }

  /** How many changes are of high confidence. */
  function CountHighChanges(c: seq<Change>): (n: nat)
    ensures n <= |c|
  {
    if c == [] then 0 else CountHighChanges(c[..|c| - 1]) + (if c[|c| - 1].confidence == High then 1 else 0)
  }

  lemma {:induction false} HighChangesAreChecks(s: seq<Issue>)
    ensures CountHighChanges(Changes(s)) == CountWhere(s, IsArchitectureCheck)
  {
    if s != [] {
      HighChangesAreChecks(s[..|s| - 1]);
      var x := s[|s| - 1];
      assert Changes(s) == Changes(s[..|s| - 1]) + [ChangeOf(x)];
      assert (Changes(s[..|s| - 1]) + [ChangeOf(x)])[..|Changes(s)| - 1] == Changes(s[..|s| - 1]);
      ConfidenceByCategory(x.category);
    }
  }

  /** The issues counted over all steps. */
  function IssueTotal(steps: seq<Step>): nat {
    if steps == [] then 0 else IssueTotal(steps[..|steps| - 1]) + steps[|steps| - 1].issuesCount
  }

  /** The high-confidence changes over all steps. */
  function HighChanges(steps: seq<Step>): nat {
    if steps == [] then 0 else HighChanges(steps[..|steps| - 1]) + CountHighChanges(steps[|steps| - 1].changes)
  }

  /** The count over each file's issues, summed over the files. */
  function GroupSum(files: seq<string>, issues: seq<Issue>, P: Issue -> bool): nat {
    if files == [] then 0 else GroupSum(files[..|files| - 1], issues, P) + CountWhere(IssuesOf(issues, files[|files| - 1]), P)
  }

  function Occurrences(files: seq<string>, f: string): nat {
    if files == [] then 0 else Occurrences(files[..|files| - 1], f) + (if files[|files| - 1] == f then 1 else 0)
  }

  lemma {:induction false} OccurrencesDistinct(files: seq<string>, f: string)
    requires Distinct(files)
    ensures Occurrences(files, f) == if f in files then 1 else 0
  {
    if files != [] {
      var front := files[..|files| - 1];
      OccurrencesDistinct(front, f);
      if files[|files| - 1] == f {
        assert f !in front;
      }
      assert f in files <==> f in front || files[|files| - 1] == f;
    }
  }

  lemma IssuesOfSnoc(front: seq<Issue>, x: Issue, f: string)
    ensures IssuesOf(front + [x], f) == IssuesOf(front, f) + (if x.file == f then [x] else [])
  {
    assert (front + [x])[..|front|] == front;
  }

  lemma CountWhereSnoc(g: seq<Issue>, x: Issue, P: Issue -> bool)
    ensures CountWhere(g + [x], P) == CountWhere(g, P) + (if P(x) then 1 else 0)
  {
    assert (g + [x])[..|g|] == g;
  }

  lemma {:induction false} GroupSumStep(files: seq<string>, front: seq<Issue>, x: Issue, P: Issue -> bool)
    ensures GroupSum(files, front + [x], P) == GroupSum(files, front, P) + (if P(x) then Occurrences(files, x.file) else 0)
  {
    if files != [] {
      var ff := files[..|files| - 1];
      var f := files[|files| - 1];
      GroupSumStep(ff, front, x, P);
      IssuesOfSnoc(front, x, f);
      var g := IssuesOf(front, f);
      var c := CountWhere(IssuesOf(front + [x], f), P);
      if x.file == f {
        CountWhereSnoc(g, x, P);
        assert c == CountWhere(g, P) + (if P(x) then 1 else 0);
      } else {
        assert g + [] == g;
        assert c == CountWhere(g, P);
      }
      assert GroupSum(files, front + [x], P) == GroupSum(ff, front + [x], P) + c;
      assert GroupSum(files, front, P) == GroupSum(ff, front, P) + CountWhere(g, P);
      assert Occurrences(files, x.file) == Occurrences(ff, x.file) + (if f == x.file then 1 else 0);
    }
  }

  /** A file not among the first-seen files has no issues. */
  lemma {:induction false} IssuesOfUnseen(issues: seq<Issue>, f: string)
    requires f !in FirstSeenFiles(issues)
    ensures IssuesOf(issues, f) == []
  {
    if issues != [] {
      var front := issues[..|issues| - 1];
      assert forall g :: g in FirstSeenFiles(front) ==> g in FirstSeenFiles(issues);
      IssuesOfUnseen(front, f);
      assert issues[|issues| - 1].file in FirstSeenFiles(issues);
    }
  }

  /** Each issue falls in exactly one file's group, so summing over the
      groups counts every issue once. */
  lemma {:induction false} GroupSumAll(files: seq<string>, issues: seq<Issue>, P: Issue -> bool)
    requires Distinct(files)
    requires forall i :: 0 <= i < |issues| ==> issues[i].file in files
    ensures GroupSum(files, issues, P) == CountWhere(issues, P)
  {
    if issues == [] {
      GroupSumEmpty(files, P);
    } else {
      var front := issues[..|issues| - 1];
      var x := issues[|issues| - 1];
      GroupSumAll(files, front, P);
      assert issues == front + [x];
      GroupSumStep(files, front, x, P);
      OccurrencesDistinct(files, x.file);
    }
  }

  lemma {:induction false} GroupSumEmpty(files: seq<string>, P: Issue -> bool)
    ensures GroupSum(files, [], P) == 0
  {
    if files != [] {
      GroupSumEmpty(files[..|files| - 1], P);
    }
  }

  lemma {:induction false} StepsForTotals(files: seq<string>, issues: seq<Issue>)
    ensures IssueTotal(StepsFor(files, issues)) == GroupSum(files, issues, AnyIssue)
    ensures HighChanges(StepsFor(files, issues)) == GroupSum(files, issues, IsArchitectureCheck)
  {
    if files != [] {
      var front := files[..|files| - 1];
      var f := files[|files| - 1];
      StepsForTotals(front, issues);
      var g := IssuesOf(issues, f);
      var st := FileStep(|files|, f, g);
      var steps := StepsFor(files, issues);
      assert steps == StepsFor(front, issues) + [st];
      assert steps[..|steps| - 1] == StepsFor(front, issues);
      CountAll(g);
      SortByLineDescCorrect(g);
      HighChangesAreChecks(SortByLineDesc(g));
      CountWherePermutation(SortByLineDesc(g), g, IsArchitectureCheck);
    }
  }

  /** Every issue's file is among the first-seen files. */
  lemma FirstSeenCovers(issues: seq<Issue>)
    ensures forall i :: 0 <= i < |issues| ==> issues[i].file in FirstSeenFiles(issues)
  {
    FirstSeenMembers(issues);
    forall i | 0 <= i < |issues| ensures issues[i].file in FirstSeenFiles(issues) {
    }
  }

  /** Step `k` of a plan is numbered `k + 1` and migrates the `k`-th file
      first seen, with all of that file's issues. */
  lemma PlanStepsAt(issues: seq<Issue>)
    ensures var steps := Steps(issues); var files := FirstSeenFiles(issues);
      && |steps| == |files|
      && (forall k :: 0 <= k < |steps| ==>
            (steps[k].id == k + 1 && steps[k].file == files[k] && steps[k] == FileStep(k + 1, files[k], IssuesOf(issues, files[k]))))
  {
    StepsForAt(FirstSeenFiles(issues), issues);
  }

  /** Together the steps of a plan hold every issue once, and their
      high-confidence changes are exactly the architecture checks. */
  lemma PlanStepTotals(issues: seq<Issue>)
    ensures IssueTotal(Steps(issues)) == |issues|
    ensures HighChanges(Steps(issues)) == CountWhere(issues, IsArchitectureCheck)
  {
    var files := FirstSeenFiles(issues);
    FirstSeenDistinct(issues);
    FirstSeenCovers(issues);
    StepsForTotals(files, issues);
    GroupSumAll(files, issues, AnyIssue);
    GroupSumAll(files, issues, IsArchitectureCheck);
    CountAll(issues);
  }

  // ---------------------------------------------------------------------
  // Effort

  datatype Effort = Minimal | LowEffort | MediumEffort | HighEffort

  /** `_estimate_effort`'s decision table, taken in order. The source
      compares with `total * 0.7` in floating point; for the totals up to 10
      that reach the comparison this agrees with `10 * high >= 7 * total`. */
  function EstimateEffort(totalIssues: nat, highConfidence: nat): Effort {
    if totalIssues == 0 then Minimal
    else if totalIssues <= 10 && 10 * highConfidence >= 7 * totalIssues then LowEffort
    else if totalIssues <= 50 then MediumEffort
    else HighEffort
  }

  /** The bands at their edges: seven of ten changes sure is still low
      effort, six is medium, and past ten issues or fifty issues the band
      moves up whatever the confidence. */
  lemma EffortBoundaries()
    ensures EstimateEffort(10, 7) == LowEffort && EstimateEffort(10, 6) == MediumEffort
    ensures EstimateEffort(11, 11) == MediumEffort && EstimateEffort(50, 0) == MediumEffort
    ensures EstimateEffort(51, 51) == HighEffort && EstimateEffort(1, 1) == LowEffort
  {
  }

  /** The bands in increasing order of work. */
  function EffortRank(e: Effort): nat {
    match e
    case Minimal => 0
    case LowEffort => 1
    case MediumEffort => 2
    case HighEffort => 3
  }

  /** Each band, stated by the counts that select it. */
  lemma EffortBands(totalIssues: nat, highConfidence: nat)
    ensures EstimateEffort(totalIssues, highConfidence) == Minimal <==> totalIssues == 0
    ensures EstimateEffort(totalIssues, highConfidence) == LowEffort <==>
      1 <= totalIssues <= 10 && 10 * highConfidence >= 7 * totalIssues
    ensures EstimateEffort(totalIssues, highConfidence) == HighEffort <==> totalIssues > 50
  {
  }

  /** More automatic changes never make a plan look like more work. */
  lemma EffortFallsWithConfidence(totalIssues: nat, fewer: nat, more: nat)
    requires fewer <= more
    ensures EffortRank(EstimateEffort(totalIssues, more)) <= EffortRank(EstimateEffort(totalIssues, fewer))
  {
  }

  /** With the same number of automatic changes, more issues never make a
      plan look like less work. */
  lemma EffortGrowsWithIssues(fewer: nat, more: nat, highConfidence: nat)
    requires fewer <= more
    ensures EffortRank(EstimateEffort(fewer, highConfidence)) <= EffortRank(EstimateEffort(more, highConfidence))
  {
  }

  // ---------------------------------------------------------------------
  // Build system changes

  const CMakeChanges: seq<string> := [
    "Add ARM64 target support", "Set CMAKE_SYSTEM_PROCESSOR for cross-compilation",
    "Add ARM-specific compiler flags", "Update architecture detection logic"
  ]

  const MakeChanges: seq<string> := [
    "Add ARM64 target to Makefile", "Set CC and CXX for cross-compilation",
    "Update CFLAGS/CXXFLAGS for ARM", "Add architecture-specific build rules"
  ]

  const NpmChanges: seq<string> := [
    "Add ARM64 to supported architectures", "Update build scripts for cross-compilation",
    "Check native dependencies for ARM support"
  ]

  /** The edits suggested for a kind of build system; none for the others. */
  function SystemChanges(system: string): seq<string> {
    if system == "cmake" then CMakeChanges
    else if system == "make" then MakeChanges
    else if system == "npm" then NpmChanges
    else []
  }

  predicate Adaptable(system: string) {
    system == "cmake" || system == "make" || system == "npm"
  }

  datatype BuildChange = BuildChange(file: string, system: string, changes: seq<string>)

  /** `_plan_build_system_changes`: a change for each build file whose
      system has suggestions, in the order found. */
  function BuildChanges(buildSystems: seq<BuildSystem>): seq<BuildChange> {
    if buildSystems == [] then []
    else
      var b := buildSystems[|buildSystems| - 1];
      BuildChanges(buildSystems[..|buildSystems| - 1])
        + (if SystemChanges(b.system) != [] then [BuildChange(b.file, b.system, SystemChanges(b.system))] else [])
  }

  method PlanBuildSystemChanges(buildSystems: seq<BuildSystem>) returns (changes: seq<BuildChange>)
    ensures changes == BuildChanges(buildSystems)
  {
    changes := [];
    for i := 0 to |buildSystems|
      invariant changes == BuildChanges(buildSystems[..i])
    {
      assert buildSystems[..i + 1][..i] == buildSystems[..i];
      var change := BuildChange(buildSystems[i].file, buildSystems[i].system, []);
      if buildSystems[i].system == "cmake" {
        change := change.(changes := CMakeChanges);
      } else if buildSystems[i].system == "make" {
        change := change.(changes := MakeChanges);
      } else if buildSystems[i].system == "npm" {
        change := change.(changes := NpmChanges);
      }
      if change.changes != [] {
        changes := changes + [change];
      }
    }
    assert buildSystems[..|buildSystems|] == buildSystems;
  }

  /** Exactly the CMake, Make and npm build files get a change, each with
      the suggestions for its system. */
  lemma {:induction false} BuildChangesKept(buildSystems: seq<BuildSystem>)
    ensures forall c :: c in BuildChanges(buildSystems) ==>
      Adaptable(c.system) && c.changes == SystemChanges(c.system)
      && exists b :: b in buildSystems && b.file == c.file && b.system == c.system
    ensures forall b :: b in buildSystems && Adaptable(b.system) ==>
      BuildChange(b.file, b.system, SystemChanges(b.system)) in BuildChanges(buildSystems)
  {
    if buildSystems != [] {
      var front := buildSystems[..|buildSystems| - 1];
      BuildChangesKept(front);
      assert buildSystems == front + [buildSystems[|buildSystems| - 1]];
      assert SystemChanges("gradle") == [];
    }
  }

  // ---------------------------------------------------------------------
  // Dependency updates

  /** Packages known to need an ARM-specific build. */
  const WheelCandidates: seq<string> := ["tensorflow", "pytorch", "opencv"]

  const VerifyArmSupport: string := "verify_arm_support"
  const CheckArmWheels: string := "check_arm_wheels"
  const ArmBuildNote: string := "May require ARM-specific build"

  datatype DependencyUpdate = DependencyUpdate(name: string, currentVersion: string, kind: string, action: string, notes: seq<string>)

  function UpdateFor(d: Dependency): DependencyUpdate {
    if d.name in WheelCandidates then DependencyUpdate(d.name, d.version, d.kind, CheckArmWheels, [ArmBuildNote])
    else DependencyUpdate(d.name, d.version, d.kind, VerifyArmSupport, [])
  }

  /** `_plan_dependency_updates`: one update per dependency, in order. */
  function DependencyUpdates(deps: seq<Dependency>): (r: seq<DependencyUpdate>)
    ensures |r| == |deps|
  {
    if deps == [] then [] else DependencyUpdates(deps[..|deps| - 1]) + [UpdateFor(deps[|deps| - 1])]
  }

  method PlanDependencyUpdates(deps: seq<Dependency>) returns (updates: seq<DependencyUpdate>)
    ensures updates == DependencyUpdates(deps)
  {
    updates := [];
    for i := 0 to |deps|
      invariant updates == DependencyUpdates(deps[..i])
    {
      assert deps[..i + 1][..i] == deps[..i] && deps[..i + 1][i] == deps[i];
      var update := DependencyUpdate(deps[i].name, deps[i].version, deps[i].kind, VerifyArmSupport, []);
      if deps[i].name in WheelCandidates {
        update := update.(notes := update.notes + [ArmBuildNote], action := CheckArmWheels);
      }
      assert update == UpdateFor(deps[i]);
      assert DependencyUpdates(deps[..i + 1]) == DependencyUpdates(deps[..i]) + [UpdateFor(deps[i])];
      updates := updates + [update];
    }
    assert deps[..|deps|] == deps;
  }

  /** Each dependency gets one update carrying its name, version and kind;
      the known packages are to be checked for ARM wheels with a note, every
      other one only verified. */
  lemma {:induction false} DependencyUpdatesShape(deps: seq<Dependency>)
    ensures var r := DependencyUpdates(deps);
      forall i :: 0 <= i < |r| ==>
        && r[i].name == deps[i].name && r[i].currentVersion == deps[i].version && r[i].kind == deps[i].kind
        && (r[i].action == CheckArmWheels <==> deps[i].name in WheelCandidates)
        && (r[i].action == VerifyArmSupport <==> deps[i].name !in WheelCandidates)
        && (r[i].notes == [] <==> deps[i].name !in WheelCandidates)
  {
    if deps != [] {
      DependencyUpdatesShape(deps[..|deps| - 1]);
    }
  }

  // ---------------------------------------------------------------------
  // Testing strategy

  /** `_create_testing_strategy`: all four kinds of test are required; unit
      tests run on the target and on x86-64, and performance is compared
      against x86-64. */
  datatype TestingStrategy = TestingStrategy(
    unitPlatforms: seq<string>,
    unitFocusAreas: seq<string>,
    integrationEnvironments: seq<string>,
    performanceMetrics: seq<string>,
    comparisonBaseline: string,
    compatibilityDataFormats: seq<string>)

  function TestingStrategyFor(targetArch: string): TestingStrategy {
    TestingStrategy(
      [targetArch, "x86_64"],
      ["math operations", "memory access", "SIMD code"],
      ["native_arm", "emulated_arm", "cross_platform"],
      ["execution_time", "memory_usage", "power_consumption"],
      "x86_64",
      ["endianness", "struct_packing", "floating_point"])
  }

  /** The strategy runs unit tests on the target first and compares against
      the x86-64 original. */
  lemma TestingStrategyComparesTarget(targetArch: string)
    ensures var t := TestingStrategyFor(targetArch);
      t.unitPlatforms[0] == targetArch && t.comparisonBaseline in t.unitPlatforms && |t.unitPlatforms| == 2
  {
  }

  // ---------------------------------------------------------------------
  // The plan

  datatype Plan = Plan(
    targetArchitecture: string,
    totalIssues: nat,
    steps: seq<Step>,
    buildSystemChanges: seq<BuildChange>,
    dependencyUpdates: seq<DependencyUpdate>,
    testingStrategy: TestingStrategy,
    estimatedEffort: Effort)

  /** The grouping loop of `create_plan`: the files in first-seen order (the
      key order of the dictionary) and each file's issues. */
  method GroupIssuesByFile(issues: seq<Issue>) returns (order: seq<string>, byFile: map<string, seq<Issue>>)
    ensures order == FirstSeenFiles(issues)
    ensures forall f :: f in byFile <==> f in order
    ensures forall f :: f in byFile ==> byFile[f] == IssuesOf(issues, f)
  {
    order, byFile := [], map[];
    for i := 0 to |issues|
      invariant order == FirstSeenFiles(issues[..i])
      invariant forall f :: f in byFile <==> f in order
      invariant forall f :: f in byFile ==> byFile[f] == IssuesOf(issues[..i], f)
    {
      assert issues[..i + 1][..i] == issues[..i] && issues[..i + 1][i] == issues[i];
      assert forall f :: IssuesOf(issues[..i + 1], f) == IssuesOf(issues[..i], f) + (if issues[i].file == f then [issues[i]] else []);
      var filePath := issues[i].file;
      if filePath !in byFile {
        IssuesOfUnseen(issues[..i], filePath);
        byFile := byFile[filePath := []];
        order := order + [filePath];
      }
      byFile := byFile[filePath := byFile[filePath] + [issues[i]]];
    }
    assert issues[..|issues|] == issues;
  }

  /** `create_plan`: the steps, numbered from 1 in first-seen file order,
      the build and dependency follow-ups, the testing strategy and the
      effort, which depends only on how many issues there are and how many
      of them are architecture checks. */
  method CreatePlan(scan: ScanReport, targetArch: string) returns (plan: Plan)
    ensures plan.targetArchitecture == targetArch && plan.totalIssues == |scan.issues|
    ensures plan.steps == Steps(scan.issues)
    ensures plan.buildSystemChanges == BuildChanges(scan.buildSystems)
    ensures plan.dependencyUpdates == DependencyUpdates(scan.dependencies)
    ensures plan.testingStrategy == TestingStrategyFor(targetArch)
    ensures plan.estimatedEffort == EstimateEffort(|scan.issues|, CountWhere(scan.issues, IsArchitectureCheck))
  {
    var order, byFile := GroupIssuesByFile(scan.issues);
    var steps: seq<Step> := [];
    var stepId := 1;
    for k := 0 to |order|
      invariant stepId == k + 1
      invariant steps == StepsFor(order[..k], scan.issues)
    {
      assert order[..k + 1][..k] == order[..k];
      var step := CreateFileMigrationStep(stepId, order[k], byFile[order[k]]);
      steps := steps + [step];
      stepId := stepId + 1;
    }
    assert order[..|order|] == order;
    var buildChanges := PlanBuildSystemChanges(scan.buildSystems);
    var dependencyUpdates := PlanDependencyUpdates(scan.dependencies);
    PlanStepTotals(scan.issues);
    var effort := EstimateEffort(|scan.issues|, HighChanges(steps));
    plan := Plan(targetArch, |scan.issues|, steps, buildChanges, dependencyUpdates, TestingStrategyFor(targetArch), effort);
  }
}
