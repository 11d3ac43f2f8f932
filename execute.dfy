/** The migration executor of sdk/migrator.py (`Migrator.execute` and the
    helpers it calls): a backup of the project unless the run is a dry run,
    then every step of a plan in order (a dry run only counts what it would
    change; a real run rewrites the high-confidence lines of each file),
    then one acknowledgement per build-system change and per dependency
    update. */
module Execution {
  import opened Text
  import opened Report
  import opened MigrationPlan

  // ---------------------------------------------------------------------
  // Applying the changes of one file

  /** A change a real run makes without asking: a high-confidence one. */
  predicate Automatic(c: Change) {
    c.confidence == High
  }

  /** An automatic change whose 1-based line exists in a file of `n` lines;
      any other automatic change is passed over without a word. */
  predicate Lands(c: Change, n: int) {
    Automatic(c) && 1 <= c.line <= n
  }

  /** The lines of a file after one change: every occurrence of the
      original text on the change's line is replaced. */
  function ApplyOne(lines: seq<string>, c: Change): (r: seq<string>)
    ensures |r| == |lines|
  {
    if Lands(c, |lines|) then lines[c.line - 1 := ReplaceAll(lines[c.line - 1], c.original, c.replacement)]
    else lines
  }

  /** The lines of a file after its changes, in the order of the step. */
  function ApplyAll(lines: seq<string>, cs: seq<Change>): (r: seq<string>)
    ensures |r| == |lines|
  {
    if cs == [] then lines else ApplyOne(ApplyAll(lines, cs[..|cs| - 1]), cs[|cs| - 1])
  }

  /** How many of the changes land in a file of `n` lines. */
  function LandedCount(n: int, cs: seq<Change>): (k: nat)
    ensures k <= |cs|
  {
    if cs == [] then 0 else LandedCount(n, cs[..|cs| - 1]) + (if Lands(cs[|cs| - 1], n) then 1 else 0)
  }

  /** The warning for a change a real run leaves to a person. */
  function SkipWarning(line: int): string {
    "Low confidence change skipped at line " + IntToString(line)
  }

  /** One warning per change that is not automatic, in order. */
  function SkipWarnings(cs: seq<Change>): (w: seq<string>)
    ensures |w| <= |cs|
  {
    if cs == [] then []
    else SkipWarnings(cs[..|cs| - 1]) + (if Automatic(cs[|cs| - 1]) then [] else [SkipWarning(cs[|cs| - 1].line)])
  }

  /** The changes that land on line `n` of a file of `len` lines. */
  function Targeting(cs: seq<Change>, n: int, len: int): seq<Change> {
    if cs == [] then []
    else Targeting(cs[..|cs| - 1], n, len) + (if Lands(cs[|cs| - 1], len) && cs[|cs| - 1].line == n then [cs[|cs| - 1]] else [])
  }

  /** One line put through a series of replacements, first to last. */
  function ReplaceChain(s: string, cs: seq<Change>): string {
    if cs == [] then s else ReplaceAll(ReplaceChain(s, cs[..|cs| - 1]), cs[|cs| - 1].original, cs[|cs| - 1].replacement)
  }

  /** Line by line, the rewritten file is each original line put through
      exactly the changes that land on it, in step order; a line no change
      lands on is kept as it was. */
  lemma {:induction false} ApplyAllPerLine(lines: seq<string>, cs: seq<Change>)
    ensures forall i :: 0 <= i < |lines| ==>
      ApplyAll(lines, cs)[i] == ReplaceChain(lines[i], Targeting(cs, i + 1, |lines|))
  {
    if cs != [] {
      ApplyAllPerLine(lines, cs[..|cs| - 1]);
      var c := cs[|cs| - 1];
      forall i | 0 <= i < |lines|
        ensures ApplyAll(lines, cs)[i] == ReplaceChain(lines[i], Targeting(cs, i + 1, |lines|))
      {
        var t := Targeting(cs[..|cs| - 1], i + 1, |lines|);
        if Lands(c, |lines|) && c.line == i + 1 {
          assert Targeting(cs, i + 1, |lines|) == t + [c];
          assert (t + [c])[..|t|] == t;
        } else {
          assert Targeting(cs, i + 1, |lines|) == t;
        }
      }
    }
  }

  /** A line that no change lands on is written back unchanged. */
  lemma {:induction false} UntouchedLine(lines: seq<string>, cs: seq<Change>, i: nat)
    requires i < |lines|
    requires forall k :: 0 <= k < |cs| ==> !(Lands(cs[k], |lines|) && cs[k].line == i + 1)
    ensures ApplyAll(lines, cs)[i] == lines[i]
  {
    if cs != [] {
      UntouchedLine(lines, cs[..|cs| - 1], i);
    }
  }

  /** A real run never applies more than a dry run reports, and applies
      exactly as many exactly when every automatic change names a line the
      file has. */
  lemma {:induction false} LandedAtMostHigh(n: int, cs: seq<Change>)
    ensures LandedCount(n, cs) <= CountHighChanges(cs)
    ensures LandedCount(n, cs) == CountHighChanges(cs) <==>
      forall k :: 0 <= k < |cs| && Automatic(cs[k]) ==> 1 <= cs[k].line <= n
  {
    if cs != [] {
      var front := cs[..|cs| - 1];
      LandedAtMostHigh(n, front);
      assert forall k :: 0 <= k < |front| ==> front[k] == cs[k];
    }
  }

  /** Every change is either counted as high confidence or warned about. */
  lemma {:induction false} WarningsAndHighCover(cs: seq<Change>)
    ensures |SkipWarnings(cs)| + CountHighChanges(cs) == |cs|
  {
    if cs != [] {
      WarningsAndHighCover(cs[..|cs| - 1]);
    }
  }

  /** The loop of `_execute_step` in a real run, on the file's lines held in
      an array: automatic changes on an existing line rewrite that line in
      place and are counted, other automatic changes are passed over, and
      every other change adds a warning. */
  method ApplyChanges(a: array<string>, cs: seq<Change>) returns (applied: nat, warnings: seq<string>)
    modifies a
    ensures a[..] == ApplyAll(old(a[..]), cs)
    ensures applied == LandedCount(a.Length, cs)
    ensures warnings == SkipWarnings(cs)
  {
    applied, warnings := 0, [];
    for k := 0 to |cs|
      invariant a[..] == ApplyAll(old(a[..]), cs[..k])
      invariant applied == LandedCount(a.Length, cs[..k])
      invariant warnings == SkipWarnings(cs[..k])
    {
      var c := cs[k];
      assert cs[..k + 1][..k] == cs[..k] && cs[..k + 1][k] == c;
      if c.confidence == High {
        var lineIdx := c.line - 1;
        if 0 <= lineIdx < a.Length {
          a[lineIdx] := ReplaceAll(a[lineIdx], c.original, c.replacement);
          applied := applied + 1;
        }
      } else {
        warnings := warnings + [SkipWarning(c.line)];
      }
    }
    assert cs[..|cs|] == cs;
  }

  // ---------------------------------------------------------------------
  // One step

  /** What reading a project file gives: its lines, each with its line
      ending, or the text of the error that stopped the read (the path is a
      directory, the bytes are not UTF-8). */
  datatype FileContent = Lines(lines: seq<string>) | ReadError(reason: string)

  const FileNotFound: string := "File not found"

  datatype StepResult = StepResult(
    stepId: nat,
    file: string,
    success: bool,
    changesApplied: nat,
    warnings: seq<string>,
    error: Option<string>)

  /** `_execute_step`: a step that is not a file migration succeeds doing
      nothing; a missing file fails with "File not found"; a dry run counts
      the high-confidence changes; a real run reads the file (failing with
      the read error), rewrites it and reports what it applied and what it
      skipped. */
  function StepOutcome(files: map<string, FileContent>, step: Step, dryRun: bool): StepResult {
    var base := StepResult(step.id, step.file, true, 0, [], None);
    if step.kind != FileMigration then base
    else if step.file !in files then base.(success := false, error := Some(FileNotFound))
    else if dryRun then base.(changesApplied := CountHighChanges(step.changes))
    else match files[step.file]
      case ReadError(reason) => base.(success := false, error := Some(reason))
      case Lines(ls) => base.(changesApplied := LandedCount(|ls|, step.changes), warnings := SkipWarnings(step.changes))
  }

  /** The lines a step writes back, if it writes at all: only a real run of
      a file migration whose file could be read. */
  function Rewrite(files: map<string, FileContent>, step: Step, dryRun: bool): Option<seq<string>> {
    if step.kind == FileMigration && step.file in files && !dryRun && files[step.file].Lines? then
      Some(ApplyAll(files[step.file].lines, step.changes))
    else None
  }

  /** The project's files after a step. */
  function FilesAfter(files: map<string, FileContent>, step: Step, dryRun: bool): map<string, FileContent> {
    match Rewrite(files, step, dryRun)
    case Some(ls) => files[step.file := Lines(ls)]
    case None => files
  }

  /** What happens to the project, in order. */
  datatype Event = BackedUp(path: string, copy: map<string, FileContent>) | Wrote(file: string, lines: seq<string>)

  function WritesOf(files: map<string, FileContent>, step: Step, dryRun: bool): seq<Event> {
    match Rewrite(files, step, dryRun)
    case Some(ls) => [Wrote(step.file, ls)]
    case None => []
  }

  /** A step succeeds exactly when it is not a file migration, or its file
      exists and, in a real run, could be read; a failure always carries an
      error, a success never does; only a real run warns. */
  lemma StepOutcomeCases(files: map<string, FileContent>, step: Step, dryRun: bool)
    ensures var r := StepOutcome(files, step, dryRun);
      && r.stepId == step.id && r.file == step.file
      && (r.success <==> step.kind != FileMigration || (step.file in files && (dryRun || files[step.file].Lines?)))
      && (r.success <==> r.error.None?)
      && (step.kind == FileMigration && step.file !in files ==> r.error == Some(FileNotFound))
      && (dryRun ==> r.warnings == [])
      && (!r.success ==> r.changesApplied == 0)
  {
  }

  /** A step touches at most its own file, and never adds or removes one. */
  lemma FilesAfterKeepsOthers(files: map<string, FileContent>, step: Step, dryRun: bool)
    ensures FilesAfter(files, step, dryRun).Keys == files.Keys
    ensures forall f :: f in files && f != step.file ==> FilesAfter(files, step, dryRun)[f] == files[f]
    ensures dryRun ==> FilesAfter(files, step, dryRun) == files && WritesOf(files, step, dryRun) == []
  {
  }

  // ---------------------------------------------------------------------
  // All the steps

  /** The step results, the files at the end, and the writes, in order. */
  datatype Run = Run(results: seq<StepResult>, files: map<string, FileContent>, writes: seq<Event>)

  /** The step loop of `execute`: each step sees the files as the steps
      before it left them. */
  function RunSteps(files: map<string, FileContent>, steps: seq<Step>, dryRun: bool): (r: Run)
    ensures |r.results| == |steps|
  {
    if steps == [] then Run([], files, [])
    else
      var before := RunSteps(files, steps[..|steps| - 1], dryRun);
      var s := steps[|steps| - 1];
      Run(before.results + [StepOutcome(before.files, s, dryRun)],
          FilesAfter(before.files, s, dryRun),
          before.writes + WritesOf(before.files, s, dryRun))
  }

  /** One more step of the run. */
  lemma RunStepsSnoc(files: map<string, FileContent>, steps: seq<Step>, k: nat, dryRun: bool)
    requires k < |steps|
    ensures var before := RunSteps(files, steps[..k], dryRun);
      RunSteps(files, steps[..k + 1], dryRun)
        == Run(before.results + [StepOutcome(before.files, steps[k], dryRun)],
               FilesAfter(before.files, steps[k], dryRun),
               before.writes + WritesOf(before.files, steps[k], dryRun))
  {
    assert steps[..k + 1][..k] == steps[..k];
  }

  /** Result `k` belongs to step `k`. */
  lemma {:induction false} RunNamesSteps(files: map<string, FileContent>, steps: seq<Step>, dryRun: bool)
    ensures var r := RunSteps(files, steps, dryRun);
      forall k :: 0 <= k < |steps| ==> r.results[k].stepId == steps[k].id && r.results[k].file == steps[k].file
  {
    if steps != [] {
      var front := steps[..|steps| - 1];
      RunNamesSteps(files, front, dryRun);
      var before := RunSteps(files, front, dryRun);
      assert RunSteps(files, steps, dryRun).results == before.results + [StepOutcome(before.files, steps[|steps| - 1], dryRun)];
    }
  }

  /** A dry run changes no file and writes nothing. */
  lemma {:induction false} DryRunLeavesFiles(files: map<string, FileContent>, steps: seq<Step>)
    ensures RunSteps(files, steps, true).files == files && RunSteps(files, steps, true).writes == []
  {
    if steps != [] {
      DryRunLeavesFiles(files, steps[..|steps| - 1]);
    }
  }

  /** Each step writes its file at most once. */
  lemma {:induction false} RunWritesAtMost(files: map<string, FileContent>, steps: seq<Step>, dryRun: bool)
    ensures |RunSteps(files, steps, dryRun).writes| <= |steps|
  {
    if steps != [] {
      RunWritesAtMost(files, steps[..|steps| - 1], dryRun);
    }
  }

  /** Result `k` belongs to step `k`; the run keeps the set of files; a dry
      run changes no file and writes nothing. */
  lemma RunShape(files: map<string, FileContent>, steps: seq<Step>, dryRun: bool)
    ensures var r := RunSteps(files, steps, dryRun);
      && (forall k :: 0 <= k < |steps| ==> r.results[k].stepId == steps[k].id && r.results[k].file == steps[k].file)
      && r.files.Keys == files.Keys
      && |r.writes| <= |steps|
      && (dryRun ==> r.files == files && r.writes == [])
  {
    RunNamesSteps(files, steps, dryRun);
    RunUntouched(files, steps, dryRun);
    RunWritesAtMost(files, steps, dryRun);
    if dryRun {
      DryRunLeavesFiles(files, steps);
    }
  }

  /** In each step, a real run applies at most what a dry run of the same
      plan reports. */
  lemma {:induction false} ApplyAtMostDryRun(files: map<string, FileContent>, steps: seq<Step>)
    ensures forall k :: 0 <= k < |steps| ==>
      RunSteps(files, steps, false).results[k].changesApplied <= RunSteps(files, steps, true).results[k].changesApplied
  {
    if steps != [] {
      var front := steps[..|steps| - 1];
      var s := steps[|steps| - 1];
      ApplyAtMostDryRun(files, front);
      RunShape(files, front, false);
      RunShape(files, front, true);
      var applied := RunSteps(files, front, false);
      if s.kind == FileMigration && s.file in files && applied.files[s.file].Lines? {
        LandedAtMostHigh(|applied.files[s.file].lines|, s.changes);
      }
    }
  }

  /** No two steps name the same file, as in every plan `create_plan` makes. */
  predicate DistinctFiles(steps: seq<Step>) {
    forall k, l :: 0 <= k < l < |steps| ==> steps[k].file != steps[l].file
  }

  /** No step names file `f`. */
  predicate NotNamed(steps: seq<Step>, f: string) {
    forall k :: 0 <= k < |steps| ==> steps[k].file != f
  }

  /** A step's outcome depends only on which files exist and on its own
      file's content. */
  lemma SameFileSameOutcome(a: map<string, FileContent>, b: map<string, FileContent>, s: Step, dryRun: bool)
    requires a.Keys == b.Keys && (s.file in a ==> a[s.file] == b[s.file])
    ensures StepOutcome(a, s, dryRun) == StepOutcome(b, s, dryRun)
  {
  }

  /** A file no step names ends as it began. */
  lemma {:induction false} RunUntouched(files: map<string, FileContent>, steps: seq<Step>, dryRun: bool)
    ensures var r := RunSteps(files, steps, dryRun);
      && r.files.Keys == files.Keys
      && (forall f :: f in files && NotNamed(steps, f) ==> r.files[f] == files[f])
  {
    if steps != [] {
      var front := steps[..|steps| - 1];
      var s := steps[|steps| - 1];
      RunUntouched(files, front, dryRun);
      var before := RunSteps(files, front, dryRun);
      FilesAfterKeepsOthers(before.files, s, dryRun);
      var r := RunSteps(files, steps, dryRun);
      forall f | f in files && NotNamed(steps, f)
        ensures r.files[f] == files[f]
      {
        assert NotNamed(front, f);
      }
    }
  }

  /** With one step per file, every step sees its file as it was before the
      run, so the order of the steps does not matter to any result; a file
      no step names ends as it began. */
  lemma {:induction false} RunIndependent(files: map<string, FileContent>, steps: seq<Step>, dryRun: bool)
    requires DistinctFiles(steps)
    ensures var r := RunSteps(files, steps, dryRun);
      && r.files.Keys == files.Keys
      && (forall k :: 0 <= k < |steps| ==> r.results[k] == StepOutcome(files, steps[k], dryRun))
      && (forall f :: f in files && NotNamed(steps, f) ==> r.files[f] == files[f])
  {
    RunUntouched(files, steps, dryRun);
    if steps != [] {
      var front := steps[..|steps| - 1];
      var s := steps[|steps| - 1];
      assert DistinctFiles(front);
      RunIndependent(files, front, dryRun);
      var before := RunSteps(files, front, dryRun);
      assert NotNamed(front, s.file);
      SameFileSameOutcome(before.files, files, s, dryRun);
      assert RunSteps(files, steps, dryRun).results == before.results + [StepOutcome(files, s, dryRun)];
    }
  }

  /** The steps of any plan name distinct files. */
  lemma PlanStepsDistinct(issues: seq<Issue>)
    ensures DistinctFiles(Steps(issues))
  {
    FirstSeenDistinct(issues);
    PlanStepsAt(issues);
  }

  /** How many results report success. */
  function Successes(rs: seq<StepResult>): (n: nat)
    ensures n <= |rs|
  {
    if rs == [] then 0 else Successes(rs[..|rs| - 1]) + (if rs[|rs| - 1].success then 1 else 0)
  }

  lemma AppendAssociates<T>(a: seq<T>, b: seq<T>, c: seq<T>)
    ensures (a + b) + c == a + (b + c)
  {
  }

  lemma SuccessesSnoc(rs: seq<StepResult>, r: StepResult)
    ensures Successes(rs + [r]) == Successes(rs) + (if r.success then 1 else 0)
  {
    assert (rs + [r])[..|rs|] == rs;
  }

  /** A dry run of steps whose files all exist succeeds in every step. */
  lemma {:induction false} DryRunSucceeds(files: map<string, FileContent>, steps: seq<Step>)
    requires forall k :: 0 <= k < |steps| ==> steps[k].file in files
    ensures Successes(RunSteps(files, steps, true).results) == |steps|
  {
    if steps != [] {
      var front := steps[..|steps| - 1];
      DryRunSucceeds(files, front);
      RunShape(files, front, true);
      var r := RunSteps(files, steps, true).results;
      assert r[..|r| - 1] == RunSteps(files, front, true).results;
    }
  }

  // ---------------------------------------------------------------------
  // The sample project (examples/cpp-simd)

  /** Line 5 of platform.h is `#ifdef __x86_64__`: the plan turns it into
      the widened 64-bit guard with high confidence, and a real run
      rewrites that line, keeping its line ending, and no other. */
  lemma PlatformGuardRewritten(issue: Issue, lines: seq<string>)
    requires issue.category == ArchitectureChecks && issue.line == 5 && issue.matchedText == "#ifdef __x86_64__"
    requires |lines| >= 5 && lines[4] == issue.matchedText + "\n"
    ensures var c := ChangeOf(issue);
      && c.confidence == High && c.replacement == X64Guard
      && ApplyAll(lines, [c])[4] == X64Guard + "\n"
      && (forall i :: 0 <= i < |lines| && i != 4 ==> ApplyAll(lines, [c])[i] == lines[i])
  {
    X64GuardLine(issue.matchedText);
    ArchitectureReplacement(issue);
    ConfidenceByCategory(issue.category);
    OnlyTargetLine(lines, ChangeOf(issue), "\n");
  }

  /** A single automatic change whose line is its original text followed by
      something shorter rewrites that line and no other. */
  lemma OnlyTargetLine(lines: seq<string>, c: Change, tail: string)
    requires Lands(c, |lines|) && 0 < |c.original| && |tail| < |c.original|
    requires lines[c.line - 1] == c.original + tail
    ensures ApplyAll(lines, [c])[c.line - 1] == c.replacement + tail
    ensures forall i :: 0 <= i < |lines| && i != c.line - 1 ==> ApplyAll(lines, [c])[i] == lines[i]
  {
    ReplaceLeading(c.original, tail, c.replacement);
    SingleChange(lines, c);
  }

  lemma X64GuardLine(m: string)
    requires m == "#ifdef __x86_64__"
    ensures MentionsX64(m)
  {
    assert m == "#ifdef " + "__x86_64__" + "";
    ContainsInside("#ifdef ", "__x86_64__", "");
  }

  lemma ContainsInside(a: string, p: string, b: string)
    ensures Contains(a + p + b, p)
  {
    var s := a + p + b;
    assert s[|a|..|a| + |p|] == p;
    assert OccursAt(s, p, |a|);
    ContainsIff(s, p);
  }

  /** A text that is the pattern followed by something shorter than it
      loses just that occurrence. */
  lemma ReplaceLeading(pat: string, tail: string, rep: string)
    requires 0 < |pat| && |tail| < |pat|
    ensures ReplaceAll(pat + tail, pat, rep) == rep + tail
  {
    var s := pat + tail;
    assert s[..|pat|] == pat && s[|pat|..] == tail;
  }

  lemma SingleChange(lines: seq<string>, c: Change)
    ensures ApplyAll(lines, [c]) == ApplyOne(lines, c)
  {
    assert [c][..0] == [];
  }

  /** Line 13 of math_utils.cpp calls `_mm_add_ps`: the plan offers
      `vaddq_f32` with medium confidence only, so a dry run counts nothing
      and a real run leaves the file as it is and warns about line 13. */
  lemma VectorAddSkipped(issue: Issue, lines: seq<string>)
    requires issue.category == X86Intrinsics && issue.line == 13 && issue.matchedText == "_mm_add_ps"
    ensures var c := ChangeOf(issue);
      && c.confidence == Medium && c.replacement == "vaddq_f32"
      && CountHighChanges([c]) == 0
      && ApplyAll(lines, [c]) == lines
      && SkipWarnings([c]) == ["Low confidence change skipped at line 13"]
  {
    var m := issue.matchedText;
    ContainsInside("", m, "");
    IntrinsicReplacement(issue, 0);
    ReplaceWhole(m, "vaddq_f32");
    ConfidenceByCategory(issue.category);
    SkippedAlone(lines, ChangeOf(issue));
    WarningForLine13();
  }

  /** A single change that is not automatic leaves the file alone and gives
      one warning naming its line. */
  lemma SkippedAlone(lines: seq<string>, c: Change)
    requires !Automatic(c)
    ensures CountHighChanges([c]) == 0 && ApplyAll(lines, [c]) == lines
    ensures SkipWarnings([c]) == [SkipWarning(c.line)]
  {
    assert [c][..0] == [];
  }

  lemma WarningForLine13()
    ensures SkipWarning(13) == "Low confidence change skipped at line 13"
  {
    assert NatToString(13) == NatToString(1) + [DigitChar(3)];
  }

  // ---------------------------------------------------------------------
  // Build-system changes and dependency updates

  const ManualReviewNote: string := "Build system changes require manual review"
  const VerificationNote: string := "Dependency compatibility needs verification"
  const NoAction: string := "none"

  datatype BuildResult = BuildResult(file: string, system: string, success: bool, changesApplied: nat, note: string)

  datatype DependencyResult = DependencyResult(dependency: string, success: bool, actionTaken: string, note: string)

  /** `_execute_build_change`: nothing is edited; a real run reports the
      planned changes as applied, a dry run none. */
  function BuildResultFor(b: BuildChange, dryRun: bool): BuildResult {
    BuildResult(b.file, b.system, true, if dryRun then 0 else |b.changes|, ManualReviewNote)
  }

  function BuildResults(bs: seq<BuildChange>, dryRun: bool): (r: seq<BuildResult>)
    ensures |r| == |bs|
  {
    if bs == [] then [] else BuildResults(bs[..|bs| - 1], dryRun) + [BuildResultFor(bs[|bs| - 1], dryRun)]
  }

  /** `_execute_dependency_update`: nothing is installed; a real run reports
      the planned action, a dry run "none". */
  function DependencyResultFor(u: DependencyUpdate, dryRun: bool): DependencyResult {
    DependencyResult(u.name, true, if dryRun then NoAction else u.action, VerificationNote)
  }

  function DependencyResults(us: seq<DependencyUpdate>, dryRun: bool): (r: seq<DependencyResult>)
    ensures |r| == |us|
  {
    if us == [] then [] else DependencyResults(us[..|us| - 1], dryRun) + [DependencyResultFor(us[|us| - 1], dryRun)]
  }

  /** One acknowledgement per planned build change, in plan order, always
      successful, counting the planned changes only in a real run. */
  lemma {:induction false} BuildResultsAt(bs: seq<BuildChange>, dryRun: bool)
    ensures forall k :: 0 <= k < |bs| ==>
      var r := BuildResults(bs, dryRun)[k];
      && r.file == bs[k].file && r.system == bs[k].system && r.success && r.note == ManualReviewNote
      && r.changesApplied == (if dryRun then 0 else |bs[k].changes|)
  {
    if bs != [] {
      BuildResultsAt(bs[..|bs| - 1], dryRun);
    }
  }

  /** One acknowledgement per planned dependency update, in plan order,
      always successful, taking the planned action only in a real run. */
  lemma {:induction false} DependencyResultsAt(us: seq<DependencyUpdate>, dryRun: bool)
    ensures forall k :: 0 <= k < |us| ==>
      var r := DependencyResults(us, dryRun)[k];
      && r.dependency == us[k].name && r.success && r.note == VerificationNote
      && r.actionTaken == (if dryRun then NoAction else us[k].action)
  {
    if us != [] {
      DependencyResultsAt(us[..|us| - 1], dryRun);
    }
  }

  /** The build-change loop of `execute`. */
  method ExecuteBuildChanges(bs: seq<BuildChange>, dryRun: bool) returns (results: seq<BuildResult>)
    ensures results == BuildResults(bs, dryRun)
  {
    results := [];
    for k := 0 to |bs|
      invariant results == BuildResults(bs[..k], dryRun)
    {
      assert bs[..k + 1][..k] == bs[..k];
      results := results + [BuildResultFor(bs[k], dryRun)];
    }
    assert bs[..|bs|] == bs;
  }

  /** The dependency loop of `execute`. */
  method ExecuteDependencyUpdates(us: seq<DependencyUpdate>, dryRun: bool) returns (results: seq<DependencyResult>)
    ensures results == DependencyResults(us, dryRun)
  {
    results := [];
    for k := 0 to |us|
      invariant results == DependencyResults(us[..k], dryRun)
    {
      assert us[..k + 1][..k] == us[..k];
      results := results + [DependencyResultFor(us[k], dryRun)];
    }
    assert us[..|us|] == us;
  }

  // ---------------------------------------------------------------------
  // The backup

  /** A wall-clock reading, to the second. */
  datatype Moment = Moment(year: nat, month: nat, day: nat, hour: nat, minute: nat, second: nat)

  predicate ValidMoment(t: Moment) {
    1000 <= t.year < 10000 && 1 <= t.month <= 12 && 1 <= t.day <= 31
    && t.hour < 24 && t.minute < 60 && t.second < 60
  }

  function Pad4(n: nat): (r: string)
    requires n < 10000
    ensures |r| == 4
  {
    Pad2(n / 100) + Pad2(n % 100)
  }

  /** The `%Y%m%d_%H%M%S` rendering of a moment. */
  function Stamp(t: Moment): (s: string)
    requires ValidMoment(t)
    ensures |s| == 15 && s[8] == '_'
  {
    Pad4(t.year) + Pad2(t.month) + Pad2(t.day) + "_" + Pad2(t.hour) + Pad2(t.minute) + Pad2(t.second)
  }

  lemma Pad2Injective(a: nat, b: nat)
    requires a < 100 && b < 100 && Pad2(a) == Pad2(b)
    ensures a == b
  {
  }

  /** Two different moments give two different stamps. */
  lemma StampInjective(t: Moment, u: Moment)
    requires ValidMoment(t) && ValidMoment(u) && Stamp(t) == Stamp(u)
    ensures t == u
  {
    var s := Stamp(t);
    assert s[0..2] == Pad2(t.year / 100) && s[0..2] == Pad2(u.year / 100);
    assert s[2..4] == Pad2(t.year % 100) && s[2..4] == Pad2(u.year % 100);
    assert s[4..6] == Pad2(t.month) && s[4..6] == Pad2(u.month);
    assert s[6..8] == Pad2(t.day) && s[6..8] == Pad2(u.day);
    assert s[9..11] == Pad2(t.hour) && s[9..11] == Pad2(u.hour);
    assert s[11..13] == Pad2(t.minute) && s[11..13] == Pad2(u.minute);
    assert s[13..15] == Pad2(t.second) && s[13..15] == Pad2(u.second);
    Pad2Injective(t.year / 100, u.year / 100);
    Pad2Injective(t.year % 100, u.year % 100);
  }

  /** The backup directory's name, a sibling of the project directory. */
  function BackupName(project: string, t: Moment): string
    requires ValidMoment(t)
  {
    project + "_backup_" + Stamp(t)
  }

  /** Backups of one project taken at different seconds never collide, and
      each name starts with the project's. */
  lemma BackupNamesDistinct(project: string, t: Moment, u: Moment)
    requires ValidMoment(t) && ValidMoment(u) && t != u
    ensures BackupName(project, t) != BackupName(project, u)
    ensures StartsWith(BackupName(project, t), project + "_backup_")
  {
    var a, b := BackupName(project, t), BackupName(project, u);
    if a == b {
      assert a[|a| - 15..] == Stamp(t) && b[|b| - 15..] == Stamp(u);
      StampInjective(t, u);
    }
  }

  /** The names `copytree` leaves out of the backup, wherever they occur. */
  const BackupSkips: seq<string> := [".git", "__pycache__", "node_modules", ".venv", "build", "dist"]

  /** A file under (or named) one of the skipped names. */
  predicate SkippedByBackup(f: string) {
    exists c :: c in SplitAll(f, "/") && c in BackupSkips
  }

  /** The files the backup copies, as they are when it is taken. */
  function BackupCopy(files: map<string, FileContent>): map<string, FileContent> {
    map f | f in files && !SkippedByBackup(f) :: files[f]
  }

  // ---------------------------------------------------------------------
  // The project

  datatype ExecutionResults = ExecutionResults(
    dryRun: bool,
    totalSteps: nat,
    completedSteps: nat,
    failedSteps: nat,
    stepResults: seq<StepResult>,
    buildChanges: seq<BuildResult>,
    dependencyChanges: seq<DependencyResult>,
    backupPath: Option<string>)

  /** A project directory: its name, its files by relative path, the
      names already taken in the directory that holds it, and what has been
      done to it. */
  class Project {
    const name: string
    var files: map<string, FileContent>
    var siblings: set<string>
    var log: seq<Event>

    constructor(name: string, files: map<string, FileContent>, siblings: set<string>)
      ensures this.name == name && this.files == files && this.siblings == siblings && log == []
    {
      this.name := name;
      this.files := files;
      this.siblings := siblings;
      log := [];
    }

    /** `_create_backup`: copy the project, less the skipped names, next to
      it under a name stamped with the time. `copytree` refuses a
      destination that already exists: then nothing is copied and the
      `FileExistsError` is the `None` result. */
    method CreateBackup(t: Moment) returns (path: Option<string>)
      requires ValidMoment(t)
      modifies this
      ensures files == old(files)
      ensures BackupName(name, t) in old(siblings) ==>
        path == None && siblings == old(siblings) && log == old(log)
      ensures BackupName(name, t) !in old(siblings) ==>
        && path == Some(BackupName(name, t))
        && siblings == old(siblings) + {BackupName(name, t)}
        && log == old(log) + [BackedUp(BackupName(name, t), BackupCopy(files))]
    {
      var target := BackupName(name, t);
      if target in siblings {
        return None;
      }
      siblings := siblings + {target};
      log := log + [BackedUp(target, BackupCopy(files))];
      path := Some(target);
    }

    /** `_execute_step`. */
    method ExecuteStep(step: Step, dryRun: bool) returns (r: StepResult)
      modifies this
      ensures r == StepOutcome(old(files), step, dryRun)
      ensures files == FilesAfter(old(files), step, dryRun)
      ensures log == old(log) + WritesOf(old(files), step, dryRun)
      ensures siblings == old(siblings)
    {
      r := StepResult(step.id, step.file, true, 0, [], None);
      if step.kind == FileMigration {
        if step.file !in files {
          r := r.(success := false, error := Some(FileNotFound));
          return;
        }
        if !dryRun {
          match files[step.file]
          case ReadError(reason) =>
            r := r.(success := false, error := Some(reason));
          case Lines(ls) =>
            var a := new string[|ls|](i requires 0 <= i < |ls| => ls[i]);
            assert a[..] == ls;
            var applied, warnings := ApplyChanges(a, step.changes);
            r := r.(changesApplied := applied, warnings := warnings);
            files := files[step.file := Lines(a[..])];
            log := log + [Wrote(step.file, a[..])];
        } else {
          r := r.(changesApplied := CountHighChanges(step.changes));
        }
      }
    }

    /** The step loop of `execute`: every step in plan order, with its
      success or failure counted. */
    method ExecuteSteps(steps: seq<Step>, dryRun: bool) returns (results: seq<StepResult>, completed: nat, failed: nat)
      modifies this
      ensures var run := RunSteps(old(files), steps, dryRun);
        && results == run.results && files == run.files && log == old(log) + run.writes
      ensures completed == Successes(results) && completed + failed == |steps|
      ensures siblings == old(siblings)
    {
      results, completed, failed := [], 0, 0;
      ghost var files0, log0 := files, log;
      ghost var run := Run([], files, []);
      for k := 0 to |steps|
        invariant run == RunSteps(files0, steps[..k], dryRun)
        invariant results == run.results && files == run.files && log == log0 + run.writes
        invariant completed == Successes(results) && completed + failed == k
        invariant siblings == old(siblings)
      {
        RunStepsSnoc(files0, steps, k, dryRun);
        ghost var written := WritesOf(run.files, steps[k], dryRun);
        var stepResult := ExecuteStep(steps[k], dryRun);
        AppendAssociates(log0, run.writes, written);
        run := Run(run.results + [stepResult], files, run.writes + written);
        SuccessesSnoc(results, stepResult);
        results := results + [stepResult];
        if stepResult.success {
          completed := completed + 1;
        } else {
          failed := failed + 1;
        }
      }
      assert steps[..|steps|] == steps;
    }

    /** `execute`: a backup first unless the run is dry, every step in plan
      order with successes and failures counted, then the build changes and
      dependency updates acknowledged. A backup name that is already taken
      (a second run within the same second) raises out of `execute`: the
      result is `None` and nothing has changed. */
    method Execute(plan: Plan, dryRun: bool, t: Moment) returns (out: Option<ExecutionResults>)
      requires ValidMoment(t)
      modifies this
      ensures !dryRun && BackupName(name, t) in old(siblings) ==>
        out == None && files == old(files) && siblings == old(siblings) && log == old(log)
      ensures out.Some? <==> dryRun || BackupName(name, t) !in old(siblings)
      ensures out.Some? ==> var res := out.value; var run := RunSteps(old(files), plan.steps, dryRun);
        && res.dryRun == dryRun && res.totalSteps == |plan.steps|
        && res.stepResults == run.results
        && res.completedSteps == Successes(run.results)
        && res.completedSteps + res.failedSteps == res.totalSteps
        && res.buildChanges == BuildResults(plan.buildSystemChanges, dryRun)
        && res.dependencyChanges == DependencyResults(plan.dependencyUpdates, dryRun)
        && files == run.files
      ensures dryRun ==> (out.Some? && out.value.backupPath == None
        && files == old(files) && siblings == old(siblings) && log == old(log))
      ensures !dryRun && out.Some? ==> (out.value.backupPath == Some(BackupName(name, t))
        && siblings == old(siblings) + {BackupName(name, t)}
        && log == old(log) + [BackedUp(BackupName(name, t), BackupCopy(old(files)))] + RunSteps(old(files), plan.steps, dryRun).writes)
    {
      ghost var files0 := files;
      var backupPath: Option<string> := None;
      if !dryRun {
        backupPath := CreateBackup(t);
        if backupPath.None? {
          return None;
        }
      }
      var stepResults, completed, failed := ExecuteSteps(plan.steps, dryRun);
      RunShape(files0, plan.steps, dryRun);
      var buildChanges := ExecuteBuildChanges(plan.buildSystemChanges, dryRun);
      var dependencyChanges := ExecuteDependencyUpdates(plan.dependencyUpdates, dryRun);
      out := Some(ExecutionResults(dryRun, |plan.steps|, completed, failed, stepResults, buildChanges, dependencyChanges, backupPath));
    }
  }
}
