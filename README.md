# m2arm scan → plan → apply, modelled in Dafny

m2arm helps move a C/C++ (or mixed-language) project from x86 to ARM. It
works in three stages:

1. **Scan.** A scanner walks the project and matches a fixed catalogue of
   x86 patterns against each source file: inline assembly, SSE/AVX
   intrinsics, `#ifdef` architecture guards and Windows platform calls.
   Every match is recorded as an *issue* with a line number, a severity and
   a suggestion. The scanner also records build-system files and dependency
   manifests, and sums the scan up as a few recommendation lines. There are
   two scanners: the Python SDK (`sdk/scanner.py`) and the Go command line
   (`cli/internal/scanner/scanner.go`). They share the catalogue but not
   the matching rules.
2. **Plan.** The migrator (`sdk/migrator.py`) turns the scan into a
   migration plan:
   - one step per file, numbered in the order the files first appear among
     the issues;
   - in each step, one change per issue, ordered from the bottom of the
     file up, each with a replacement text and a confidence;
   - build-system and dependency follow-ups;
   - a testing strategy and an effort band.
3. **Apply.** The migrator executes the plan:
   - a real run first copies the project to a time-stamped backup;
   - it then rewrites, line by line, only the high-confidence changes and
     records a warning for every other change;
   - a dry run only counts what it would change.

The project has one Dafny module per concern:

| file | module | models |
|---|---|---|
| `text.dfy` | `Text` | the string operations the code relies on (Python `str.replace`, `strip`, `split`, `in`; Go `strings.Fields`, `Split`, `TrimSpace`; decimal formatting), each with its defining property |
| `dict.dfy` | `OrderedDict` | Python's insertion-ordered `dict` and `dict.update` |
| `report.dfy` | `Report` | the scan records, the project tree, the `go.mod` require-line reading both scanners share, and the recommendation messages as data |
| `pyscanner.dfy` | `PyScanner` | `_scan_file`, line numbering, the severity and suggestion tables, the file filter |
| `pyproject.dfy` | `PyProject` | `scan`, build-system records, the four dependency parsers, recommendations |
| `goscanner.dfy` | `GoScanner` | the Go `Scanner`: per-line matching, directory pruning, its parsers, `Scan` |
| `plan.dfy` | `MigrationPlan` | `create_plan` and its helpers |
| `execute.dfy` | `Execution` | `execute`, `_execute_step`, the backup name, and the class `Project` whose files and write log the executor changes |

**State.** The executor is a class, `Execution.Project`. It holds the
project's files (a map from path to lines, or to a read error) and a log of
what was written (backups and rewritten files). Its methods are specified
by functions of the old state:
- `RunSteps` for the step loop;
- `StepOutcome` and `FilesAfter` for one step.

`_execute_step`'s rewrite works in place on an `array` of lines
(`Execution.ApplyChanges`). It is specified by `ApplyAll`.

**Loops.** The scanners' and planner's own loops are methods, each proved
equal to a specification function. The lemmas about those functions carry
the properties.

**Parameters.** Things outside the core are parameters of the model:
- the regular-expression engine (`PyScanner.Finder` for `re.finditer`,
  `GoScanner.FindString` for `Regexp.FindString`);
- file reading;
- the order of Go map iteration;
- the clock (`Execution.Moment`).

**Literal patterns.** The three literal patterns (`GetSystemInfo`,
`IsWow64Process`, `SYSTEM_INFO`) also get a concrete search:
- case-insensitive for Python, comparing characters as `re.IGNORECASE`
  does for an ASCII pattern (`Text.FoldChar`): ASCII case, plus the four
  non-ASCII characters the engine equates with an ASCII letter (U+0130 and
  U+0131 with `i`, U+017F with `s`, U+212A with `k`);
- case-sensitive for Go.

File suffixes are lower-cased in ASCII (`Text.Lower`). For membership in
the scannable set this is exact: no non-ASCII character lowers to one of
its letters, in Python or in Go.

**Whitespace.** Python's `str.strip` and `str.split` count the information
separators U+001C to U+001F as whitespace; Go's `strings.TrimSpace` and
`strings.Fields` do not. Otherwise the two sets agree. `Text.IsSpace` and
every trimming and splitting function take the language as a parameter.
Each scanner is modelled with its own set.

**Manifests.** A manifest is absent, unreadable, interrupted by a read
error after some text was decoded, or read in full (`Report.Manifest`).
Python's line loop over `requirements.txt` keeps the records of the lines
it handed out before the error. Its other parsers read the whole file
first, so an error leaves them with nothing. Go's parsers return the error,
and the caller then drops their records.

## Model

| member | source | states |
|---|---|---|
| Report.CountHighSeverity | sdk/scanner.py:393-395 | the high-severity count is at most the number of issues, and is zero exactly when no issue is high |
| Report.SummaryLines | sdk/scanner.py:397-407 | the first line is "no x86 code" exactly when there are no issues, else "found n"; the high-severity line appears iff there are issues and some are high, and carries that count |
| Report.BuildHints | sdk/scanner.py:409-418 | the CMake hint appears iff a cmake record exists, the Makefile hint iff a make record exists, each at most once, and nothing else appears |
| Report.AdviseHighSeverity | sdk/scanner.py:392-407 | over the whole recommendation list, the high-severity line appears iff the high count is positive, with that count |
| Report.AdviseBuildHints | sdk/scanner.py:409-418 | over the whole recommendation list, each build hint appears iff its system was recorded, and at most once |
| Report.AdviseDependencies | sdk/scanner.py:420-425 | the dependency line appears iff there is at least one dependency, and carries that number |
| Report.RequireLineShape | sdk/scanner.py:366-372 | a require line yields a record iff, once stripped, it is non-empty, is not a `//` comment and has at least two fields; the record is fields 1 and 2 |
| Report.RequireLineRoundTrip | sdk/scanner.py:366-381 | an indented `name version` line reads back as exactly that go dependency |
| Report.RequireLineIsGo | sdk/scanner.py:374-381 | every record read from a require line has kind "go" and compatibility "unknown" |
| Report.TopLevelInEntries | sdk/scanner.py:221-222 | every entry `glob` finds at the top level is also among the entries `rglob` finds |
| PyScanner.PlatformEntriesAreLiteral | sdk/scanner.py:25-51 | every catalogue entry has one of the four categories, and the platform-specific entries are exactly the three literal names, in order |
| PyScanner.LineNumber | sdk/scanner.py:164 | a match's line number is at least 1 and at most one more than the number of newlines in the content |
| PyScanner.LineNumberMonotone | sdk/scanner.py:164 | a later offset never gets an earlier line number |
| PyScanner.LineNumberOfLine | sdk/scanner.py:164 | an offset inside the (k+1)-th newline-terminated line is numbered k+1 |
| PyScanner.Severity | sdk/scanner.py:184-192 | high iff inline assembly or intrinsics, medium iff architecture check or platform call, low iff any other category |
| PyScanner.Suggestion | sdk/scanner.py:194-202 | the "Review for ARM compatibility" default is returned iff the category is not one of the four |
| Text.FoldAgainstAscii | sdk/scanner.py:160 | against an ASCII pattern character, a text character matches up to case iff it is that character up to ASCII case, or one of U+0130/U+0131 for `i`, U+017F for `s`, U+212A for `k` |
| Text.FoldAscii | sdk/scanner.py:160 | on ASCII text, folding is ASCII lower-casing |
| PyScanner.CaselessAtFolded | sdk/scanner.py:160 | an occurrence up to case is exactly an occurrence in the folded texts |
| PyScanner.LongSMatches | sdk/scanner.py:160 | `GetſystemInfo` matches `GetSystemInfo` up to case, though ASCII lower-casing tells the two apart |
| PyScanner.LiteralMatchesFrom | sdk/scanner.py:159-161 | a literal pattern's matches are case-insensitive occurrences, carry the content's own text, and do not overlap, in increasing order |
| PyScanner.LiteralMatchesLeftmost | sdk/scanner.py:159-161 | when the literal occurs, the first match is the leftmost occurrence |
| PyScanner.MatchIssues | sdk/scanner.py:163-177 | one issue per match, in match order, each built from the match's line number and text and the category's tables |
| PyScanner.EntryIssuesShape | sdk/scanner.py:157-177 | a file yields exactly as many issues as there are matches, and each issue names the file, a real line, a catalogue entry and that entry's severity and suggestion |
| PyScanner.IssuesNeverLow | sdk/scanner.py:171-175 | no issue of the catalogue is ever low severity or has the default suggestion |
| PyScanner.LiteralIssuesMatchPattern | sdk/scanner.py:47-49 | with literal search, every platform-specific issue's matched text equals its pattern up to case |
| PyScanner.MatchesToIssues | sdk/scanner.py:163-177 | the append loop builds exactly the issues of the matches |
| PyScanner.ScanContent | sdk/scanner.py:157-177 | the category/pattern loop builds exactly the issues of the entries, in catalogue order |
| PyScanner.ScanFile | sdk/scanner.py:148-182 | a readable file yields one well-formed issue per match; an unreadable one yields none |
| PyScanner.Suffix | sdk/scanner.py:125 | the suffix is empty or a dot-led tail of the name with no further dot, never the whole name |
| PyScanner.SourceFilesMembers | sdk/scanner.py:122-146 | a walked path is kept iff its lower-cased suffix is scannable and no skip fragment occurs in its full path |
| PyScanner.GetSourceFiles | sdk/scanner.py:118-130 | the walk loop keeps exactly the files of the tree that are source files, in walk order |
| PyScanner.RootFragmentSkipsEverything | sdk/scanner.py:132-146 | a project whose own path contains a skip fragment (such as "build") has no source files at all |
| PyScanner.SubstringSkipsFileName | sdk/scanner.py:132-146 | a file named "distance.cpp" is skipped because "dist" occurs inside its name |
| PyScanner.ProjectIssuesAppend | sdk/scanner.py:92-98 | the project's issues are the files' issues concatenated in order |
| PyScanner.UnreadableFileContributesNothing | sdk/scanner.py:95-102 | a file that cannot be read adds no issues and does not change the other files' issues |
| PyProject.RequirementLine | sdk/scanner.py:296-314 | every requirement record has kind "python" and compatibility "unknown" |
| PyProject.RequirementSkipped | sdk/scanner.py:297-298 | a line gives nothing iff, once stripped, it is empty or starts with `#` |
| PyProject.RequirementStripped | sdk/scanner.py:309-310 | name and version of a record carry no surrounding whitespace |
| PyProject.PinnedLine | sdk/scanner.py:300-301 | a line with `==` splits at its first `==` |
| PyProject.MinimumLine | sdk/scanner.py:302-303 | a line with `>=` and no `==` splits at its first `>=` |
| PyProject.BareLine | sdk/scanner.py:304-305 | a line with neither operator is the name, with version "*" |
| PyProject.RequirementPinnedRoundTrip | sdk/scanner.py:300-301 | `name==version` reads back as exactly that name and version |
| PyProject.RequirementMinimumRoundTrip | sdk/scanner.py:302-303 | `name>=version` reads back as that name and the bare version |
| PyProject.RequirementBareRoundTrip | sdk/scanner.py:304-305 | a bare name reads back with version "*" |
| PyProject.RequirementRecords | sdk/scanner.py:294-314 | at most one record per line, all python and unknown |
| Report.CompleteLinesPrefix | sdk/scanner.py:296 | the complete lines of a text are the first lines of every longer text it begins |
| PyProject.RequirementRecordsAppend | sdk/scanner.py:294-314 | the records of two runs of lines are the records of the first followed by those of the second |
| PyProject.InterruptedRecordsPrefix | sdk/scanner.py:292-319 | a read error keeps the records of the complete lines before it, and these are the first records of the whole file |
| PyProject.ScanPythonDependencies | sdk/scanner.py:290-319 | the line loop builds exactly the records of the lines the file yields, also when a read error ends it |
| PyProject.RequireMatchAt | sdk/scanner.py:361-362 | a block match starts with `require`, whitespace and `(`, and its body runs to the first `)` |
| PyProject.RequireBlocks | sdk/scanner.py:361-362 | no block body contains `)` |
| PyProject.RequireLineRecordsAreGo | sdk/scanner.py:365-381 | at most one record per block line, each a go record |
| PyProject.BlockRecordsAreGo | sdk/scanner.py:364-381 | every record of every block is a go record |
| PyProject.LinesDependencies | sdk/scanner.py:366-381 | the inner loop builds exactly the records of the block's lines |
| PyProject.BlockDependencies | sdk/scanner.py:365-381 | one block is stripped and split at newlines before its lines are read |
| PyProject.BlocksDependencies | sdk/scanner.py:364-381 | the outer loop builds the records block by block |
| PyProject.ScanGoDependencies | sdk/scanner.py:352-386 | go.mod's records are those of its require blocks in order |
| PyProject.DictRecords | sdk/scanner.py:275-283 | one npm record per dictionary entry, in dictionary order |
| PyProject.ScanNpmDependencies | sdk/scanner.py:261-288 | the loop builds the records of the merged dictionary |
| PyProject.NpmAllDistinct | sdk/scanner.py:271-273 | the merged dictionary has each name once |
| PyProject.NpmAllKeys | sdk/scanner.py:271-273 | a name is merged iff it is a dependency or a dev-dependency |
| PyProject.NpmAllLookup | sdk/scanner.py:271-273 | a dev-dependency's version overrides a dependency's version of the same name |
| PyProject.NpmDevOverrides | sdk/scanner.py:271-283 | npm records have distinct names, cover both dictionaries, and carry the dev version where both define one |
| PyProject.CargoRecords | sdk/scanner.py:331-348 | a string value is the version, a table gives its "version" or "*"; the first value of any other shape ends the list |
| PyProject.ScanCargoDependencies | sdk/scanner.py:321-350 | the loop builds exactly those records |
| PyProject.DependenciesGrouped | sdk/scanner.py:235-259 | dependencies come grouped npm, python, cargo, go, in that order |
| PyProject.ScanDependencies | sdk/scanner.py:235-259 | the manifests are read in that order and their records concatenated |
| PyProject.MatchingRecords | sdk/scanner.py:224-231 | every record carries the pattern's system and needs review |
| PyProject.MatchingRecordsContain | sdk/scanner.py:220-231 | every path whose name matches the pattern is recorded |
| PyProject.MatchingRecordsSound | sdk/scanner.py:220-231 | every record comes from a path whose name matches the pattern |
| PyProject.ScanBuildSystems | sdk/scanner.py:204-233 | the pattern loop builds the records of all nine patterns, each needing review |
| PyProject.TopLevelMatched | sdk/scanner.py:221-222 | a matching top-level file is found by both `glob` and `rglob` |
| PyProject.TopLevelRecordedTwice | sdk/scanner.py:221-222 | a matching top-level file is recorded at least twice |
| PyProject.Render | sdk/scanner.py:397-425 | one line per piece of advice: its glyph followed by its text |
| PyProject.RenderFirst | sdk/scanner.py:397-398 | the first line is the "no obvious x86-specific code" message iff the first advice is "no issues" |
| PyProject.RecommendationsSummary | sdk/scanner.py:388-427 | one to five recommendations; the first says nothing was found iff there are no issues |
| PyProject.ScanFiles | sdk/scanner.py:92-102 | every listed file counts as total and as scanned, and the issues are the files' issues in order |
| PyProject.Scan | sdk/scanner.py:73-116 | the report's counts, issues, build systems, dependencies and recommendations are those of the project |
| GoScanner.SeverityAgrees | cli/internal/scanner/scanner.go:209-220 | the Go severity table equals the Python one |
| GoScanner.SuggestionAgrees | cli/internal/scanner/scanner.go:223-234 | the Go suggestion table equals the Python one |
| GoScanner.LineIssuesMembers | cli/internal/scanner/scanner.go:180-200 | an issue is found on a line iff some pattern's leftmost match there is non-empty, and it carries that match |
| GoScanner.OneIssuePerPattern | cli/internal/scanner/scanner.go:181-200 | a line yields at most one issue per pattern |
| GoScanner.LineIssuesOrder | cli/internal/scanner/scanner.go:180 | any order of the pattern table gives the same issues of a line, up to order |
| GoScanner.FileIssuesLines | cli/internal/scanner/scanner.go:173-203 | issue lines run from 1 to the number of lines, never decrease, and each matched text is that line's leftmost match |
| GoScanner.FileIssuesOrder | cli/internal/scanner/scanner.go:175-203 | whatever the map order on each line, a file's issues are the same multiset |
| GoScanner.ScanLine | cli/internal/scanner/scanner.go:180-200 | the pattern loop builds exactly one line's issues |
| GoScanner.ScanFileLines | cli/internal/scanner/scanner.go:164-206 | the line loop numbers lines from 1 and builds exactly the file's issues |
| GoScanner.CaseSensitiveLiteral | cli/internal/scanner/scanner.go:182-187 | a lower-case `getsysteminfo` is not found by Go though Python's case-insensitive search finds it |
| GoScanner.GoExt | cli/internal/scanner/scanner.go:152 | the extension is empty or a dot-led tail of the name |
| GoScanner.ExtAgreesWithSuffix | cli/internal/scanner/scanner.go:152 | Go's extension equals Python's suffix except for a name that starts or ends with its dot |
| GoScanner.WalkFilesMembers | cli/internal/scanner/scanner.go:134-158 | the walk keeps exactly the files with a scannable extension none of whose directories is a skip name |
| GoScanner.WalkNodeMembers | cli/internal/scanner/scanner.go:139-149 | a directory named by a skip name is pruned with everything under it |
| GoScanner.GoSourceFilesMembers | cli/internal/scanner/scanner.go:131-161 | the source files are the kept files, and none when the project directory itself has a skip name |
| GoScanner.ReadableCount | cli/internal/scanner/scanner.go:97-108 | the scanned count never exceeds the number of files |
| GoScanner.AllScannedIffAllRead | cli/internal/scanner/scanner.go:97-108 | every file counts as scanned iff every file could be read |
| GoScanner.FailedFileContributesNothing | cli/internal/scanner/scanner.go:98-104 | a file that fails adds no issues and the scan goes on |
| GoScanner.FileIssuesOfOrder | cli/internal/scanner/scanner.go:98-107 | whatever the map order, a file as the walk keeps it (nothing when unreadable) yields the same multiset of issues as in the table's order |
| GoScanner.ProjectIssuesOrder | cli/internal/scanner/scanner.go:96-108 | whatever the map order, the whole project yields the same multiset of issues as in the table's order |
| GoScanner.ScanFiles | cli/internal/scanner/scanner.go:94-108 | total is the number of files, scanned is the number read, and the issues are those of the read files |
| Text.StripAgrees | cli/internal/scanner/scanner.go:346 | without information separators, Go's `strings.TrimSpace` and Python's `strip` give the same text |
| GoScanner.GoRequirementSkipped | cli/internal/scanner/scanner.go:346-349 | Go skips a line iff, trimmed at Go's whitespace, it is blank or starts with `#`; without information separators these are exactly the lines Python skips |
| GoScanner.SeparatorLineDiverges | cli/internal/scanner/scanner.go:346-349 | a line holding only U+001C is blank to Python but gives Go a record with that name and version `*` |
| GoScanner.GoPinnedVersion | cli/internal/scanner/scanner.go:353-358 | for every line with `==`, Go's version is the trimmed text between the first `==` and the next one |
| GoScanner.GoMinimumVersion | cli/internal/scanner/scanner.go:359-364 | for every line with `>=` and no `==`, Go's version is `>=` and the trimmed text between the first `>=` and the next one |
| GoScanner.PinnedAgrees | cli/internal/scanner/scanner.go:353-358 | with a single `==` and no information separator, Go's record equals Python's |
| GoScanner.MinimumKeepsOperator | cli/internal/scanner/scanner.go:359-364 | with a single `>=`, no `==` and no information separator, Go keeps `>=` in front of Python's version |
| GoScanner.RepeatedPinDiverges | cli/internal/scanner/scanner.go:353-358 | for `name==v1==v2`, Python's version is `v1==v2` and Go's is `v1` |
| GoScanner.RepeatedMinimumDiverges | cli/internal/scanner/scanner.go:359-364 | for `name>=v1>=v2`, Python's version is `v1>=v2` and Go's is `>=v1` |
| GoScanner.ScanRequirementLines | cli/internal/scanner/scanner.go:334-379 | the line loop builds exactly the Go requirement records |
| GoScanner.RequirementRecordsArePython | cli/internal/scanner/scanner.go:370-375 | every requirement record has kind "python" |
| GoScanner.ScanGoModLines | cli/internal/scanner/scanner.go:401-443 | the state-machine loop builds exactly the records of the go.mod lines |
| GoScanner.GoModStep | cli/internal/scanner/scanner.go:413-440 | each line moves the in-block state and adds at most that line's record |
| GoScanner.GoModRecordsAreGo | cli/internal/scanner/scanner.go:426-438 | at most one record per line, each a go record |
| GoScanner.NoBlockNoRecords | cli/internal/scanner/scanner.go:416-426 | with no `require (` line there is no block and no record |
| GoScanner.EntryLine | cli/internal/scanner/scanner.go:426-438 | inside a block, an indented `name version` line gives that dependency and keeps the block open |
| GoScanner.ThreeLineBlock | cli/internal/scanner/scanner.go:413-440 | an opener, an entry and a `)` give the entry's record and close the block |
| GoScanner.BlockRoundTrip | cli/internal/scanner/scanner.go:413-440 | `require (`, a `name version` line and `)` read back as exactly that dependency |
| GoScanner.PlaceholdersOnly | cli/internal/scanner/scanner.go:288-331 | npm and cargo contribute only their placeholder, present iff the manifest exists |
| GoScanner.ScanDependencies | cli/internal/scanner/scanner.go:288-312 | the four parsers' records are concatenated, and a failing or interrupted parser contributes nothing |
| GoScanner.BuildOrderIrrelevant | cli/internal/scanner/scanner.go:250 | any order of the pattern map gives the same build records, up to order |
| GoScanner.ScanBuildSystems | cli/internal/scanner/scanner.go:237-285 | the loop builds the top-level glob and walk records of every pattern, each needing review |
| GoScanner.RenderBoth | cli/internal/scanner/scanner.go:457-483 | Go and Python render the same advice line for line |
| GoScanner.SameAdviceAsPython | cli/internal/scanner/scanner.go:446-487 | Go's recommendations say the same as Python's, line for line |
| GoScanner.GoRenderFirst | cli/internal/scanner/scanner.go:457-458 | the first Go line is the "no x86 code" message iff the first advice is "no issues" |
| GoScanner.GoRecommendationsSummary | cli/internal/scanner/scanner.go:446-487 | one to five recommendations; the first says nothing was found iff there are no issues |
| GoScanner.CountHigh | cli/internal/scanner/scanner.go:450-455 | the loop counts exactly the high-severity issues |
| GoScanner.SystemTypes | cli/internal/scanner/scanner.go:468-471 | the map holds, as true, exactly the recorded systems |
| GoScanner.SummaryRecs | cli/internal/scanner/scanner.go:457-465 | the summary lines are those of the counts |
| GoScanner.HintRecs | cli/internal/scanner/scanner.go:473-478 | each build hint appears once if its system is in the map |
| GoScanner.DependencyRecs | cli/internal/scanner/scanner.go:481-484 | the dependency line appears iff there is a dependency |
| GoScanner.GenerateRecommendations | cli/internal/scanner/scanner.go:446-487 | the method builds exactly the recommendations of the scan |
| GoScanner.Scan | cli/internal/scanner/scanner.go:32-128 | given the fixed pattern table and build-file map in any iteration order, the report's counts, issues, build systems, dependencies and recommendations are those of the project; up to order, the issues and build systems equal those of the tables' own order; scanned never exceeds total |
| MigrationPlan.ConfidenceByCategory | sdk/migrator.py:241-249 | high iff architecture check, medium iff intrinsics, low for every other category |
| MigrationPlan.FirstMappingFrom | sdk/migrator.py:219-221 | the mapping chosen is the first in table order whose name occurs in the text; none iff no name occurs |
| MigrationPlan.IntrinsicReplacement | sdk/migrator.py:217-221 | an intrinsic is rewritten by replacing every occurrence of the first found name with its NEON name |
| MigrationPlan.ArchitectureReplacement | sdk/migrator.py:228-239 | an x86-64 guard becomes the `__aarch64__` guard, a 32-bit one the `__arm__` guard, any other check the "Review" marker |
| MigrationPlan.UnmappedIsTodo | sdk/migrator.py:212-239 | everything no rule rewrites becomes a TODO comment that quotes the matched text |
| MigrationPlan.ChangeOf | sdk/migrator.py:200-207 | a change keeps the issue's line, category and matched text, with the category's confidence |
| MigrationPlan.ChangesAt | sdk/migrator.py:200-208 | one change per issue, in issue order |
| MigrationPlan.InsertKeepsDescending | sdk/migrator.py:198 | inserting an issue keeps a list ordered by line, largest first |
| MigrationPlan.InsertStable | sdk/migrator.py:198 | an inserted issue goes after the issues already on its line |
| MigrationPlan.SortDescending | sdk/migrator.py:198 | the sorted issues are ordered by line, largest first |
| MigrationPlan.SortPermutes | sdk/migrator.py:198 | sorting keeps exactly the same issues |
| MigrationPlan.SortStable | sdk/migrator.py:198 | issues on the same line keep their relative order |
| MigrationPlan.SortByLineDescCorrect | sdk/migrator.py:198 | the sort is descending, a permutation and stable |
| MigrationPlan.ChangesOnLineCommute | sdk/migrator.py:198-208 | the changes on a line are those of the issues on that line |
| MigrationPlan.FileStepChanges | sdk/migrator.py:186-210 | a step counts its issues, has one change per issue, lines descending, and the same changes per line in the same order |
| MigrationPlan.CreateFileMigrationStep | sdk/migrator.py:186-210 | the loop builds exactly the step of the file's issues |
| MigrationPlan.FirstSeenMembers | sdk/migrator.py:73-78 | the grouped files are exactly the files of the issues |
| MigrationPlan.FirstSeenDistinct | sdk/migrator.py:73-78 | each file is grouped once |
| MigrationPlan.FirstSeenOrder | sdk/migrator.py:73-78 | files are ordered by their first issue |
| MigrationPlan.FirstSeenFilesCorrect | sdk/migrator.py:73-78 | the grouping is distinct, complete and in first-seen order |
| MigrationPlan.FirstSeenCovers | sdk/migrator.py:73-78 | every issue's file is grouped |
| MigrationPlan.StepsForAt | sdk/migrator.py:81-85 | step k has id k+1 and holds the k-th file's issues |
| MigrationPlan.PlanStepsAt | sdk/migrator.py:72-85 | one step per distinct file, in first-seen order, ids 1..n without gaps, each with exactly that file's issues |
| MigrationPlan.PlanStepTotals | sdk/migrator.py:64-85 | the steps hold every issue once, and their high-confidence changes are the architecture checks |
| MigrationPlan.HighChangesAreChecks | sdk/migrator.py:341-343 | the high-confidence changes are exactly the architecture-check issues |
| MigrationPlan.EffortBands | sdk/migrator.py:345-352 | minimal iff no issues; low iff 1..10 issues with at least 70% high confidence; high iff over 50 issues |
| MigrationPlan.EffortFallsWithConfidence | sdk/migrator.py:345-352 | more high-confidence changes never raise the effort band |
| MigrationPlan.EffortGrowsWithIssues | sdk/migrator.py:345-352 | more issues never lower the effort band |
| MigrationPlan.EffortBoundaries | sdk/migrator.py:345-352 | the band edges: 7 of 10 is low, 6 of 10 medium, 11 and 50 medium, 51 high |
| MigrationPlan.PlanBuildSystemChanges | sdk/migrator.py:251-290 | the loop builds exactly the build changes |
| MigrationPlan.BuildChangesKept | sdk/migrator.py:256-288 | a build change exists iff its system is cmake, make or npm, with that system's edits |
| MigrationPlan.DependencyUpdates | sdk/migrator.py:297-311 | one update per dependency |
| MigrationPlan.DependencyUpdatesShape | sdk/migrator.py:297-311 | each update keeps name, version and kind; tensorflow, pytorch and opencv are to be checked for ARM wheels with a note, the others only verified |
| MigrationPlan.PlanDependencyUpdates | sdk/migrator.py:292-313 | the loop builds exactly the updates |
| MigrationPlan.TestingStrategyComparesTarget | sdk/migrator.py:315-336 | unit tests run on the target and on the x86-64 baseline |
| MigrationPlan.GroupIssuesByFile | sdk/migrator.py:73-78 | the dictionary loop yields the first-seen file order and each file's issues in issue order |
| MigrationPlan.CreatePlan | sdk/migrator.py:48-104 | the plan's target, issue total, steps, build and dependency follow-ups, testing strategy and effort are those of the scan |
| Execution.ApplyAll | sdk/migrator.py:391-398 | rewriting never changes the number of lines |
| Execution.ApplyAllPerLine | sdk/migrator.py:391-398 | each line is rewritten by exactly the landing changes aimed at it, in plan order |
| Execution.UntouchedLine | sdk/migrator.py:391-398 | a line no landing change targets is left as it was |
| Execution.LandedAtMostHigh | sdk/migrator.py:391-398 | the applied count is at most the high-confidence count, equal iff every high change's line is in range |
| Execution.WarningsAndHighCover | sdk/migrator.py:391-402 | every change is either high confidence or warned about, never both |
| Execution.ApplyChanges | sdk/migrator.py:391-402 | the in-place loop rewrites the lines as specified, counts the changes that land and warns once per skipped change |
| Execution.StepOutcomeCases | sdk/migrator.py:366-417 | a step succeeds iff it is not a file step or its file exists and (dry run or readable); failure carries an error, a missing file "File not found"; a dry run warns nothing |
| Execution.FilesAfterKeepsOthers | sdk/migrator.py:385-411 | a step touches no file but its own, and a dry run touches and writes nothing |
| Execution.RunNamesSteps | sdk/migrator.py:136-139 | result k belongs to step k |
| Execution.DryRunLeavesFiles | sdk/migrator.py:408-411 | a dry run leaves every file as it was and writes nothing |
| Execution.RunWritesAtMost | sdk/migrator.py:405-406 | a run writes at most once per step |
| Execution.RunShape | sdk/migrator.py:135-153 | result k belongs to step k, no file appears or disappears, and a dry run changes and writes nothing |
| Execution.ApplyAtMostDryRun | sdk/migrator.py:391-411 | for every step, a real run applies at most what a dry run counts |
| Execution.SameFileSameOutcome | sdk/migrator.py:376-415 | a step's outcome depends only on its own file |
| Execution.RunUntouched | sdk/migrator.py:135-153 | a file no step names is left as it was |
| Execution.RunIndependent | sdk/migrator.py:135-153 | when steps name distinct files, each step's result is what it would be alone on the original files |
| Execution.PlanStepsDistinct | sdk/migrator.py:73-85 | the planner's steps name distinct files |
| Execution.DryRunSucceeds | sdk/migrator.py:376-383 | when every step's file exists, a dry run completes every step |
| Execution.PlatformGuardRewritten | examples/cpp-simd/platform.h:5 | `#ifdef __x86_64__` on line 5 is planned at high confidence and becomes the `__aarch64__` guard, no other line changing |
| Execution.OnlyTargetLine | sdk/migrator.py:391-398 | a landing change whose text leads its line rewrites that line alone |
| Execution.VectorAddSkipped | examples/cpp-simd/math_utils.cpp:13 | `_mm_add_ps` on line 13 is planned as `vaddq_f32` at medium confidence, so a real run leaves the file alone and warns about line 13 |
| Execution.SkippedAlone | sdk/migrator.py:399-402 | a change that is not high confidence leaves the lines alone and gives one warning naming its line |
| Execution.BuildResultsAt | sdk/migrator.py:419-427 | one successful result per build change, with its edit count, or 0 in a dry run |
| Execution.DependencyResultsAt | sdk/migrator.py:429-436 | one successful result per update, with its action, or "none" in a dry run |
| Execution.ExecuteBuildChanges | sdk/migrator.py:155-166 | the loop builds exactly the build results |
| Execution.ExecuteDependencyUpdates | sdk/migrator.py:168-179 | the loop builds exactly the dependency results |
| Execution.Stamp | sdk/migrator.py:356 | the timestamp has 15 characters with `_` between date and time |
| Execution.StampInjective | sdk/migrator.py:356 | different moments give different timestamps |
| Execution.BackupNamesDistinct | sdk/migrator.py:356-357 | backups taken at different moments have different names, all starting with the project name and `_backup_` |
| Execution.Project.CreateBackup | sdk/migrator.py:354-364 | a free backup name, made of project and moment, is taken and logged with a copy of the files less the ignored directories; a name already taken fails with nothing changed; no file changes either way |
| Execution.Project.ExecuteStep | sdk/migrator.py:366-417 | the step's result, the files after it and the writes it logs are those the step specifies |
| Execution.Project.ExecuteSteps | sdk/migrator.py:135-153 | the results, files and log follow the run of all steps in order; completed counts the successes and completed + failed is the number of steps |
| Execution.Project.Execute | sdk/migrator.py:106-184 | a real run whose backup name is taken raises with nothing changed; otherwise a real run logs the backup before any write and returns its name; a dry run changes nothing and has no backup; the counts, step, build and dependency results follow the plan |

## Left out

- File system and I/O are not modelled. Reading a file becomes a function parameter or a `FileContent` value, and writing becomes a log entry. Directory walking is a tree value, and `shutil.copytree` is a map copy without the ignored directories. The backup's parent directory is not modelled; only its name is.
- A failure while writing a rewritten file is not modelled. A read failure is modelled, as `ReadError`.
- The regular-expression engine is a parameter. Only the three literal patterns are searched concretely.
- `json.load` and `toml.load` are not modelled. The npm and Cargo parsers start from the parsed dictionaries.
- The clock is not modelled. `created_at`, `executed_at` and `ScanTime` are left out, and the backup moment is a parameter. Years before 1000 are not modelled, because `%Y` would then print fewer than four digits.
- Logging, verbose warnings and the `success_rate` log line are left out.
- `execute`'s `except` branches are left out. They catch a malformed plan dictionary, such as a missing key, and such a plan cannot be built as a typed `Plan`.
- Go `bufio.Scanner` is modelled as a plain line split. Its error on a line longer than 64 KiB appears as a manifest that is interrupted or unreadable, whose records Go drops, and as a source file that does not read (`GoScanner.LineReader` gives `None`), whose partial issues `Scan` drops as Go does. The 64 KiB bound itself is not modelled: which lines exceed it is part of the reader parameter.
- Python's universal newlines are not modelled: lines are split at `\n` only, so a lone `\r` does not end a line. A `\r` before `\n` is stripped away like any other whitespace.
- GoScanner.PinnedAgrees, GoScanner.MinimumKeepsOperator and GoScanner.GoRequirementSkipped promise agreement only for lines without information separators and with a single operator. GoScanner.SeparatorLineDiverges, GoScanner.RepeatedPinDiverges and GoScanner.RepeatedMinimumDiverges show the lines where the scanners differ.
- A Go `filepath.Walk` error aborting the scan is not modelled.
- The order of Go map iteration (the pattern table, the build patterns) is a parameter, required to be a permutation of the literal table. Results are proved to be independent of it up to order. For the pattern table any permutation is allowed, while Go varies only the order of the categories.
- The recommendation glyphs of the Go source are taken as the code points its text holds.
- MigrationPlan.EstimateEffort: compares `10 * high >= 7 * total` instead of the float `high >= total * 0.7`. The two agree for the totals up to 10 that reach the comparison.
- `Migrator.__init__`'s `migration_strategies` table is not modelled, because nothing in the core reads it. The `_migrate_*` methods it names are not defined in sdk/migrator.py, so as written, building a `Migrator` would raise `AttributeError`. The model starts from a migrator that exists.
- sdk/optimizer.py, sdk/tester.py, sdk/compiler.py, sdk/core.py and the `cli/cmd` commands are not part of this model.
