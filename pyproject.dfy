/** The project-wide half of the Python scanner (sdk/scanner.py): the build
    system records, the four dependency manifests, the recommendations and
    the `scan` loop that ties them to the per-file scan of `PyScanner`. */
module PyProject {
  import opened Text
  import opened OrderedDict
  import opened Report
  import opened PyScanner

  // ---------------------------------------------------------------------
  // requirements.txt

  /** One line of requirements.txt. Blank and `#` lines give nothing; `==`
      is looked for before `>=`, and the line is cut at the first
      occurrence; a line with neither is a name with version `*`. */
  function RequirementLine(raw: string): (r: Option<Dependency>)
    ensures r.Some? ==> r.value.kind == "python" && r.value.armCompatible == Unknown
  {
    var line := Strip(Python, raw);
    if line == [] || StartsWith(line, "#") then None
    else if Contains(line, "==") then
      var parts := SplitFirst(line, "==");
      Some(Dependency(Strip(Python, parts.0), Strip(Python, parts.1), "python", Unknown))
    else if Contains(line, ">=") then
      var parts := SplitFirst(line, ">=");
      Some(Dependency(Strip(Python, parts.0), Strip(Python, parts.1), "python", Unknown))
    else
      Some(Dependency(Strip(Python, line), Strip(Python, "*"), "python", Unknown))
  }

  /** Exactly the blank lines and the `#` comment lines give no record. */
  lemma RequirementSkipped(raw: string)
    ensures RequirementLine(raw).None? <==> Strip(Python, raw) == [] || StartsWith(Strip(Python, raw), "#")
  {
  }

  /** Names and versions carry no surrounding whitespace. */
  lemma RequirementStripped(raw: string)
    requires RequirementLine(raw).Some?
    ensures var d := RequirementLine(raw).value; Strip(Python, d.name) == d.name && Strip(Python, d.version) == d.version
  {
    var line := Strip(Python, raw);
    if Contains(line, "==") {
      StripIdempotent(Python, SplitFirst(line, "==").0);
      StripIdempotent(Python, SplitFirst(line, "==").1);
    } else if Contains(line, ">=") {
      StripIdempotent(Python, SplitFirst(line, ">=").0);
      StripIdempotent(Python, SplitFirst(line, ">=").1);
    } else {
      StripIdempotent(Python, line);
      StripIdempotent(Python, "*");
    }
  }

  /** A requirement name as these round trips use it: stripped, not a
      comment, and free of `=`. */
  predicate PlainName(name: string) {
    name != [] && Trimmed(Python, name) && name[0] != '#' && '=' !in name
  }

  lemma PlainLine(name: string, rest: string)
    requires PlainName(name) && (rest == [] || !IsSpace(Python, rest[|rest| - 1]))
    ensures Trimmed(Python, name + rest) && (name + rest)[0] == name[0]
    ensures !StartsWith(name + rest, "#")
  {
    var line := name + rest;
    assert line[0] == name[0];
    assert line[|line| - 1] == if rest == [] then name[|name| - 1] else rest[|rest| - 1];
  }

  /** The first two-character operator `op` (whose first character is not
      `=`) in `name + op + version` is the one after the name. */
  lemma OperatorAfterName(name: string, op: string, version: string)
    requires '=' !in name && |op| == 2 && op[1] == '='
    ensures OccursAt(name + op + version, op, |name|)
    ensures forall j :: 0 <= j < |name| ==> !OccursAt(name + op + version, op, j)
  {
    var line := name + op + version;
    assert line[|name|..|name| + 2] == op;
    forall j | 0 <= j < |name| ensures !OccursAt(line, op, j) {
      assert line[j..j + 2][1] == line[j + 1];
      if j + 1 < |name| {
        assert line[j + 1] == name[j + 1];
      } else {
        assert line[j + 1] == op[0];
      }
    }
  }

  lemma SplitAtName(name: string, op: string, version: string)
    requires '=' !in name && |op| == 2 && op[1] == '='
    ensures Contains(name + op + version, op)
    ensures SplitFirst(name + op + version, op) == (name, version)
  {
    var line := name + op + version;
    OperatorAfterName(name, op, version);
    var i := IndexOf(line, op).value;
    assert i == |name|;
    assert line[..i] == name;
    assert line[i + 2..] == version;
  }

  /** A stripped, non-comment line cut at its first `==`. */
  lemma PinnedLine(line: string, name: string, version: string)
    requires Trimmed(Python, line) && line != [] && !StartsWith(line, "#")
    requires Contains(line, "==") && SplitFirst(line, "==") == (name, version)
    requires Trimmed(Python, name) && Trimmed(Python, version)
    ensures RequirementLine(line) == Some(Dependency(name, version, "python", Unknown))
  {
    StripNoSpace(Python, line);
    StripNoSpace(Python, name);
    StripNoSpace(Python, version);
  }

  /** A stripped, non-comment line without `==`, cut at its first `>=`. */
  lemma MinimumLine(line: string, name: string, version: string)
    requires Trimmed(Python, line) && line != [] && !StartsWith(line, "#") && !Contains(line, "==")
    requires Contains(line, ">=") && SplitFirst(line, ">=") == (name, version)
    requires Trimmed(Python, name) && Trimmed(Python, version)
    ensures RequirementLine(line) == Some(Dependency(name, version, "python", Unknown))
  {
    StripNoSpace(Python, line);
    StripNoSpace(Python, name);
    StripNoSpace(Python, version);
  }

  /** `name==version` reads back as that pin, whatever the version holds
      (so `a==1==2` pins version `1==2`). */
  lemma RequirementPinnedRoundTrip(name: string, version: string)
    requires PlainName(name) && Trimmed(Python, version)
    ensures RequirementLine(name + "==" + version) == Some(Dependency(name, version, "python", Unknown))
  {
    var line := name + "==" + version;
    assert Trimmed(Python, line) && !StartsWith(line, "#") && line != [] by {
      assert line == name + ("==" + version);
      PlainLine(name, "==" + version);
    }
    SplitAtName(name, "==", version);
    PinnedLine(line, name, version);
  }

  lemma NoPinInMinimum(name: string, version: string)
    requires '=' !in name && '=' !in version
    ensures !Contains(name + ">=" + version, "==")
  {
    var line := name + ">=" + version;
    forall j | 0 <= j ensures !OccursAt(line, "==", j) {
      if j + 2 <= |line| {
        assert line[j..j + 2][0] == line[j];
        if j < |name| {
          assert line[j] == name[j];
        } else if j == |name| {
          assert line[j] == '>';
        } else {
          assert line[j..j + 2][1] == line[j + 1];
          assert line[j + 1] == if j + 1 == |name| + 1 then '=' else version[j + 1 - |name| - 2];
          assert line[j] == if j == |name| + 1 then '=' else version[j - |name| - 2];
        }
      }
    }
  }

  /** `name>=version` reads back as that minimum, the version without its
      operator. */
  lemma RequirementMinimumRoundTrip(name: string, version: string)
    requires PlainName(name) && Trimmed(Python, version) && '=' !in version
    ensures RequirementLine(name + ">=" + version) == Some(Dependency(name, version, "python", Unknown))
  {
    var line := name + ">=" + version;
    assert Trimmed(Python, line) && !StartsWith(line, "#") && line != [] by {
      assert line == name + (">=" + version);
      PlainLine(name, ">=" + version);
    }
    NoPinInMinimum(name, version);
    SplitAtName(name, ">=", version);
    MinimumLine(line, name, version);
  }

  lemma NoEqualsNoOperator(name: string, op: string)
    requires '=' !in name && |op| == 2 && op[1] == '='
    ensures !Contains(name, op)
  {
    forall j | 0 <= j ensures !OccursAt(name, op, j) {
      if j + 2 <= |name| {
        assert name[j..j + 2][1] == name[j + 1];
      }
    }
  }

  /** A stripped, non-comment line with neither operator. */
  lemma BareLine(line: string)
    requires Trimmed(Python, line) && line != [] && !StartsWith(line, "#")
    requires !Contains(line, "==") && !Contains(line, ">=")
    ensures RequirementLine(line) == Some(Dependency(line, "*", "python", Unknown))
  {
    StripNoSpace(Python, line);
    StripNoSpace(Python, "*");
  }

  /** A bare name reads back with version `*`. */
  lemma RequirementBareRoundTrip(name: string)
    requires PlainName(name)
    ensures RequirementLine(name) == Some(Dependency(name, "*", "python", Unknown))
  {
    assert !StartsWith(name, "#") by {
      PlainLine(name, []);
      assert name + [] == name;
    }
    NoEqualsNoOperator(name, "==");
    NoEqualsNoOperator(name, ">=");
    BareLine(name);
  }

  /** The records of the lines of requirements.txt, in line order. */
  function RequirementRecords(lines: seq<string>): (r: seq<Dependency>)
    ensures |r| <= |lines|
    ensures forall i :: 0 <= i < |r| ==> r[i].kind == "python" && r[i].armCompatible == Unknown
  {
    if lines == [] then []
    else
      var front := RequirementRecords(lines[..|lines| - 1]);
      match RequirementLine(lines[|lines| - 1])
      case None => front
      case Some(d) => front + [d]
  }

  /** The records of a longer list of lines begin with those of its first
      lines. */
  lemma {:induction false} RequirementRecordsAppend(a: seq<string>, b: seq<string>)
    ensures RequirementRecords(a + b) == RequirementRecords(a) + RequirementRecords(b)
    decreases |b|
  {
    if b == [] {
      assert a + b == a;
    } else {
      var front := b[..|b| - 1];
      RequirementRecordsAppend(a, front);
      assert (a + b)[..|a + b| - 1] == a + front;
      assert (a + b)[|a + b| - 1] == b[|b| - 1];
    }
  }

  /** The lines `for line in f` hands out: every line of a file read to its
      end, only the complete lines when a read error interrupts it, none
      when it is missing or cannot be opened. */
  function YieldedLines(m: Manifest<string>): seq<string> {
    match m
    case Parsed(text) => TextLines(text)
    case Interrupted(text) => CompleteLines(text)
    case _ => []
  }

  /** A read error keeps the records of the lines read before it: they are
      the first records the whole file gives. */
  lemma InterruptedRecordsPrefix(text: string, rest: string)
    ensures RequirementRecords(YieldedLines(Interrupted(text))) <= RequirementRecords(YieldedLines(Parsed(text + rest)))
  {
    var lines := TextLines(text + rest);
    var done := CompleteLines(text);
    CompleteLinesPrefix(text, rest);
    assert lines == done + lines[|done|..];
    RequirementRecordsAppend(done, lines[|done|..]);
  }

  /** `_scan_python_dependencies` over the lines the file yields
      (`YieldedLines`): one record per requirement line, and the records
      built so far are kept when a read error ends the loop. */
  method ScanPythonDependencies(lines: seq<string>) returns (deps: seq<Dependency>)
    ensures deps == RequirementRecords(lines)
  {
    deps := [];
    for i := 0 to |lines|
      invariant deps == RequirementRecords(lines[..i])
    {
      assert lines[..i + 1][..i] == lines[..i];
      var parsed := RequirementLine(lines[i]);
      if parsed.Some? {
        deps := deps + [parsed.value];
      }
    }
    assert lines[..|lines|] == lines;
  }

  // ---------------------------------------------------------------------
  // go.mod

  /** The first position at or after `i` that is not whitespace. */
  function SkipSpace(s: string, i: nat): (j: nat)
    requires i <= |s|
    decreases |s| - i
    ensures i <= j <= |s| && (j == |s| || !IsSpace(Python, s[j]))
    ensures forall k :: i <= k < j ==> IsSpace(Python, s[k])
  {
    if i < |s| && IsSpace(Python, s[i]) then SkipSpace(s, i + 1) else i
  }

  /** A match of `require\s+\((.*?)\)` starting at `i`: where its group
      starts and where the closing parenthesis stands. The group runs to the
      first `)` after the opening one. */
  function RequireMatchAt(s: string, i: nat): (r: Option<(nat, nat)>)
    requires i <= |s|
    ensures r.Some? ==> OccursAt(s, "require", i) && i + 8 < r.value.0 <= r.value.1 < |s|
    ensures r.Some? ==> s[r.value.0 - 1] == '(' && s[r.value.1] == ')'
    ensures r.Some? ==> forall k :: r.value.0 <= k < r.value.1 ==> s[k] != ')'
  {
    if !OccursAt(s, "require", i) then None
    else
      var j := SkipSpace(s, i + 7);
      if j == i + 7 || j == |s| || s[j] != '(' then None
      else
        match IndexFrom(s, ")", j + 1)
        case None => None
        case Some(c) =>
          assert s[c..c + 1] == ")";
          assert forall k :: j + 1 <= k < c ==> s[k..k + 1] == [s[k]] && !OccursAt(s, ")", k);
          Some((j + 1, c))
  }

  /** `re.findall(r"require\s+\((.*?)\)", content, re.DOTALL)`: the groups of
      the non-overlapping matches, leftmost first. No group holds `)`. */
  function RequireBlocks(s: string, from: nat): (r: seq<string>)
    requires from <= |s|
    decreases |s| - from
    ensures forall b :: b in r ==> ')' !in b
  {
    if from == |s| then []
    else
      match RequireMatchAt(s, from)
      case Some(span) =>
        var block := s[span.0..span.1];
        assert forall k :: 0 <= k < |block| ==> block[k] == s[span.0 + k];
        [block] + RequireBlocks(s, span.1 + 1)
      case None => RequireBlocks(s, from + 1)
  }

  /** The dependencies the lines of one block name, in line order. */
  function RequireLineRecords(lines: seq<string>): seq<Dependency>
  {
    if lines == [] then []
    else
      var front := RequireLineRecords(lines[..|lines| - 1]);
      match RequireLine(Python, lines[|lines| - 1])
      case None => front
      case Some(d) => front + [d]
  }

  /** The dependencies of several blocks, block by block. */
  function BlockRecords(blocks: seq<string>): seq<Dependency> {
    if blocks == [] then []
    else BlockRecords(blocks[..|blocks| - 1]) + RequireLineRecords(SplitAll(Strip(Python, blocks[|blocks| - 1]), "\n"))
  }

  /** A block gives at most one record per line, each a go.mod record. */
  lemma {:induction false} RequireLineRecordsAreGo(lines: seq<string>)
    ensures |RequireLineRecords(lines)| <= |lines|
    ensures forall i :: 0 <= i < |RequireLineRecords(lines)| ==> GoRecord(Python, RequireLineRecords(lines)[i])
  {
    if lines != [] {
      RequireLineRecordsAreGo(lines[..|lines| - 1]);
      RequireLineIsGo(Python, lines[|lines| - 1]);
    }
  }

  /** Every record the require blocks give is a go.mod record. */
  lemma {:induction false} BlockRecordsAreGo(blocks: seq<string>)
    ensures forall i :: 0 <= i < |BlockRecords(blocks)| ==> GoRecord(Python, BlockRecords(blocks)[i])
  {
    if blocks != [] {
      var front := BlockRecords(blocks[..|blocks| - 1]);
      var last := RequireLineRecords(SplitAll(Strip(Python, blocks[|blocks| - 1]), "\n"));
      BlockRecordsAreGo(blocks[..|blocks| - 1]);
      RequireLineRecordsAreGo(SplitAll(Strip(Python, blocks[|blocks| - 1]), "\n"));
      assert BlockRecords(blocks) == front + last;
    }
  }

  /** The lines of one block, record by record. */
  method LinesDependencies(lines: seq<string>) returns (found: seq<Dependency>)
    ensures found == RequireLineRecords(lines)
  {
    found := [];
    for i := 0 to |lines|
      invariant found == RequireLineRecords(lines[..i])
    {
      assert lines[..i + 1][..i] == lines[..i] && lines[..i + 1][i] == lines[i];
      var parsed := RequireLine(Python, lines[i]);
      if parsed.Some? {
        found := found + [parsed.value];
      }
    }
    assert lines[..|lines|] == lines;
  }

  /** One require block: its stripped text split into lines. */
  method BlockDependencies(block: string) returns (found: seq<Dependency>)
    ensures found == RequireLineRecords(SplitAll(Strip(Python, block), "\n"))
  {
    found := LinesDependencies(SplitAll(Strip(Python, block), "\n"));
  }

  /** The records of the blocks, block by block. */
  method BlocksDependencies(blocks: seq<string>) returns (deps: seq<Dependency>)
    ensures deps == BlockRecords(blocks)
  {
    deps := [];
    for b := 0 to |blocks|
      invariant deps == BlockRecords(blocks[..b])
    {
      assert blocks[..b + 1][..b] == blocks[..b] && blocks[..b + 1][b] == blocks[b];
      var found := BlockDependencies(blocks[b]);
      deps := deps + found;
    }
    assert blocks[..|blocks|] == blocks;
  }

  /** `_scan_go_dependencies`: every line of every require block. */
  method ScanGoDependencies(content: string) returns (deps: seq<Dependency>)
    ensures deps == BlockRecords(RequireBlocks(content, 0))
  {
    deps := BlocksDependencies(RequireBlocks(content, 0));
  }

  // ---------------------------------------------------------------------
  // package.json and Cargo.toml after parsing

  /** The records of a dict's entries, in its order. */
  function DictRecords(d: Dict<string>, kind: string): (r: seq<Dependency>)
    ensures |r| == |d|
    ensures forall i :: 0 <= i < |d| ==> r[i] == Dependency(d[i].0, d[i].1, kind, Unknown)
  {
    if d == [] then [] else DictRecords(d[..|d| - 1], kind) + [Dependency(d[|d| - 1].0, d[|d| - 1].1, kind, Unknown)]
  }

  /** `all_deps`: the dependencies, then the dev dependencies over them. */
  function NpmAll(p: NpmPackage): Dict<string> {
    Update(Update([], FromPairs(p.dependencies)), FromPairs(p.devDependencies))
  }

  /** `_scan_npm_dependencies` after `json.load`: one record per entry of
      `all_deps`. */
  method ScanNpmDependencies(p: NpmPackage) returns (deps: seq<Dependency>)
    ensures deps == DictRecords(NpmAll(p), "npm")
  {
    var all := NpmAll(p);
    deps := [];
    for i := 0 to |all|
      invariant deps == DictRecords(all[..i], "npm")
    {
      assert all[..i + 1][..i] == all[..i];
      deps := deps + [Dependency(all[i].0, all[i].1, "npm", Unknown)];
    }
    assert all[..|all|] == all;
  }

  /** `all_deps` never repeats a name. */
  lemma NpmAllDistinct(p: NpmPackage)
    ensures DistinctKeys(NpmAll(p))
  {
    var deps := FromPairs(p.dependencies);
    FromPairsLookup(p.dependencies, "");
    FromPairsLookup(p.devDependencies, "");
    UpdateDistinct([], deps);
    UpdateDistinct(Update([], deps), FromPairs(p.devDependencies));
  }

  /** `all_deps` names exactly the packages of either section. */
  lemma NpmAllKeys(p: NpmPackage)
    ensures forall n :: n in Keys(NpmAll(p)) <==> n in Keys(p.dependencies) || n in Keys(p.devDependencies)
  {
    var deps := FromPairs(p.dependencies);
    FromPairsLookup(p.dependencies, "");
    FromPairsLookup(p.devDependencies, "");
    UpdateKeysPrefix([], deps);
    UpdateKeysPrefix(Update([], deps), FromPairs(p.devDependencies));
  }

  /** A package listed under `devDependencies` takes its version from there;
      any other takes the last version `dependencies` gives it. */
  lemma NpmAllLookup(p: NpmPackage, n: string)
    ensures Lookup(NpmAll(p), n) == if n in Keys(p.devDependencies) then LastValue(p.devDependencies, n)
                                    else LastValue(p.dependencies, n)
  {
    var deps := FromPairs(p.dependencies);
    var dev := FromPairs(p.devDependencies);
    UpdateLookup(Update([], deps), dev, n);
    UpdateLookup([], deps, n);
    FromPairsLookup(p.dependencies, n);
    FromPairsLookup(p.devDependencies, n);
    LastValueDistinct(dev, n);
    LastValueDistinct(deps, n);
  }

  /** The npm records name each package once, every package of either
      section, and a development dependency's version wins over a runtime
      one. */
  lemma NpmDevOverrides(p: NpmPackage)
    ensures var r := DictRecords(NpmAll(p), "npm");
      && (forall i, j :: 0 <= i < j < |r| ==> r[i].name != r[j].name)
      && (forall n :: (exists i :: 0 <= i < |r| && r[i].name == n) <==> n in Keys(p.dependencies) || n in Keys(p.devDependencies))
      && (forall i :: 0 <= i < |r| ==>
            Some(r[i].version) == if r[i].name in Keys(p.devDependencies) then LastValue(p.devDependencies, r[i].name)
                                  else LastValue(p.dependencies, r[i].name))
  {
    var all := NpmAll(p);
    var r := DictRecords(all, "npm");
    NpmAllDistinct(p);
    NpmAllKeys(p);
    forall n ensures (exists i :: 0 <= i < |r| && r[i].name == n) <==> n in Keys(all) {
      if n in Keys(all) {
        var i :| 0 <= i < |all| && Keys(all)[i] == n;
        assert r[i].name == n;
      }
    }
    forall i | 0 <= i < |r|
      ensures Some(r[i].version) == if r[i].name in Keys(p.devDependencies) then LastValue(p.devDependencies, r[i].name)
                                     else LastValue(p.dependencies, r[i].name)
    {
      LookupDistinctAt(all, i);
      NpmAllLookup(p, all[i].0);
    }
  }


  /** The version a Cargo.toml dependency value gives; `None` for a value
      that is neither a string nor a table, on which `config.get` raises. */
  function CargoVersion(spec: CargoSpec): Option<string> {
    match spec
    case VersionText(v) => Some(v)
    case Table(key) => if key.Some? then key else Some("*")
    case OtherValue => None
  }

  /** The Cargo records: one per dependency, in table order, until the first
      value of another kind, where the exception ends the scan and the
      records so far are returned. */
  function CargoRecords(deps: seq<(string, CargoSpec)>): (r: seq<Dependency>)
    ensures |r| <= |deps|
    ensures forall i :: 0 <= i < |r| ==>
      Some(r[i].version) == CargoVersion(deps[i].1)
      && r[i] == Dependency(deps[i].0, r[i].version, "cargo", Unknown)
    ensures |r| < |deps| ==> deps[|r|].1 == OtherValue
    ensures (forall i :: 0 <= i < |deps| ==> deps[i].1 != OtherValue) ==> |r| == |deps|
  {
    if deps == [] then []
    else
      match CargoVersion(deps[0].1)
      case None => []
      case Some(v) =>
        var rest := CargoRecords(deps[1..]);
        [Dependency(deps[0].0, v, "cargo", Unknown)] + rest
  }

  /** `_scan_cargo_dependencies` after `toml.load`. */
  method ScanCargoDependencies(deps: seq<(string, CargoSpec)>) returns (r: seq<Dependency>)
    ensures r == CargoRecords(deps)
  {
    r := [];
    var i := 0;
    while i < |deps|
      invariant 0 <= i <= |deps|
      invariant CargoRecords(deps) == r + CargoRecords(deps[i..])
    {
      var version := CargoVersion(deps[i].1);
      if version.None? {
        return;
      }
      assert deps[i..][1..] == deps[i + 1..];
      r := r + [Dependency(deps[i].0, version.value, "cargo", Unknown)];
      i := i + 1;
    }
  }

  // ---------------------------------------------------------------------
  // All manifests

  function NpmPart(m: Manifest<NpmPackage>): seq<Dependency> {
    if m.Parsed? then DictRecords(NpmAll(m.contents), "npm") else []
  }

  function PythonPart(m: Manifest<string>): seq<Dependency> {
    RequirementRecords(YieldedLines(m))
  }

  function CargoPart(m: Manifest<seq<(string, CargoSpec)>>): seq<Dependency> {
    if m.Parsed? then CargoRecords(m.contents) else []
  }

  function GoPart(m: Manifest<string>): seq<Dependency> {
    if m.Parsed? then BlockRecords(RequireBlocks(m.contents, 0)) else []
  }

  /** The records of all four manifests: npm, then Python, Cargo and Go. A
      manifest that is missing or cannot be read or parsed adds nothing. */
  function Dependencies(m: Manifests): seq<Dependency> {
    NpmPart(m.packageJson) + PythonPart(m.requirementsTxt) + CargoPart(m.cargoToml) + GoPart(m.goMod)
  }

  function KindRank(kind: string): nat {
    if kind == "npm" then 0 else if kind == "python" then 1 else if kind == "cargo" then 2 else 3
  }

  predicate AllOfRank(part: seq<Dependency>, rank: nat) {
    forall i :: 0 <= i < |part| ==> KindRank(part[i].kind) == rank
  }

  lemma ConcatRanked(a: seq<Dependency>, b: seq<Dependency>, c: seq<Dependency>, g: seq<Dependency>)
    requires AllOfRank(a, 0) && AllOfRank(b, 1) && AllOfRank(c, 2) && AllOfRank(g, 3)
    ensures var d := a + b + c + g;
      forall i, j :: 0 <= i < j < |d| ==> KindRank(d[i].kind) <= KindRank(d[j].kind)
  {
    var d := a + b + c + g;
    forall i | 0 <= i < |d|
      ensures KindRank(d[i].kind) == if i < |a| then 0 else if i < |a| + |b| then 1 else if i < |a| + |b| + |c| then 2 else 3
    {
      if i < |a| {
        assert d[i] == a[i];
      } else if i < |a| + |b| {
        assert d[i] == b[i - |a|];
      } else if i < |a| + |b| + |c| {
        assert d[i] == c[i - |a| - |b|];
      } else {
        assert d[i] == g[i - |a| - |b| - |c|];
      }
    }
  }

  lemma NpmRanked(m: Manifest<NpmPackage>)
    ensures AllOfRank(NpmPart(m), 0)
  {
  }

  lemma PythonRanked(m: Manifest<string>)
    ensures AllOfRank(PythonPart(m), 1)
  {
  }

  lemma CargoRanked(m: Manifest<seq<(string, CargoSpec)>>)
    ensures AllOfRank(CargoPart(m), 2)
  {
  }

  lemma GoRecordsRanked(g: seq<Dependency>)
    requires forall i :: 0 <= i < |g| ==> GoRecord(Python, g[i])
    ensures AllOfRank(g, 3)
  {
    forall i | 0 <= i < |g| ensures KindRank(g[i].kind) == 3 {
      assert GoRecord(Python, g[i]);
    }
  }

  lemma BlocksRanked(blocks: seq<string>)
    ensures AllOfRank(BlockRecords(blocks), 3)
  {
    BlockRecordsAreGo(blocks);
    GoRecordsRanked(BlockRecords(blocks));
  }

  lemma GoRanked(m: Manifest<string>)
    ensures AllOfRank(GoPart(m), 3)
  {
    if m.Parsed? {
      BlocksRanked(RequireBlocks(m.contents, 0));
    }
  }

  /** The records come grouped by manifest, in the order the scanner visits
      the manifests. */
  lemma DependenciesGrouped(m: Manifests)
    ensures var d := Dependencies(m);
      forall i, j :: 0 <= i < j < |d| ==> KindRank(d[i].kind) <= KindRank(d[j].kind)
  {
    NpmRanked(m.packageJson);
    PythonRanked(m.requirementsTxt);
    CargoRanked(m.cargoToml);
    GoRanked(m.goMod);
    ConcatRanked(NpmPart(m.packageJson), PythonPart(m.requirementsTxt), CargoPart(m.cargoToml), GoPart(m.goMod));
  }

  /** `_scan_dependencies`. */
  method ScanDependencies(m: Manifests) returns (deps: seq<Dependency>)
    ensures deps == Dependencies(m)
  {
    var npm: seq<Dependency> := [];
    if m.packageJson.Parsed? {
      npm := ScanNpmDependencies(m.packageJson.contents);
    }
    var python: seq<Dependency> := [];
    if !m.requirementsTxt.Absent? {
      python := ScanPythonDependencies(YieldedLines(m.requirementsTxt));
    }
    var cargo: seq<Dependency> := [];
    if m.cargoToml.Parsed? {
      cargo := ScanCargoDependencies(m.cargoToml.contents);
    }
    var go: seq<Dependency> := [];
    if m.goMod.Parsed? {
      go := ScanGoDependencies(m.goMod.contents);
    }
    assert npm == NpmPart(m.packageJson) && python == PythonPart(m.requirementsTxt);
    assert cargo == CargoPart(m.cargoToml) && go == GoPart(m.goMod);
    deps := npm + python + cargo + go;
  }

  // ---------------------------------------------------------------------
  // Build systems

  /** The build files looked for, with the system each indicates. */
  const BuildPatterns: seq<(string, string)> := [
    ("CMakeLists.txt", "cmake"), ("Makefile", "make"), ("*.mk", "make"),
    ("build.gradle", "gradle"), ("pom.xml", "maven"), ("package.json", "npm"),
    ("Cargo.toml", "cargo"), ("go.mod", "go_modules"), ("*.pro", "qmake")
  ]

  /** A glob pattern of the table against an entry name: `*` followed by a
      suffix, or an exact name. */
  predicate GlobMatch(pattern: string, name: string) {
    if |pattern| > 0 && pattern[0] == '*' then EndsWith(name, pattern[1..]) else name == pattern
  }

  /** A record for each path whose last component matches. */
  function MatchingRecords(paths: seq<seq<string>>, pattern: string, system: string): (r: seq<BuildSystem>)
    requires forall i :: 0 <= i < |paths| ==> |paths[i]| > 0
    ensures |r| <= |paths|
    ensures forall i :: 0 <= i < |r| ==> r[i].system == system && r[i].needsReview
  {
    if paths == [] then []
    else
      var p := paths[0];
      var rest := MatchingRecords(paths[1..], pattern, system);
      (if GlobMatch(pattern, p[|p| - 1]) then [BuildSystem(Join(p, "/"), system, true)] else []) + rest
  }

  /** Every path whose last component matches has its record. */
  lemma {:induction false} MatchingRecordsContain(paths: seq<seq<string>>, pattern: string, system: string, i: nat)
    requires forall i :: 0 <= i < |paths| ==> |paths[i]| > 0
    requires i < |paths| && GlobMatch(pattern, paths[i][|paths[i]| - 1])
    ensures BuildSystem(Join(paths[i], "/"), system, true) in MatchingRecords(paths, pattern, system)
    decreases i
  {
    if i > 0 {
      assert paths[1..][i - 1] == paths[i];
      MatchingRecordsContain(paths[1..], pattern, system, i - 1);
    }
  }

  /** A record is made only for a path whose last component matches. */
  lemma {:induction false} MatchingRecordsSound(paths: seq<seq<string>>, pattern: string, system: string, x: BuildSystem)
    requires forall i :: 0 <= i < |paths| ==> |paths[i]| > 0
    requires x in MatchingRecords(paths, pattern, system)
    ensures exists i :: 0 <= i < |paths| && GlobMatch(pattern, paths[i][|paths[i]| - 1]) && x.file == Join(paths[i], "/")
    decreases |paths|
  {
    var p := paths[0];
    if !(GlobMatch(pattern, p[|p| - 1]) && x.file == Join(p, "/")) {
      MatchingRecordsSound(paths[1..], pattern, system, x);
      var i :| 0 <= i < |paths[1..]| && GlobMatch(pattern, paths[1..][i][|paths[1..][i]| - 1]) && x.file == Join(paths[1..][i], "/");
      assert paths[1..][i] == paths[i + 1];
    }
  }

  /** `glob(pattern)` in the project directory followed by `rglob(pattern)`
      under it. */
  function PatternRecords(tree: seq<Node>, pattern: string, system: string): seq<BuildSystem> {
    MatchingRecords(TopLevel(tree), pattern, system) + MatchingRecords(EntriesOf(tree, []), pattern, system)
  }

  /** The records of every pattern of the table, pattern by pattern. */
  function BuildRecords(tree: seq<Node>, patterns: seq<(string, string)>): seq<BuildSystem> {
    Gather(patterns, (p: (string, string)) => PatternRecords(tree, p.0, p.1))
  }

  /** `_scan_build_systems`: every record it makes is marked for review. */
  method ScanBuildSystems(tree: seq<Node>) returns (r: seq<BuildSystem>)
    ensures r == BuildRecords(tree, BuildPatterns)
    ensures forall i :: 0 <= i < |r| ==> r[i].needsReview
  {
    r := [];
    for k := 0 to |BuildPatterns|
      invariant r == BuildRecords(tree, BuildPatterns[..k])
      invariant forall i :: 0 <= i < |r| ==> r[i].needsReview
    {
      assert BuildPatterns[..k + 1][..k] == BuildPatterns[..k];
      var (pattern, system) := BuildPatterns[k];
      var matches := MatchingRecords(TopLevel(tree), pattern, system);
      matches := matches + MatchingRecords(EntriesOf(tree, []), pattern, system);
      r := r + matches;
    }
    assert BuildPatterns[..|BuildPatterns|] == BuildPatterns;
  }

  lemma TopLevelMatched(tree: seq<Node>, i: nat, pattern: string, system: string)
    requires i < |tree| && GlobMatch(pattern, tree[i].name)
    ensures BuildSystem(tree[i].name, system, true) in MatchingRecords(TopLevel(tree), pattern, system)
    ensures BuildSystem(tree[i].name, system, true) in MatchingRecords(EntriesOf(tree, []), pattern, system)
  {
    var top := TopLevel(tree);
    var all := EntriesOf(tree, []);
    assert top[i] == [tree[i].name];
    assert Join(top[i], "/") == tree[i].name;
    MatchingRecordsContain(top, pattern, system, i);
    TopLevelInEntries(tree, i);
    var j :| 0 <= j < |all| && all[j] == top[i];
    assert all[j][|all[j]| - 1] == tree[i].name;
    MatchingRecordsContain(all, pattern, system, j);
  }

  /** An entry directly in the project directory is found by `glob` and
      again by `rglob`, so its record appears at least twice. */
  lemma TopLevelRecordedTwice(tree: seq<Node>, i: nat, patterns: seq<(string, string)>, k: nat)
    requires i < |tree| && k < |patterns| && GlobMatch(patterns[k].0, tree[i].name)
    ensures multiset(BuildRecords(tree, patterns))[BuildSystem(tree[i].name, patterns[k].1, true)] >= 2
  {
    var pattern := patterns[k].0;
    var system := patterns[k].1;
    var x := BuildSystem(tree[i].name, system, true);
    TopLevelMatched(tree, i, pattern, system);
    var a := MatchingRecords(TopLevel(tree), pattern, system);
    var b := MatchingRecords(EntriesOf(tree, []), pattern, system);
    assert multiset(a)[x] >= 1 && multiset(b)[x] >= 1;
    assert multiset(PatternRecords(tree, pattern, system))[x] >= 2 by {
      assert PatternRecords(tree, pattern, system) == a + b;
      assert multiset(a + b) == multiset(a) + multiset(b);
    }
    GatherCount(patterns, (p: (string, string)) => PatternRecords(tree, p.0, p.1), k, x);
  }

  // ---------------------------------------------------------------------
  // Recommendations

  /** The emoji that opens each kind of recommendation. */
  function Glyph(a: Advice): string {
    match a
    case NoIssues => "\U{2705} "
    case FoundIssues(_) => "\U{1F50D} "
    case HighSeverity(_) => "\U{26A0}\U{FE0F}  "
    case CMakeHint => "\U{1F4CB} "
    case MakeHint => "\U{1F4CB} "
    case DependencyCount(_) => "\U{1F4E6} "
  }

  function Render(advice: seq<Advice>): (r: seq<string>)
    ensures |r| == |advice| && forall i :: 0 <= i < |r| ==> r[i] == Glyph(advice[i]) + AdviceText(advice[i])
  {
    if advice == [] then [] else [Glyph(advice[0]) + AdviceText(advice[0])] + Render(advice[1..])
  }

  /** `_generate_recommendations`. */
  function Recommendations(issues: seq<Issue>, buildSystems: seq<BuildSystem>, deps: seq<Dependency>): seq<string> {
    var systems := Systems(buildSystems);
    Render(Advise(|issues|, CountHighSeverity(issues), "cmake" in systems, "make" in systems, |deps|))
  }

  const NothingFound: string := "\U{2705} " + "No obvious x86-specific code detected"

  /** The first rendered line is the nothing-found line exactly when the
      first piece of advice is `NoIssues`. */
  lemma RenderFirst(a: seq<Advice>)
    requires |a| >= 1
    ensures Render(a)[0] == NothingFound <==> a[0] == NoIssues
  {
    var line := Render(a)[0];
    assert line == Glyph(a[0]) + AdviceText(a[0]);
    if a[0] == NoIssues {
      assert line == NothingFound;
    } else {
      assert line[0] == Glyph(a[0])[0] != '\U{2705}';
      assert NothingFound[0] == '\U{2705}';
    }
  }

  /** There are one to five recommendations, and the first reports that no
      x86 code was found exactly when there are no issues. */
  lemma RecommendationsSummary(issues: seq<Issue>, buildSystems: seq<BuildSystem>, deps: seq<Dependency>)
    ensures var r := Recommendations(issues, buildSystems, deps);
      1 <= |r| <= 5 && (r[0] == NothingFound <==> |issues| == 0)
  {
    var systems := Systems(buildSystems);
    var a := Advise(|issues|, CountHighSeverity(issues), "cmake" in systems, "make" in systems, |deps|);
    assert Recommendations(issues, buildSystems, deps) == Render(a);
    RenderFirst(a);
  }

  // ---------------------------------------------------------------------
  // The scan

  /** The file loop of `scan`: both counters advance for every file, and
      the issues of each are appended. */
  method ScanFiles(files: seq<seq<string>>, read: seq<string> -> Option<string>, finditer: Finder)
    returns (total: nat, scanned: nat, issues: seq<Issue>)
    ensures total == |files| && scanned == total
    ensures issues == ProjectIssues(files, read, finditer)
  {
    total, scanned, issues := 0, 0, [];
    for i := 0 to |files|
      invariant total == i && scanned == i
      invariant issues == ProjectIssues(files[..i], read, finditer)
    {
      total := total + 1;
      var found := ScanFile(Join(files[i], "/"), read(files[i]), finditer);
      assert files[..i + 1][..i] == files[..i];
      issues := issues + found;
      scanned := scanned + 1;
    }
    assert files[..|files|] == files;
  }

  /** `scan`: count and scan every source file, then the build systems, the
      manifests and the recommendations. `_scan_file` catches its own
      errors, so every file counts as scanned. */
  method Scan(root: seq<string>, tree: seq<Node>, read: seq<string> -> Option<string>, finditer: Finder, m: Manifests)
    returns (r: ScanReport)
    ensures r.totalFiles == |SourceFiles(root, FilesOf(tree, []))|
    ensures r.scannedFiles == r.totalFiles
    ensures r.issues == ProjectIssues(SourceFiles(root, FilesOf(tree, [])), read, finditer)
    ensures r.buildSystems == BuildRecords(tree, BuildPatterns)
    ensures r.dependencies == Dependencies(m)
    ensures r.recommendations == Recommendations(r.issues, r.buildSystems, r.dependencies)
  {
    var files := GetSourceFiles(root, tree);
    var total, scanned, issues := ScanFiles(files, read, finditer);
    var buildSystems := ScanBuildSystems(tree);
    var deps := ScanDependencies(m);
    r := ScanReport(total, scanned, issues, deps, buildSystems, Recommendations(issues, buildSystems, deps));
  }
}
