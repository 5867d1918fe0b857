/** The evidence the run-list audit reads (ci/analyze_cudf_polars_fallbacks.py): reports of test runs,
    the tests in them, and the producer jobs of the workflow. */
module AuditReports {
  import opened Sequences

  /** A field of a JSON object: not there, there with a value of another type, or as expected. */
  datatype Field<T> = Missing | Malformed | Good(value: T)

  const PR_SELECTION_ENGINE := "spmd-default"

  datatype Telemetry = TRUE | FALSE | UNKNOWN

  datatype Test = Test(run: string, nodeid: string, outcome: string, complete: bool, fallback: Telemetry,
                       gpuAttempted: Telemetry, gpuExecuted: Telemetry)

  datatype Matrix = Matrix(python: Option<string>, arch: Option<string>, cuda: Option<string>,
                           dependencies: Option<string>)

  datatype Run = Run(name: string, engine: string, polarsVersion: Field<string>, cudfSha: Field<string>,
                     upstreamSha: Field<string>, shardId: Field<int>, numShards: Field<int>,
                     collectedNodeids: Field<seq<string>>, collectionNodeids: Field<seq<string>>,
                     collectionSkips: Field<seq<string>>, selectionMode: Field<string>, exitStatus: Field<int>,
                     consistent: Field<bool>, collected: Field<int>, configuration: Option<string>, matrix: Matrix,
                     producer: Option<string>)

  datatype Report = Report(runs: seq<Run>, tests: seq<Test>, unreadable: seq<string>)

  datatype Category = Unknown | Mixed | GpuOnly | AttemptedWithoutSuccess | NotAttempted

  /** `execution_category`. */
  function ExecutionCategory(t: Test): (c: Category)
    ensures c.Unknown? <==> UNKNOWN in {t.fallback, t.gpuAttempted, t.gpuExecuted}
    ensures c.Mixed? || c.GpuOnly? <==> !c.Unknown? && t.gpuExecuted == TRUE
    ensures c.Mixed? <==> !c.Unknown? && t.gpuExecuted == t.fallback == TRUE
    ensures c.AttemptedWithoutSuccess? <==> !c.Unknown? && t.gpuExecuted == FALSE && t.gpuAttempted == TRUE
  {
    if t.fallback.UNKNOWN? || t.gpuAttempted.UNKNOWN? || t.gpuExecuted.UNKNOWN? then Unknown
    else if t.gpuExecuted.TRUE? then (if t.fallback.TRUE? then Mixed else GpuOnly)
    else if t.gpuAttempted.TRUE? then AttemptedWithoutSuccess
    else NotAttempted
  }

  // ----- splitting strings -----

  predicate StartsWith(s: string, prefix: string) {
    prefix <= s
  }

  predicate EndsWith(s: string, suffix: string) {
    |suffix| <= |s| && s[|s| - |suffix|..] == suffix
  }

  /** `s.split(c, 1)` of a string that contains `c`: the parts around the first `c`. */
  function SplitFirst(s: string, c: char): (string, string) {
    if s == [] then ([], [])
    else if s[0] == c then ([], s[1..])
    else var (a, b) := SplitFirst(s[1..], c); ([s[0]] + a, b)
  }

  /** `s.rsplit(c, 1)` of a string that contains `c`: the parts around the last `c`. */
  function SplitLast(s: string, c: char): (string, string) {
    if s == [] then ([], [])
    else if s[|s| - 1] == c then (s[..|s| - 1], [])
    else var (a, b) := SplitLast(s[..|s| - 1], c); (a, b + [s[|s| - 1]])
  }

  lemma {:induction false} SplitFirstAt(a: string, c: char, b: string)
    requires c !in a
    ensures SplitFirst(a + [c] + b, c) == (a, b)
  {
    var s := a + [c] + b;
    if a == [] {
      assert s[1..] == b;
    } else {
      assert s[1..] == a[1..] + [c] + b;
      assert s[0] == a[0] && a == [a[0]] + a[1..];
      SplitFirstAt(a[1..], c, b);
    }
  }

  lemma {:induction false} SplitLastAt(a: string, c: char, b: string)
    requires c !in b
    ensures SplitLast(a + [c] + b, c) == (a, b)
  {
    var s := a + [c] + b;
    if b == [] {
      assert s[..|s| - 1] == a;
    } else {
      assert s[..|s| - 1] == a + [c] + b[..|b| - 1];
      assert s[|s| - 1] == b[|b| - 1] && b == b[..|b| - 1] + [b[|b| - 1]];
      SplitLastAt(a, c, b[..|b| - 1]);
    }
  }

  /** Where the text after the last separator starts, searching backwards from `k`. */
  function SegmentStart(name: string, separator: string, k: nat): (start: nat)
    requires k <= |name|
    ensures start <= k && (start == 0 || EndsWith(name[..start], separator))
    ensures forall j :: start < j <= k ==> !EndsWith(name[..j], separator)
  {
    if k == 0 || EndsWith(name[..k], separator) then k else SegmentStart(name, separator, k - 1)
  }

  /** `name.rsplit(" / ", 1)[-1]`. */
  function LastSegment(name: string): string {
    name[SegmentStart(name, " / ", |name|)..]
  }

  /** The part after the last separator, or all of the name. */
  ghost predicate IsLastPart(part: string, name: string) {
    && (part == name || exists before :: name == before + " / " + part)
    && forall before, after :: name == before + " / " + after ==> |part| <= |after|
  }

  /** A part that follows a separator does not start after the last one. */
  lemma NotLater(name: string, before: string, after: string)
    requires name == before + " / " + after
    ensures |name| - |after| <= SegmentStart(name, " / ", |name|)
  {
    var k := |name| - |after|;
    assert name[..k] == before + " / ";
    assert EndsWith(name[..k], " / ");
  }

  lemma LastSegmentFollows(name: string)
    ensures LastSegment(name) == name || name == name[..|name| - |LastSegment(name)| - 3] + " / " + LastSegment(name)
  {
    var start := SegmentStart(name, " / ", |name|);
    if start > 0 {
      assert name[..start][start - 3..] == " / ";
      assert name == name[..start - 3] + name[start - 3..start] + name[start..];
    } else {
      assert name[0..] == name;
    }
  }

  lemma LastSegmentIsPart(name: string)
    ensures IsLastPart(LastSegment(name), name)
  {
    LastSegmentFollows(name);
    forall before: string, after: string | name == before + " / " + after ensures |LastSegment(name)| <= |after| {
      NotLater(name, before, after);
    }
  }

  /** Two last parts of one name have the same length, and both end it. */
  lemma OneLastPart(name: string, part: string, other: string)
    requires IsLastPart(part, name) && IsLastPart(other, name)
    ensures part == other
  {
    assert |part| == |other|;
    EndsName(name, part);
    EndsName(name, other);
  }

  lemma EndsName(name: string, part: string)
    requires IsLastPart(part, name)
    ensures |part| <= |name| && name[|name| - |part|..] == part
  {
  }

  lemma LastPartMeans(name: string, part: string)
    ensures IsLastPart(part, name) <==> part == LastSegment(name)
  {
    LastSegmentIsPart(name);
    if IsLastPart(part, name) {
      OneLastPart(name, part, LastSegment(name));
    }
  }

  // ----- keys -----

  /** `selection_key`, for a run whose version is known. */
  function SelectionKey(engine: string, version: string): string {
    var (variant, blocksize) :=
      if StartsWith(engine, "spmd-") then SplitLast(engine, '-') else (engine, "default");
    version + "|" + variant + "|" + blocksize
  }

  lemma DefaultKey(version: string)
    ensures SelectionKey(PR_SELECTION_ENGINE, version) == version + "|spmd|default"
  {
    assert PR_SELECTION_ENGINE == "spmd" + ['-'] + "default";
    SplitLastAt("spmd", '-', "default");
    assert StartsWith(PR_SELECTION_ENGINE, "spmd-");
    assert "|" + "spmd" + "|" + "default" == "|spmd|default";
  }

  /** The key of any engine: those of the variant behind `spmd-` are split before their last part. */
  lemma KeyMeans(engine: string, version: string)
    ensures !("spmd-" <= engine) ==> SelectionKey(engine, version) == version + "|" + engine + "|default"
    ensures forall variant, blocksize ::
              "spmd-" <= engine && engine == variant + "-" + blocksize && '-' !in blocksize ==>
              SelectionKey(engine, version) == version + "|" + variant + "|" + blocksize
  {
    forall variant: string, blocksize: string
      | "spmd-" <= engine && engine == variant + "-" + blocksize && '-' !in blocksize
      ensures SelectionKey(engine, version) == version + "|" + variant + "|" + blocksize
    {
      SplitLastAt(variant, '-', blocksize);
      assert engine == variant + ['-'] + blocksize;
    }
  }

  /** The version and the configuration that the audit splits a key into are the right ones exactly
      when the version holds no bar. */
  lemma KeySplits(version: string)
    ensures SplitFirst(version + "|spmd|default", '|').1 == "spmd|default" <==> '|' !in version
    ensures '|' !in version ==> SplitFirst(version + "|spmd|default", '|').0 == version
  {
    var key := version + "|spmd|default";
    if '|' !in version {
      SplitFirstAt(version, '|', "spmd|default");
      assert key == version + ['|'] + "spmd|default";
    } else {
      FirstBar(version, "|spmd|default");
    }
  }

  lemma {:induction false} FirstBar(version: string, rest: string)
    requires '|' in version
    ensures |SplitFirst(version + rest, '|').1| >= |rest|
  {
    var s := version + rest;
    assert s[1..] == version[1..] + rest;
    if version[0] != '|' {
      FirstBar(version[1..], rest);
    }
  }

  datatype ConfigurationKey = Named(name: string) | Variant(matrix: Matrix)

  /** `configuration_key`. */
  function ConfigurationOf(r: Run): ConfigurationKey {
    if r.configuration.Some? && r.configuration.value != "" then Named(r.configuration.value) else Variant(r.matrix)
  }

  /** Runs of one version and configuration: the shards of one suite. */
  datatype Cohort = Cohort(key: string, configuration: ConfigurationKey)

  /** The errors that the audit accumulates. */
  datatype Finding =
    | UnreadableReport(name: string)
    | InvalidMetadata(name: string)
    | MissingMetadata(name: string)
    | IncompleteEvidence(name: string)
    | BadShards(cohort: Cohort)
    | InconsistentCollection(cohort: Cohort)
    | InconsistentSkips(cohort: Cohort)
    | SeveralCudfRevisions
    | ConflictingUpstreamRevisions
    | NoDefaultRuns
    | InvalidJobInventory
    | DuplicatedJobs
    | MatrixFailed
    | JobsMismatch
    | WrongConfiguration(name: string)

  // ----- the tests of a run -----

  /** The runs whose selection pull requests use. */
  function DefaultRuns(report: Report): seq<Run> {
    Filter(IsDefault(), report.runs)
  }

  function IsDefault(): Run -> bool {
    (r: Run) => r.engine == PR_SELECTION_ENGINE
  }

  function OfRun(name: string): Test -> bool {
    (t: Test) => t.run == name
  }

  function TestsOf(report: Report, name: string): seq<Test> {
    Filter(OfRun(name), report.tests)
  }

  function Nodeid(t: Test): string {
    t.nodeid
  }

  function At<K, V>(m: map<K, seq<V>>, k: K): seq<V> {
    if k in m then m[k] else []
  }

  /** Collects the tests of the selected runs, run by run. */
  method GroupTests(report: Report, selected: set<string>) returns (byRun: map<string, seq<Test>>)
    ensures forall name :: name in selected ==> At(byRun, name) == TestsOf(report, name)
  {
    byRun := map[];
    var tests := report.tests;
    for i := 0 to |tests|
      invariant forall name :: name in selected ==> At(byRun, name) == Filter(OfRun(name), tests[..i])
    {
      forall name { FilterAppend(OfRun(name), tests, i); }
      if tests[i].run in selected {
        byRun := byRun[tests[i].run := At(byRun, tests[i].run) + [tests[i]]];
      }
    }
    assert tests[..|tests|] == tests;
  }

  // ----- combining report files -----

  /** One report file: unreadable or invalid, or a run with its tests, which carry the file's name. */
  datatype File = Bad(name: string) | Readable(run: Run, tests: seq<Test>)

  function FileName(f: File): string {
    match f case Bad(name) => name case Readable(run, _) => run.name
  }

  ghost predicate Stamped(f: File) {
    f.Readable? ==> forall t :: t in f.tests ==> t.run == f.run.name
  }

  /** `build_report`, apart from the summaries: the readable files contribute their run and all their
      tests; the others are listed. */
  method BuildReport(files: seq<File>, le: (Test, Test) -> bool) returns (report: Report)
    requires TotalPreorder(le)
    ensures report.runs == RunsIn(files) && report.unreadable == UnreadableIn(files)
    ensures multiset(report.tests) == multiset(TestsIn(files)) && Sorted(report.tests, le)
  {
    var tests, runs, unreadable := [], [], [];
    for i := 0 to |files|
      invariant runs == RunsIn(files[..i]) && tests == TestsIn(files[..i]) && unreadable == UnreadableIn(files[..i])
    {
      NextFile(files, i);
      match files[i]
      case Bad(name) => unreadable := unreadable + [name];
      case Readable(run, runTests) => tests := tests + runTests; runs := runs + [run];
    }
    assert files[..|files|] == files;
    SortSorts(tests, le);
    return Report(runs, Sort(tests, le), unreadable);
  }

  lemma NextFile(files: seq<File>, i: nat)
    requires i < |files|
    ensures var f := files[i];
            && RunsIn(files[..i + 1]) == RunsIn(files[..i]) + (if f.Readable? then [f.run] else [])
            && TestsIn(files[..i + 1]) == TestsIn(files[..i]) + (if f.Readable? then f.tests else [])
            && UnreadableIn(files[..i + 1]) == UnreadableIn(files[..i]) + (if f.Bad? then [f.name] else [])
  {
    assert files[..i + 1][..i] == files[..i];
  }

  function RunsIn(files: seq<File>): seq<Run> {
    if files == [] then []
    else
      var last := files[|files| - 1];
      RunsIn(files[..|files| - 1]) + if last.Readable? then [last.run] else []
  }

  function TestsIn(files: seq<File>): seq<Test> {
    if files == [] then []
    else
      var last := files[|files| - 1];
      TestsIn(files[..|files| - 1]) + if last.Readable? then last.tests else []
  }

  function UnreadableIn(files: seq<File>): seq<string> {
    if files == [] then []
    else
      var last := files[|files| - 1];
      UnreadableIn(files[..|files| - 1]) + if last.Bad? then [last.name] else []
  }

  lemma {:induction false} AllOfRun(tests: seq<Test>, name: string)
    requires forall t :: t in tests ==> t.run == name
    ensures Filter(OfRun(name), tests) == tests
    ensures forall other :: other != name ==> Filter(OfRun(other), tests) == []
  {
    if tests != [] {
      AllOfRun(tests[1..], name);
      assert tests[0] in tests;
    }
  }

  lemma {:induction false} NoneOfRun(files: seq<File>, name: string)
    requires forall f :: f in files ==> Stamped(f) && FileName(f) != name
    ensures Filter(OfRun(name), TestsIn(files)) == []
  {
    if files != [] {
      var init, last := files[..|files| - 1], files[|files| - 1];
      NoneOfRun(init, name);
      assert last in files;
      if last.Readable? {
        assert FileName(last) != name;
        AllOfRun(last.tests, last.run.name);
        FilterConcat(OfRun(name), TestsIn(init), last.tests);
      } else {
        assert TestsIn(files) == TestsIn(init);
      }
    }
  }

  ghost predicate OwnNames(files: seq<File>) {
    forall i, k :: 0 <= i < k < |files| ==> FileName(files[i]) != FileName(files[k])
  }

  lemma LastFile(files: seq<File>, name: string)
    requires files != [] && Stamped(files[|files| - 1])
    ensures var init, last := files[..|files| - 1], files[|files| - 1];
            Filter(OfRun(name), TestsIn(files))
              == Filter(OfRun(name), TestsIn(init)) + if last.Readable? && last.run.name == name then last.tests else []
  {
    var init, last := files[..|files| - 1], files[|files| - 1];
    FilterConcat(OfRun(name), TestsIn(init), if last.Readable? then last.tests else []);
    if last.Readable? {
      AllOfRun(last.tests, last.run.name);
    }
  }

  lemma {:induction false} OwnTests(files: seq<File>, k: nat)
    requires k < |files| && files[k].Readable? && OwnNames(files)
    requires forall f :: f in files ==> Stamped(f)
    ensures Filter(OfRun(files[k].run.name), TestsIn(files)) == files[k].tests
  {
    var init, last, name := files[..|files| - 1], files[|files| - 1], files[k].run.name;
    assert last in files;
    LastFile(files, name);
    if k == |files| - 1 {
      NoneOfRun(init, name);
    } else {
      OwnTests(init, k);
      assert FileName(files[k]) != FileName(last);
    }
  }

  /** With distinct file names, the tests the audit finds for a run are those of its own file. */
  lemma RunsKeepTheirTests(files: seq<File>, report: Report, k: nat)
    requires k < |files| && files[k].Readable? && OwnNames(files)
    requires forall f :: f in files ==> Stamped(f)
    requires multiset(report.tests) == multiset(TestsIn(files))
    ensures multiset(TestsOf(report, files[k].run.name)) == multiset(files[k].tests)
  {
    OwnTests(files, k);
    FilterPermutes(OfRun(files[k].run.name), report.tests, TestsIn(files));
  }
}
