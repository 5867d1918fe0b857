/** The checks of `audit_report` (ci/analyze_cudf_polars_fallbacks.py) up to its verdict. The code
    accumulates errors in six stages; the main result is that it finds none exactly when the evidence
    is complete, a condition stated without the code's dictionaries, counts and sorts. */
module AuditEvidence {
  import opened AuditJobs
  import opened AuditReports
  import opened Sequences

  // ----- one run -----

  /** The outcome of a condition that rejects a run: it does not hold, it holds, or evaluating it
      raises because a field is missing or has no usable type. */
  datatype Check = Passes | Fails | Raises

  /** `a or b`. */
  function Or(a: Check, b: Check): Check {
    if a.Passes? then b else a
  }

  function Text(f: Field<string>): Check {
    match f case Missing => Raises case Malformed => Fails case Good(s) => if s == "" then Fails else Passes
  }

  function List(f: Field<seq<string>>): Check {
    match f case Missing => Raises case Malformed => Fails case Good(_) => Passes
  }

  function Is<T(==)>(f: Field<T>, v: T): Check {
    match f case Missing => Raises case Malformed => Fails case Good(x) => if x == v then Passes else Fails
  }

  /** `id not in range(count)`. */
  function InRange(id: Field<int>, count: Field<int>): Check {
    if id.Missing? || !count.Good? then Raises
    else if id.Malformed? || !(0 <= id.value < count.value) then Fails
    else Passes
  }

  function That(b: bool): Check {
    if b then Passes else Fails
  }

  /** The first condition of the loop over runs; the key is computed before it. */
  function Metadata(r: Run): Check {
    if r.polarsVersion.Missing? then Raises
    else Or(Text(r.polarsVersion), Or(Text(r.cudfSha), Or(Text(r.upstreamSha), Or(InRange(r.shardId, r.numShards),
         Or(List(r.collectedNodeids), Or(List(r.collectionNodeids), List(r.collectionSkips)))))))
  }

  /** Comparing the node ids of the tests with the inventory: two counts and two sets. */
  function Inventory(ids: seq<string>, collected: seq<string>): Check {
    var inventory, observed := Elements(collected), Elements(ids);
    Or(That(|observed| == |ids|), Or(That(observed == inventory), That(|inventory| == |collected|)))
  }

  function Telemetered(tests: seq<Test>): Check {
    Or(That(forall t :: t in tests ==> t.complete), Or(That(forall t :: t in tests ==> t.outcome != "incomplete"),
       That(forall t :: t in tests ==> !ExecutionCategory(t).Unknown?)))
  }

  function Outcome(r: Run, count: int): Check {
    Or(Is(r.selectionMode, "full"), Or(Is(r.exitStatus, 0), Or(Is(r.consistent, true), Is(r.collected, count))))
  }

  /** The second condition. */
  function FullSuite(r: Run, tests: seq<Test>): Check
    requires r.collectedNodeids.Good?
  {
    Or(Outcome(r, |tests|), Or(Inventory(Map(Nodeid, tests), r.collectedNodeids.value), Telemetered(tests)))
  }

  /** The run says what it is: versions, shard and inventories. */
  predicate Described(r: Run) {
    && r.polarsVersion.Good? && r.polarsVersion.value != ""
    && r.cudfSha.Good? && r.cudfSha.value != "" && r.upstreamSha.Good? && r.upstreamSha.value != ""
    && r.shardId.Good? && r.numShards.Good? && 0 <= r.shardId.value < r.numShards.value
    && r.collectedNodeids.Good? && r.collectionNodeids.Good? && r.collectionSkips.Good?
  }

  /** A full run that exited zero and reports each test of its inventory exactly once, with complete
      telemetry. */
  ghost predicate FullRun(r: Run, tests: seq<Test>)
    requires Described(r)
  {
    && r.selectionMode == Good("full") && r.exitStatus == Good(0) && r.consistent == Good(true)
    && r.collected == Good(|tests|)
    && Distinct(r.collectedNodeids.value) && multiset(Map(Nodeid, tests)) == multiset(r.collectedNodeids.value)
    && forall t :: t in tests ==> t.complete && t.outcome != "incomplete" && !ExecutionCategory(t).Unknown?
  }

  lemma MetadataPasses(r: Run)
    ensures Metadata(r).Passes? <==> Described(r)
  {
  }

  /** Comparing counts and sets finds exactly the runs that do not report every test once. */
  lemma OncePerTest(ids: seq<string>, collected: seq<string>)
    ensures Inventory(ids, collected).Passes? <==> Distinct(collected) && multiset(ids) == multiset(collected)
  {
    DistinctSize(ids);
    DistinctSize(collected);
    if Distinct(collected) && multiset(ids) == multiset(collected) {
      SameElements(collected, ids);
    }
    if Distinct(ids) && Distinct(collected) && Elements(ids) == Elements(collected) {
      forall x ensures x in ids <==> x in collected {
        assert x in Elements(ids) <==> x in Elements(collected);
      }
      DistinctPermutation(ids, collected);
    }
  }

  lemma FullSuitePasses(r: Run, tests: seq<Test>)
    requires Described(r)
    ensures FullSuite(r, tests).Passes? <==> FullRun(r, tests)
  {
    OncePerTest(Map(Nodeid, tests), r.collectedNodeids.value);
  }

  // ----- cohorts -----

  function CohortOf(r: Run): Cohort
    requires Described(r)
  {
    Cohort(SelectionKey(r.engine, r.polarsVersion.value), ConfigurationOf(r))
  }

  function InCohort(c: Cohort): Run -> bool {
    (r: Run) => Described(r) && CohortOf(r) == c
  }

  /** The cohorts hold described runs of their own. */
  ghost predicate CohortsOf(cohorts: map<Cohort, seq<Run>>, runs: seq<Run>) {
    forall c :: c in cohorts ==>
      cohorts[c] != [] && forall r :: r in cohorts[c] ==> r in runs && Described(r) && CohortOf(r) == c
  }

  ghost predicate Sound(r: Run, tests: seq<Test>) {
    Described(r) && FullRun(r, tests)
  }

  ghost predicate AllSound(runs: seq<Run>, report: Report) {
    forall r :: r in runs ==> Sound(r, TestsOf(report, r.name))
  }

  /** An error about this run. */
  predicate Blames(e: Finding, name: string) {
    e == MissingMetadata(name) || e == InvalidMetadata(name) || e == IncompleteEvidence(name)
  }

  /** What the loop does with one run: the errors it adds, and whether it joins its cohort. */
  method JudgeRun(r: Run, tests: seq<Test>) returns (errors: seq<Finding>, joins: bool)
    ensures errors == [] <==> Sound(r, tests)
    ensures errors == [] ==> joins
    ensures joins ==> Described(r)
    ensures Described(r) || Metadata(r).Raises? ==> InvalidMetadata(r.name) !in errors
    ensures forall e :: e in errors ==> Blames(e, r.name)
  {
    MetadataPasses(r);
    var metadata := Metadata(r);
    if metadata.Raises? {
      return [MissingMetadata(r.name)], false;
    }
    if metadata.Fails? {
      return [InvalidMetadata(r.name)], false;
    }
    FullSuitePasses(r, tests);
    var full := FullSuite(r, tests);
    if full.Raises? {
      return [MissingMetadata(r.name)], false;
    }
    return if full.Fails? then [IncompleteEvidence(r.name)] else [], true;
  }

  /** Every cohort lists its runs, in their order. */
  ghost predicate Partition(cohorts: map<Cohort, seq<Run>>, runs: seq<Run>) {
    forall c :: At(cohorts, c) == Filter(InCohort(c), runs)
  }

  function Join(cohorts: map<Cohort, seq<Run>>, r: Run): map<Cohort, seq<Run>>
    requires Described(r)
  {
    cohorts[CohortOf(r) := At(cohorts, CohortOf(r)) + [r]]
  }

  lemma JoinPartition(cohorts: map<Cohort, seq<Run>>, runs: seq<Run>, i: nat)
    requires i < |runs| && Described(runs[i]) && Partition(cohorts, runs[..i])
    ensures Partition(Join(cohorts, runs[i]), runs[..i + 1])
  {
    forall c ensures At(Join(cohorts, runs[i]), c) == Filter(InCohort(c), runs[..i + 1]) {
      FilterAppend(InCohort(c), runs, i);
    }
  }

  lemma NextSound(runs: seq<Run>, i: nat, report: Report)
    requires i < |runs|
    ensures AllSound(runs[..i + 1], report)
       <==> AllSound(runs[..i], report) && Sound(runs[i], TestsOf(report, runs[i].name))
  {
    assert runs[..i + 1] == runs[..i] + [runs[i]];
  }

  /** The loop over runs: no error exactly when every run is sound, and then the cohorts are a
      partition of the runs. */
  method ValidateRuns(runs: seq<Run>, byRun: map<string, seq<Test>>, ghost report: Report)
    returns (errors: seq<Finding>, cohorts: map<Cohort, seq<Run>>)
    requires forall r :: r in runs ==> At(byRun, r.name) == TestsOf(report, r.name)
    ensures errors == [] <==> AllSound(runs, report)
    ensures CohortsOf(cohorts, runs)
    ensures errors == [] ==> Partition(cohorts, runs)
  {
    errors, cohorts := [], map[];
    for i := 0 to |runs|
      invariant errors == [] <==> AllSound(runs[..i], report)
      invariant CohortsOf(cohorts, runs)
      invariant errors == [] ==> Partition(cohorts, runs[..i])
    {
      assert runs[i] in runs;
      NextSound(runs, i, report);
      var found, joins := JudgeRun(runs[i], At(byRun, runs[i].name));
      if joins {
        if errors == [] {
          JoinPartition(cohorts, runs, i);
        }
        cohorts := Join(cohorts, runs[i]);
      }
      errors := errors + found;
    }
    assert runs[..|runs|] == runs;
  }

  // ----- the shards of a cohort -----

  function ShardId(r: Run): int {
    if r.shardId.Good? then r.shardId.value else 0
  }

  function NumShards(r: Run): int {
    if r.numShards.Good? then r.numShards.value else 0
  }

  function Collection(r: Run): seq<string> {
    if r.collectionNodeids.Good? then r.collectionNodeids.value else []
  }

  function Skips(r: Run): seq<string> {
    if r.collectionSkips.Good? then r.collectionSkips.value else []
  }

  function CudfSha(r: Run): string {
    if r.cudfSha.Good? then r.cudfSha.value else ""
  }

  function UpstreamSha(r: Run): string {
    if r.upstreamSha.Good? then r.upstreamSha.value else ""
  }

  function Version(r: Run): string {
    if r.polarsVersion.Good? then r.polarsVersion.value else ""
  }

  function IntLe(): (int, int) -> bool {
    (a, b) => a <= b
  }

  /** `list(range(n))`. */
  function Range(n: int): (s: seq<int>)
    ensures |s| == if n <= 0 then 0 else n
    ensures forall i :: 0 <= i < |s| ==> s[i] == i
  {
    seq(if n <= 0 then 0 else n, i => i)
  }

  lemma LeastFirst(s: seq<int>, t: seq<int>)
    requires Sorted(s, IntLe()) && Sorted(t, IntLe()) && multiset(s) == multiset(t) && s != [] && t != []
    ensures s[0] <= t[0]
  {
    assert t[0] in multiset(s);
    var j :| 0 <= j < |s| && s[j] == t[0];
    assert j == 0 || IntLe()(s[0], s[j]);
  }

  lemma SortedRest(s: seq<int>)
    requires Sorted(s, IntLe()) && s != []
    ensures Sorted(s[1..], IntLe()) && multiset(s[1..]) == multiset(s) - multiset{s[0]}
  {
    assert s == [s[0]] + s[1..];
  }

  lemma {:induction false} SortedUnique(s: seq<int>, t: seq<int>)
    requires Sorted(s, IntLe()) && Sorted(t, IntLe()) && multiset(s) == multiset(t)
    ensures s == t
    decreases |s|
  {
    assert |s| == |multiset(s)| == |t|;
    if s != [] {
      LeastFirst(s, t);
      LeastFirst(t, s);
      SortedRest(s);
      SortedRest(t);
      SortedUnique(s[1..], t[1..]);
      assert s == [s[0]] + s[1..] && t == [t[0]] + t[1..];
    }
  }

  lemma RangeSet(n: int)
    ensures forall i :: i in Range(n) <==> 0 <= i < n
    ensures Distinct(Range(n)) && Sorted(Range(n), IntLe())
  {
    forall i | 0 <= i < n ensures i in Range(n) {
      assert Range(n)[i] == i;
    }
  }

  /** The ids 0 to n - 1, each once, in any order. */
  ghost predicate ExactIds(ids: seq<int>, n: int) {
    Distinct(ids) && forall i :: i in ids <==> 0 <= i < n
  }

  lemma SortedIsRange(ids: seq<int>, n: int)
    ensures Sort(ids, IntLe()) == Range(n) <==> ExactIds(ids, n)
  {
    SortSorts(ids, IntLe());
    RangeSet(n);
    if Sort(ids, IntLe()) == Range(n) {
      SameElements(Range(n), ids);
      forall i ensures i in ids <==> i in Range(n) {
        assert i in Elements(ids) <==> i in Elements(Range(n));
      }
    }
    if ExactIds(ids, n) {
      forall i: int ensures i in ids <==> i in Range(n) {
      }
      DistinctPermutation(ids, Range(n));
      SortedUnique(Sort(ids, IntLe()), Range(n));
    }
  }

  /** The shards of one suite: their ids are 0 to n - 1 for the number n that all of them give, and
      all of them collected the same tests and skipped the same modules. */
  ghost predicate WholeSuite(shards: seq<Run>) {
    && Uniform(NumShards, shards) && Uniform(Collection, shards) && Uniform(Skips, shards)
    && forall r :: r in shards ==> ExactIds(Map(ShardId, shards), NumShards(r))
  }

  method CheckCohort(c: Cohort, shards: seq<Run>) returns (errors: seq<Finding>)
    requires shards != []
    ensures errors == [] <==> WholeSuite(shards)
  {
    errors := [];
    var counts, ids := Elements(Map(NumShards, shards)), Map(ShardId, shards);
    OneValue(NumShards, shards);
    OneValue(Collection, shards);
    OneValue(Skips, shards);
    assert shards[0] in shards;
    if |counts| != 1 {
      errors := errors + [BadShards(c)];
    } else {
      var count := NumShards(shards[0]);
      SortedIsRange(ids, count);
      if Sort(ids, IntLe()) != Range(count) {
        errors := errors + [BadShards(c)];
      }
    }
    if |Elements(Map(Collection, shards))| != 1 {
      errors := errors + [InconsistentCollection(c)];
    }
    if |Elements(Map(Skips, shards))| != 1 {
      errors := errors + [InconsistentSkips(c)];
    }
  }

  method CheckCohorts(cohorts: map<Cohort, seq<Run>>) returns (errors: seq<Finding>)
    requires forall c :: c in cohorts ==> cohorts[c] != []
    ensures errors == [] <==> forall c :: c in cohorts ==> WholeSuite(cohorts[c])
  {
    errors := [];
    var rest := cohorts.Keys;
    while rest != {}
      invariant rest <= cohorts.Keys
      invariant errors == [] <==> forall c :: c in cohorts && c !in rest ==> WholeSuite(cohorts[c])
      decreases |rest|
    {
      var c :| c in rest;
      rest := rest - {c};
      var found := CheckCohort(c, cohorts[c]);
      errors := errors + found;
    }
  }

  // ----- revisions -----

  ghost predicate OneUpstreamPerVersion(runs: seq<Run>) {
    forall a, b :: a in runs && b in runs && Version(a) == Version(b) ==> UpstreamSha(a) == UpstreamSha(b)
  }

  /** The upstream revisions seen per version, and nothing else. */
  ghost predicate Collects(revisions: map<string, set<string>>, runs: seq<Run>) {
    && (forall r :: r in runs ==> Version(r) in revisions && UpstreamSha(r) in revisions[Version(r)])
    && (forall v, sha :: v in revisions && sha in revisions[v] ==>
          exists r :: r in runs && Version(r) == v && UpstreamSha(r) == sha)
    && (forall v :: v in revisions ==> revisions[v] != {})
  }

  function AddRevision(revisions: map<string, set<string>>, r: Run): map<string, set<string>> {
    revisions[Version(r) := (if Version(r) in revisions then revisions[Version(r)] else {}) + {UpstreamSha(r)}]
  }

  lemma AddCollects(revisions: map<string, set<string>>, runs: seq<Run>, r: Run)
    requires Collects(revisions, runs)
    ensures Collects(AddRevision(revisions, r), runs + [r])
  {
    var after := AddRevision(revisions, r);
    forall v, sha | v in after && sha in after[v]
      ensures exists x :: x in runs + [r] && Version(x) == v && UpstreamSha(x) == sha
    {
      if v in revisions && sha in revisions[v] {
        var x :| x in runs && Version(x) == v && UpstreamSha(x) == sha;
        assert x in runs + [r];
      } else {
        assert r in runs + [r];
      }
    }
  }

  lemma AddPrefix(revisions: map<string, set<string>>, runs: seq<Run>, i: nat)
    requires i < |runs| && Collects(revisions, runs[..i])
    ensures Collects(AddRevision(revisions, runs[i]), runs[..i + 1])
  {
    AddCollects(revisions, runs[..i], runs[i]);
    assert runs[..i + 1] == runs[..i] + [runs[i]];
  }

  method Revisions(runs: seq<Run>) returns (revisions: map<string, set<string>>)
    ensures Collects(revisions, runs)
  {
    revisions := map[];
    for i := 0 to |runs|
      invariant Collects(revisions, runs[..i])
    {
      AddPrefix(revisions, runs, i);
      revisions := AddRevision(revisions, runs[i]);
    }
    assert runs[..|runs|] == runs;
  }

  lemma RevisionsDecided(revisions: map<string, set<string>>, runs: seq<Run>)
    requires Collects(revisions, runs)
    ensures (forall v :: v in revisions ==> |revisions[v]| == 1) <==> OneUpstreamPerVersion(runs)
  {
    if forall v :: v in revisions ==> |revisions[v]| == 1 {
      forall a, b | a in runs && b in runs && Version(a) == Version(b) ensures UpstreamSha(a) == UpstreamSha(b) {
        OnlyElement(revisions[Version(a)], UpstreamSha(a), UpstreamSha(b));
      }
    }
    if OneUpstreamPerVersion(runs) {
      forall v | v in revisions ensures |revisions[v]| == 1 {
        var sha :| sha in revisions[v];
        forall other | other in revisions[v] ensures other == sha {
        }
        assert revisions[v] == {sha};
      }
    }
  }

  /** One cuDF revision, and one upstream revision per Polars version. */
  method CheckRevisions(runs: seq<Run>) returns (errors: seq<Finding>)
    ensures errors == [] <==> runs != [] && Uniform(CudfSha, runs) && OneUpstreamPerVersion(runs)
  {
    errors := [];
    OneValue(CudfSha, runs);
    if |Elements(Map(CudfSha, runs))| != 1 {
      errors := [SeveralCudfRevisions];
    }
    var revisions := Revisions(runs);
    RevisionsDecided(revisions, runs);
    if exists v :: v in revisions && |revisions[v]| != 1 {
      errors := errors + [ConflictingUpstreamRevisions];
    }
  }

  // ----- configurations -----

  const DEFAULT_CONFIGURATION := "spmd|default"

  /** Every version was observed under the default configuration and no other. */
  method CheckKeys(cohorts: set<Cohort>) returns (errors: seq<Finding>)
    ensures errors == []
       <==> cohorts != {} && forall c :: c in cohorts ==> SplitFirst(c.key, '|').1 == DEFAULT_CONFIGURATION
  {
    var configurations: map<string, set<string>> := map[];
    var rest := cohorts;
    while rest != {}
      invariant rest <= cohorts
      invariant forall c :: c in cohorts - rest ==>
                  && SplitFirst(c.key, '|').0 in configurations
                  && SplitFirst(c.key, '|').1 in configurations[SplitFirst(c.key, '|').0]
      invariant forall v, x :: v in configurations && x in configurations[v] ==>
                  exists c :: c in cohorts - rest && SplitFirst(c.key, '|') == (v, x)
      invariant forall v :: v in configurations ==> configurations[v] != {}
      decreases |rest|
    {
      var c :| c in rest;
      rest := rest - {c};
      var (v, x) := SplitFirst(c.key, '|');
      configurations := configurations[v := (if v in configurations then configurations[v] else {}) + {x}];
    }
    errors := [];
    if configurations == map[] || exists v :: v in configurations && configurations[v] != {DEFAULT_CONFIGURATION} {
      errors := [NoDefaultRuns];
    }
    KeysDecided(cohorts, configurations);
  }

  lemma KeysDecided(cohorts: set<Cohort>, configurations: map<string, set<string>>)
    requires forall c :: c in cohorts ==>
               && SplitFirst(c.key, '|').0 in configurations
               && SplitFirst(c.key, '|').1 in configurations[SplitFirst(c.key, '|').0]
    requires forall v, x :: v in configurations && x in configurations[v] ==>
               exists c :: c in cohorts && SplitFirst(c.key, '|') == (v, x)
    requires forall v :: v in configurations ==> configurations[v] != {}
    ensures configurations == map[] <==> cohorts == {}
    ensures (forall v :: v in configurations ==> configurations[v] == {DEFAULT_CONFIGURATION})
       <==> forall c :: c in cohorts ==> SplitFirst(c.key, '|').1 == DEFAULT_CONFIGURATION
  {
    if configurations != map[] {
      var v :| v in configurations;
      var x :| x in configurations[v];
      assert cohorts != {};
    }
    if forall c :: c in cohorts ==> SplitFirst(c.key, '|').1 == DEFAULT_CONFIGURATION {
      forall v | v in configurations ensures configurations[v] == {DEFAULT_CONFIGURATION} {
        forall x | x in configurations[v] ensures x == DEFAULT_CONFIGURATION {
        }
        var x :| x in configurations[v];
      }
    }
  }

  // ----- the verdict -----

  /** Two described runs of the default engine are shards of one suite when they agree on version and
      configuration. */
  lemma CohortMeaning(a: Run, b: Run)
    requires Described(a) && Described(b) && a.engine == b.engine == PR_SELECTION_ENGINE
    ensures CohortOf(a) == CohortOf(b) <==> Version(a) == Version(b) && ConfigurationOf(a) == ConfigurationOf(b)
  {
    DefaultKey(Version(a));
    DefaultKey(Version(b));
    if Version(a) + "|spmd|default" == Version(b) + "|spmd|default" {
      assert |Version(a)| == |Version(b)|;
      assert (Version(a) + "|spmd|default")[..|Version(a)|] == Version(a);
      assert (Version(b) + "|spmd|default")[..|Version(b)|] == Version(b);
    }
  }

  ghost predicate Suite(r: Run, runs: seq<Run>) {
    Described(r) && '|' !in Version(r) && WholeSuite(Filter(InCohort(CohortOf(r)), runs))
  }

  /** Complete evidence. */
  ghost predicate Evidence(report: Report, jobs: Jobs) {
    var runs := DefaultRuns(report);
    && (jobs.NoJobs? ==> report.unreadable == [])
    && runs != [] && AllSound(runs, report)
    && (forall r :: r in runs ==> Suite(r, runs))
    && Uniform(CudfSha, runs) && OneUpstreamPerVersion(runs)
    && (!jobs.NoJobs? ==> ProducersMatch(runs, jobs))
  }

  /** `validated_runs`. */
  method ValidatedRuns(cohorts: map<Cohort, seq<Run>>) returns (runs: seq<Run>)
    ensures forall r :: r in runs <==> exists c :: c in cohorts && r in cohorts[c]
  {
    runs := [];
    var rest := cohorts.Keys;
    while rest != {}
      invariant rest <= cohorts.Keys
      invariant forall r :: r in runs <==> exists c :: c in cohorts && c !in rest && r in cohorts[c]
      decreases |rest|
    {
      var c :| c in rest;
      rest := rest - {c};
      runs := runs + cohorts[c];
    }
  }

  lemma SameMembers(runs: seq<Run>, validated: seq<Run>)
    requires forall r :: r in validated <==> r in runs
    ensures validated != [] <==> runs != []
    ensures Uniform(CudfSha, validated) <==> Uniform(CudfSha, runs)
    ensures OneUpstreamPerVersion(validated) <==> OneUpstreamPerVersion(runs)
  {
    assert validated != [] ==> validated[0] in runs;
    assert runs != [] ==> runs[0] in validated;
  }

  /** The runs in the cohorts are all the runs. */
  lemma Covered(cohorts: map<Cohort, seq<Run>>, runs: seq<Run>, r: Run)
    requires CohortsOf(cohorts, runs) && Partition(cohorts, runs) && forall x :: x in runs ==> Described(x)
    ensures r in runs <==> exists c :: c in cohorts && r in cohorts[c]
  {
    if r in runs {
      assert r in At(cohorts, CohortOf(r));
    }
  }

  lemma CohortKeyOfRun(cohorts: map<Cohort, seq<Run>>, runs: seq<Run>, r: Run)
    requires CohortsOf(cohorts, runs) && Partition(cohorts, runs) && r in runs && Described(r)
    requires r.engine == PR_SELECTION_ENGINE
    ensures CohortOf(r) in cohorts && cohorts[CohortOf(r)] == Filter(InCohort(CohortOf(r)), runs)
    ensures SplitFirst(CohortOf(r).key, '|').1 == DEFAULT_CONFIGURATION <==> '|' !in Version(r)
  {
    assert r in At(cohorts, CohortOf(r));
    DefaultKey(Version(r));
    KeySplits(Version(r));
  }

  /** Checking the cohorts, one by one and by key, is checking the suite of every run. */
  lemma CohortsAreSuites(cohorts: map<Cohort, seq<Run>>, runs: seq<Run>)
    requires CohortsOf(cohorts, runs) && Partition(cohorts, runs)
    requires forall r :: r in runs ==> Described(r) && r.engine == PR_SELECTION_ENGINE
    ensures (forall c :: c in cohorts ==> WholeSuite(cohorts[c]) && SplitFirst(c.key, '|').1 == DEFAULT_CONFIGURATION)
       <==> forall r :: r in runs ==> Suite(r, runs)
  {
    forall r | r in runs
      ensures CohortOf(r) in cohorts && cohorts[CohortOf(r)] == Filter(InCohort(CohortOf(r)), runs)
      ensures SplitFirst(CohortOf(r).key, '|').1 == DEFAULT_CONFIGURATION <==> '|' !in Version(r)
    {
      CohortKeyOfRun(cohorts, runs, r);
    }
    forall c | c in cohorts ensures exists r :: r in runs && CohortOf(r) == c {
      assert cohorts[c][0] in cohorts[c];
    }
  }

  lemma NoCohorts(cohorts: map<Cohort, seq<Run>>, runs: seq<Run>)
    requires CohortsOf(cohorts, runs) && Partition(cohorts, runs) && forall r :: r in runs ==> Described(r)
    ensures cohorts.Keys == {} <==> runs == []
  {
    if runs != [] {
      assert runs[0] in At(cohorts, CohortOf(runs[0]));
    }
    if cohorts.Keys != {} {
      var c :| c in cohorts;
      assert cohorts[c][0] in runs;
    }
  }

  lemma SuitesDecided(cohorts: map<Cohort, seq<Run>>, runs: seq<Run>, validated: seq<Run>)
    requires CohortsOf(cohorts, runs) && Partition(cohorts, runs)
    requires forall r :: r in runs ==> Described(r) && r.engine == PR_SELECTION_ENGINE
    requires forall r :: r in validated <==> exists c :: c in cohorts && r in cohorts[c]
    ensures cohorts.Keys == {} <==> runs == []
    ensures validated != [] <==> runs != []
    ensures Uniform(CudfSha, validated) <==> Uniform(CudfSha, runs)
    ensures OneUpstreamPerVersion(validated) <==> OneUpstreamPerVersion(runs)
    ensures (forall c :: c in cohorts ==> WholeSuite(cohorts[c]) && SplitFirst(c.key, '|').1 == DEFAULT_CONFIGURATION)
       <==> forall r :: r in runs ==> Suite(r, runs)
  {
    forall r: Run ensures r in validated <==> r in runs {
      Covered(cohorts, runs, r);
    }
    SameMembers(runs, validated);
    CohortsAreSuites(cohorts, runs);
    NoCohorts(cohorts, runs);
  }

  /** The stages after the loop over runs. */
  method CheckSuites(cohorts: map<Cohort, seq<Run>>, ghost runs: seq<Run>) returns (errors: seq<Finding>)
    requires CohortsOf(cohorts, runs)
    requires forall r :: r in runs ==> r.engine == PR_SELECTION_ENGINE
    ensures Partition(cohorts, runs) && (forall r :: r in runs ==> Described(r)) ==>
              (errors == [] <==> && runs != [] && (forall r :: r in runs ==> Suite(r, runs))
                                 && Uniform(CudfSha, runs) && OneUpstreamPerVersion(runs))
  {
    var shards := CheckCohorts(cohorts);
    var validated := ValidatedRuns(cohorts);
    var revisions := CheckRevisions(validated);
    var keys := CheckKeys(cohorts.Keys);
    errors := shards + revisions + keys;
    if Partition(cohorts, runs) && forall r :: r in runs ==> Described(r) {
      SuitesDecided(cohorts, runs, validated);
    }
  }

  method UnreadableErrors(report: Report, jobs: Jobs) returns (errors: seq<Finding>)
    ensures errors == [] <==> (jobs.NoJobs? ==> report.unreadable == [])
  {
    errors := if jobs.NoJobs? then seq(|report.unreadable|, i requires 0 <= i < |report.unreadable| =>
                                     UnreadableReport(report.unreadable[i])) else [];
  }

  /** All stages of `audit_report` that accumulate errors: there are none exactly when the evidence is
      complete. */
  method FindErrors(report: Report, jobs: Jobs)
    returns (errors: seq<Finding>, runs: seq<Run>, byRun: map<string, seq<Test>>)
    ensures errors == [] <==> Evidence(report, jobs)
    ensures runs == DefaultRuns(report)
    ensures forall r :: r in runs ==> At(byRun, r.name) == TestsOf(report, r.name)
  {
    var unreadable := UnreadableErrors(report, jobs);
    runs := DefaultRuns(report);
    var selected := set r | r in runs :: r.name;
    byRun := GroupTests(report, selected);
    var unsound, cohorts := ValidateRuns(runs, byRun, report);
    var suites := CheckSuites(cohorts, runs);
    var producers: seq<Finding> := [];
    if !jobs.NoJobs? {
      producers := CheckJobs(runs, jobs);
    }
    errors := unreadable + unsound + suites + producers;
  }
}
