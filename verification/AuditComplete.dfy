/** Complete evidence, in the fields of the report and of the jobs: the condition under which the audit finds
    no error, without its filters, keys, cohorts, sorts and look-ups. */
module AuditComplete {
  import opened AuditEvidence
  import opened AuditJobs
  import opened AuditReports
  import opened Numbers
  import opened Sequences

  // ----- one run -----

  predicate DefaultAt(report: Report, i: int) {
    0 <= i < |report.runs| && report.runs[i].engine == "spmd-default"
  }

  /** The k-th test of the report is one of the run. */
  predicate TestAt(report: Report, r: Run, k: int) {
    0 <= k < |report.tests| && report.tests[k].run == r.name
  }

  /** The report has one test of the run for each node, and no other. */
  ghost predicate OneTestEach(report: Report, r: Run, nodes: seq<string>) {
    && (forall node :: node in nodes ==> exists k :: TestAt(report, r, k) && report.tests[k].nodeid == node)
    && (forall k :: TestAt(report, r, k) ==> report.tests[k].nodeid in nodes)
    && (forall k, l :: TestAt(report, r, k) && TestAt(report, r, l) && k < l ==>
          report.tests[k].nodeid != report.tests[l].nodeid)
  }

  predicate Telemetered(t: Test) {
    && t.complete && t.outcome != "incomplete"
    && t.fallback != UNKNOWN && t.gpuAttempted != UNKNOWN && t.gpuExecuted != UNKNOWN
  }

  /** A full run that exited zero, with one test for each node of its inventory and complete telemetry. */
  ghost predicate CompleteRun(report: Report, r: Run) {
    && Described(r) && '|' !in r.polarsVersion.value
    && r.selectionMode == Good("full") && r.exitStatus == Good(0) && r.consistent == Good(true)
    && r.collected == Good(|r.collectedNodeids.value|)
    && Distinct(r.collectedNodeids.value) && OneTestEach(report, r, r.collectedNodeids.value)
    && forall k :: TestAt(report, r, k) ==> Telemetered(report.tests[k])
  }

  // ----- filters, by index -----

  /** The entries that pass differ in `f`. */
  ghost predicate Apart<T(!new), U>(f: T -> U, p: T -> bool, s: seq<T>) {
    forall k, l :: 0 <= k < l < |s| && p(s[k]) && p(s[l]) ==> f(s[k]) != f(s[l])
  }

  lemma ApartLast<T(!new), U>(f: T -> U, p: T -> bool, s: seq<T>, n: nat)
    requires n == |s| - 1
    ensures Apart(f, p, s) <==> Apart(f, p, s[..n]) && (p(s[n]) ==> f(s[n]) !in Map(f, Filter(p, s[..n])))
  {
    var init := s[..n];
    LastDiffers(f, p, init, s[n]);
    assert forall k :: 0 <= k < n ==> init[k] == s[k];
    if Apart(f, p, init) && (p(s[n]) ==> f(s[n]) !in Map(f, Filter(p, init))) {
      forall k, l | 0 <= k < l < |s| && p(s[k]) && p(s[l]) ensures f(s[k]) != f(s[l]) {
        assert s[k] == init[k];
        assert l < n ==> s[l] == init[l];
      }
    }
    if Apart(f, p, s) {
      forall k, l | 0 <= k < l < n && p(init[k]) && p(init[l]) ensures f(init[k]) != f(init[l]) {
        assert init[k] == s[k] && init[l] == s[l];
      }
      if p(s[n]) {
        forall k | 0 <= k < n && p(init[k]) ensures f(init[k]) != f(s[n]) {
          assert init[k] == s[k];
        }
      }
    }
  }

  lemma AppendDistinct<U>(s: seq<U>, y: U)
    ensures Distinct(s + [y]) <==> Distinct(s) && y !in s
  {
    DistinctLast(s + [y]);
    assert (s + [y])[..|s|] == s;
  }

  lemma KeptLast<T(!new), U>(f: T -> U, p: T -> bool, s: seq<T>, n: nat)
    requires n == |s| - 1
    ensures var kept := Map(f, Filter(p, s[..n]));
            Map(f, Filter(p, s)) == kept + if p(s[n]) then [f(s[n])] else []
  {
    FilterAppend(p, s, n);
    assert s[..n + 1] == s;
    var kept := Filter(p, s[..n]);
    if p(s[n]) {
      assert Filter(p, s) == kept + [s[n]];
      MapAppend(f, kept, s[n]);
    } else {
      assert Filter(p, s) == kept;
    }
  }

  lemma MapAppend<T, U>(f: T -> U, s: seq<T>, x: T)
    ensures Map(f, s + [x]) == Map(f, s) + [f(x)]
  {
  }

  lemma {:induction false} FilterApart<T(!new), U>(f: T -> U, p: T -> bool, s: seq<T>)
    ensures Distinct(Map(f, Filter(p, s))) <==> Apart(f, p, s)
  {
    if s == [] {
      assert Map(f, Filter(p, s)) == [];
    } else {
      var n := |s| - 1;
      FilterApart(f, p, s[..n]);
      KeptLast(f, p, s, n);
      ApartLast(f, p, s, n);
      if p(s[n]) {
        AppendDistinct(Map(f, Filter(p, s[..n])), f(s[n]));
      } else {
        assert Map(f, Filter(p, s[..n])) + [] == Map(f, Filter(p, s[..n]));
      }
    }
  }

  lemma LastDiffers<T(!new), U>(f: T -> U, p: T -> bool, s: seq<T>, x: T)
    ensures f(x) !in Map(f, Filter(p, s)) <==> forall k :: 0 <= k < |s| && p(s[k]) ==> f(s[k]) != f(x)
  {
    var kept := Filter(p, s);
    if f(x) in Map(f, kept) {
      var i :| 0 <= i < |kept| && f(kept[i]) == f(x);
      assert kept[i] in kept;
      var k :| 0 <= k < |s| && s[k] == kept[i];
    }
    if k :| 0 <= k < |s| && p(s[k]) && f(s[k]) == f(x) {
      assert s[k] in kept;
      var i :| 0 <= i < |kept| && kept[i] == s[k];
      assert Map(f, kept)[i] == f(x);
    }
  }

  lemma MapMember<T(!new), U>(f: T -> U, s: seq<T>, y: U)
    ensures y in Map(f, s) <==> exists x :: x in s && f(x) == y
  {
    if x :| x in s && f(x) == y {
      var i :| 0 <= i < |s| && s[i] == x;
      assert Map(f, s)[i] == y;
    }
  }

  /** A test of a run, by index. */
  lemma TestMember(report: Report, r: Run, t: Test)
    ensures t in TestsOf(report, r.name) <==> exists k :: TestAt(report, r, k) && report.tests[k] == t
  {
    if t in TestsOf(report, r.name) {
      var k :| 0 <= k < |report.tests| && report.tests[k] == t;
      assert TestAt(report, r, k);
    }
  }

  lemma SameNodes(ids: seq<string>, nodes: seq<string>)
    requires Distinct(nodes)
    ensures multiset(ids) == multiset(nodes) <==> Distinct(ids) && forall x :: x in ids <==> x in nodes
  {
    if multiset(ids) == multiset(nodes) {
      SameElements(nodes, ids);
      forall x ensures x in ids <==> x in nodes {
        assert x in Elements(ids) <==> x in Elements(nodes);
      }
    }
    if Distinct(ids) && forall x :: x in ids <==> x in nodes {
      DistinctPermutation(ids, nodes);
    }
  }

  lemma TestsDiffer(report: Report, r: Run)
    ensures Distinct(Map(Nodeid, TestsOf(report, r.name)))
       <==> forall k, l :: TestAt(report, r, k) && TestAt(report, r, l) && k < l ==>
              report.tests[k].nodeid != report.tests[l].nodeid
  {
    FilterApart(Nodeid, OfRun(r.name), report.tests);
  }

  lemma NodesMean(report: Report, r: Run, nodes: seq<string>)
    requires Distinct(nodes)
    ensures multiset(Map(Nodeid, TestsOf(report, r.name))) == multiset(nodes) <==> OneTestEach(report, r, nodes)
  {
    var ids := Map(Nodeid, TestsOf(report, r.name));
    SameNodes(ids, nodes);
    TestsDiffer(report, r);
    forall x: string ensures x in ids <==> exists k :: TestAt(report, r, k) && report.tests[k].nodeid == x {
      MapMember(Nodeid, TestsOf(report, r.name), x);
      NodeMember(report, r, x);
    }
  }

  lemma NodeMember(report: Report, r: Run, x: string)
    ensures (exists t :: t in TestsOf(report, r.name) && Nodeid(t) == x)
       <==> exists k :: TestAt(report, r, k) && report.tests[k].nodeid == x
  {
    if t :| t in TestsOf(report, r.name) && Nodeid(t) == x {
      TestMember(report, r, t);
    }
    if k :| TestAt(report, r, k) && report.tests[k].nodeid == x {
      TestMember(report, r, report.tests[k]);
    }
  }

  lemma TelemetryMeans(report: Report, r: Run)
    ensures (forall t :: t in TestsOf(report, r.name) ==>
               t.complete && t.outcome != "incomplete" && !ExecutionCategory(t).Unknown?)
       <==> forall k :: TestAt(report, r, k) ==> Telemetered(report.tests[k])
  {
    forall k | TestAt(report, r, k) ensures report.tests[k] in TestsOf(report, r.name) {
      TestMember(report, r, report.tests[k]);
    }
    forall t | t in TestsOf(report, r.name) ensures exists k :: TestAt(report, r, k) && report.tests[k] == t {
      TestMember(report, r, t);
    }
  }

  lemma RunMeans(report: Report, r: Run)
    ensures Sound(r, TestsOf(report, r.name)) && '|' !in Version(r) <==> CompleteRun(report, r)
  {
    TelemetryMeans(report, r);
    if Described(r) && Distinct(r.collectedNodeids.value) {
      var tests, nodes := TestsOf(report, r.name), r.collectedNodeids.value;
      NodesMean(report, r, nodes);
      if multiset(Map(Nodeid, tests)) == multiset(nodes) {
        assert |tests| == |multiset(Map(Nodeid, tests))| == |multiset(nodes)| == |nodes|;
      }
    }
  }

  // ----- the shards of a suite -----

  predicate HasName(r: Run) {
    r.configuration.Some? && r.configuration.value != ""
  }

  /** The same named configuration, or for two runs without a name the same place in the matrix. */
  predicate SameConfiguration(a: Run, b: Run) {
    if HasName(a) || HasName(b) then a.configuration == b.configuration else a.matrix == b.matrix
  }

  /** Shards of one suite: default runs of one Polars version and one configuration. */
  predicate Sibling(x: Run, r: Run) {
    x.engine == "spmd-default" && x.polarsVersion == r.polarsVersion && SameConfiguration(x, r)
  }

  predicate Siblings(report: Report, r: Run, j: int) {
    0 <= j < |report.runs| && Sibling(report.runs[j], r)
  }

  /** The suite of a run has each shard once, and its shards agree on their number and on what they collected
      and skipped. */
  ghost predicate CompleteSuite(report: Report, r: Run)
    requires r.numShards.Good?
  {
    && (forall id :: 0 <= id < r.numShards.value ==>
          exists j :: Siblings(report, r, j) && report.runs[j].shardId == Good(id))
    && (forall j, l :: Siblings(report, r, j) && Siblings(report, r, l) && j < l ==>
          report.runs[j].shardId != report.runs[l].shardId)
    && forall j :: Siblings(report, r, j) ==>
         && report.runs[j].numShards == r.numShards
         && report.runs[j].collectionNodeids == r.collectionNodeids
         && report.runs[j].collectionSkips == r.collectionSkips
  }

  lemma RunMember(report: Report, r: Run)
    ensures r in DefaultRuns(report) <==> exists i :: DefaultAt(report, i) && report.runs[i] == r
  {
    if r in DefaultRuns(report) {
      var i :| 0 <= i < |report.runs| && report.runs[i] == r;
      assert DefaultAt(report, i);
    }
  }

  ghost predicate AllDescribed(report: Report) {
    forall i :: DefaultAt(report, i) ==> Described(report.runs[i])
  }

  function Both<T>(p: T -> bool, q: T -> bool): T -> bool {
    x => p(x) && q(x)
  }

  lemma {:induction false} FilterTwice<T(!new)>(p: T -> bool, q: T -> bool, s: seq<T>)
    ensures Filter(p, Filter(q, s)) == Filter(Both(p, q), s)
  {
    if s != [] {
      FilterTwice(p, q, s[1..]);
      FilterConcat(p, if q(s[0]) then [s[0]] else [], Filter(q, s[1..]));
    }
  }

  function ShardsOf(report: Report, r: Run): seq<Run>
    requires Described(r)
  {
    Filter(InCohort(CohortOf(r)), DefaultRuns(report))
  }

  lemma SiblingMeans(report: Report, r: Run, j: int)
    requires AllDescribed(report) && Described(r) && r.engine == "spmd-default" && DefaultAt(report, j)
    ensures InCohort(CohortOf(r))(report.runs[j]) <==> Siblings(report, r, j)
  {
    CohortMeaning(report.runs[j], r);
  }

  /** The members of a cohort, by index. */
  lemma ShardMember(report: Report, r: Run, x: Run)
    requires AllDescribed(report) && Described(r) && r.engine == "spmd-default"
    ensures x in ShardsOf(report, r) <==> exists j :: Siblings(report, r, j) && report.runs[j] == x
  {
    RunMember(report, x);
    if x in ShardsOf(report, r) {
      var j :| DefaultAt(report, j) && report.runs[j] == x;
      SiblingMeans(report, r, j);
    }
    if j :| Siblings(report, r, j) && report.runs[j] == x {
      SiblingMeans(report, r, j);
    }
  }

  function IsSibling(r: Run): Run -> bool {
    x => Sibling(x, r)
  }

  lemma ShardsAreSiblings(report: Report, r: Run)
    requires AllDescribed(report) && Described(r) && r.engine == "spmd-default"
    ensures ShardsOf(report, r) == Filter(IsSibling(r), report.runs)
  {
    var q, p := IsDefault(), InCohort(CohortOf(r));
    FilterTwice(p, q, report.runs);
    forall x | x in report.runs ensures Both(p, q)(x) == IsSibling(r)(x) {
      if x.engine == "spmd-default" {
        var j :| 0 <= j < |report.runs| && report.runs[j] == x;
        assert DefaultAt(report, j);
        SiblingMeans(report, r, j);
      }
    }
    FilterSame(Both(p, q), IsSibling(r), report.runs);
  }

  lemma ShardsDiffer(report: Report, r: Run)
    requires AllDescribed(report) && Described(r) && r.engine == "spmd-default"
    ensures Distinct(Map(ShardId, ShardsOf(report, r)))
       <==> forall j, l :: Siblings(report, r, j) && Siblings(report, r, l) && j < l ==>
              report.runs[j].shardId != report.runs[l].shardId
  {
    ShardsAreSiblings(report, r);
    FilterApart(ShardId, IsSibling(r), report.runs);
    forall j | Siblings(report, r, j) ensures report.runs[j].shardId == Good(ShardId(report.runs[j])) {
      assert DefaultAt(report, j);
    }
  }

  lemma SuiteAgrees(report: Report, r: Run)
    requires AllDescribed(report) && Described(r) && r.engine == "spmd-default" && r in report.runs
    ensures (&& Uniform(NumShards, ShardsOf(report, r)) && Uniform(Collection, ShardsOf(report, r))
             && Uniform(Skips, ShardsOf(report, r)))
       <==> forall j :: Siblings(report, r, j) ==>
              && report.runs[j].numShards == r.numShards
              && report.runs[j].collectionNodeids == r.collectionNodeids
              && report.runs[j].collectionSkips == r.collectionSkips
  {
    var shards := ShardsOf(report, r);
    assert r in DefaultRuns(report) && r in shards;
    forall x: Run ensures x in shards <==> exists j :: Siblings(report, r, j) && report.runs[j] == x {
      ShardMember(report, r, x);
    }
    forall j | Siblings(report, r, j)
      ensures report.runs[j] in shards
      ensures NumShards(report.runs[j]) == NumShards(r) <==> report.runs[j].numShards == r.numShards
      ensures Collection(report.runs[j]) == Collection(r) <==> report.runs[j].collectionNodeids == r.collectionNodeids
      ensures Skips(report.runs[j]) == Skips(r) <==> report.runs[j].collectionSkips == r.collectionSkips
    {
      assert DefaultAt(report, j);
    }
  }

  lemma ShardIds(report: Report, r: Run, id: int)
    requires AllDescribed(report) && Described(r) && r.engine == "spmd-default"
    ensures id in Map(ShardId, ShardsOf(report, r))
       <==> exists j :: Siblings(report, r, j) && report.runs[j].shardId == Good(id)
  {
    MapMember(ShardId, ShardsOf(report, r), id);
    if x :| x in ShardsOf(report, r) && ShardId(x) == id {
      ShardMember(report, r, x);
      var j :| Siblings(report, r, j) && report.runs[j] == x;
      assert report.runs[j].shardId == Good(id);
    }
    if j :| Siblings(report, r, j) && report.runs[j].shardId == Good(id) {
      ShardMember(report, r, report.runs[j]);
      assert ShardId(report.runs[j]) == id;
    }
  }

  lemma SuiteMeans(report: Report, r: Run)
    requires AllDescribed(report) && Described(r) && r.engine == "spmd-default" && r in report.runs
    ensures WholeSuite(ShardsOf(report, r)) <==> CompleteSuite(report, r)
  {
    var shards := ShardsOf(report, r);
    assert r in DefaultRuns(report) && r in shards;
    SuiteAgrees(report, r);
    ShardsDiffer(report, r);
    forall id: int
      ensures id in Map(ShardId, shards) <==> exists j :: Siblings(report, r, j) && report.runs[j].shardId == Good(id)
    {
      ShardIds(report, r, id);
    }
    if CompleteSuite(report, r) {
      forall x, id: int | x in shards ensures id in Map(ShardId, shards) <==> 0 <= id < NumShards(x) {
        ShardMember(report, r, x);
        if id in Map(ShardId, shards) {
          var j :| Siblings(report, r, j) && report.runs[j].shardId == Good(id);
          assert DefaultAt(report, j);
        }
      }
    }
  }

  // ----- revisions -----

  /** One cuDF revision, and one upstream revision per Polars version. */
  ghost predicate OneRevision(report: Report) {
    forall i, j :: DefaultAt(report, i) && DefaultAt(report, j) ==>
      && report.runs[i].cudfSha == report.runs[j].cudfSha
      && (report.runs[i].polarsVersion == report.runs[j].polarsVersion ==>
            report.runs[i].upstreamSha == report.runs[j].upstreamSha)
  }

  lemma RevisionsMean(report: Report)
    requires AllDescribed(report)
    ensures Uniform(CudfSha, DefaultRuns(report)) && OneUpstreamPerVersion(DefaultRuns(report)) <==> OneRevision(report)
  {
    var runs := DefaultRuns(report);
    forall r: Run ensures r in runs <==> exists i :: DefaultAt(report, i) && report.runs[i] == r {
      RunMember(report, r);
    }
    forall i, j | DefaultAt(report, i) && DefaultAt(report, j)
      ensures report.runs[i] in runs && report.runs[j] in runs
      ensures CudfSha(report.runs[i]) == CudfSha(report.runs[j])
         <==> report.runs[i].cudfSha == report.runs[j].cudfSha
      ensures Version(report.runs[i]) == Version(report.runs[j])
         <==> report.runs[i].polarsVersion == report.runs[j].polarsVersion
      ensures UpstreamSha(report.runs[i]) == UpstreamSha(report.runs[j])
         <==> report.runs[i].upstreamSha == report.runs[j].upstreamSha
    {
      assert Described(report.runs[i]) && Described(report.runs[j]);
    }
  }

  // ----- jobs -----

  predicate RelevantAt(jobs: seq<Job>, k: int) {
    0 <= k < |jobs| && jobs[k].name.Good? && "cudf-polars-polars-tests (spmd, default," <= jobs[k].name.value
  }

  /** A relevant job that is not a helper. */
  ghost predicate ProducerAt(jobs: seq<Job>, k: int) {
    RelevantAt(jobs, k) && !exists before :: jobs[k].name.value == before + " / compute-matrix"
  }

  /** The run gives the job's id in decimal digits and the last part of its name. */
  ghost predicate MadeBy(r: Run, j: Job) {
    && j.id.Good? && j.id.value >= 0 && j.name.Good?
    && r.producer.Some? && Prints(r.producer.value, j.id.value)
    && r.configuration.Some? && IsLastPart(r.configuration.value, j.name.value)
  }

  /** Relevant jobs succeeded and have ids of their own. */
  ghost predicate GoodJobs(jobs: seq<Job>) {
    && (forall k :: RelevantAt(jobs, k) ==> Finished(jobs[k]))
    && forall k, l :: RelevantAt(jobs, k) && RelevantAt(jobs, l) && k < l ==> jobs[k].id != jobs[l].id
  }

  predicate Finished(j: Job) {
    j.conclusion == Good("success") && j.id.Good? && j.id.value >= 0
  }

  ghost predicate JobHasRun(report: Report, j: Job) {
    exists i :: DefaultAt(report, i) && MadeBy(report.runs[i], j)
  }

  ghost predicate RunHasJob(r: Run, jobs: seq<Job>) {
    exists k :: ProducerAt(jobs, k) && MadeBy(r, jobs[k])
  }

  ghost predicate ProducersApart(report: Report) {
    forall i, j :: DefaultAt(report, i) && DefaultAt(report, j) && i < j ==>
      report.runs[i].producer != report.runs[j].producer
  }

  /** Producers and runs correspond one to one. */
  ghost predicate JobsBelong(report: Report, jobs: seq<Job>) {
    && GoodJobs(jobs) && (exists k :: ProducerAt(jobs, k))
    && (forall k :: ProducerAt(jobs, k) ==> JobHasRun(report, jobs[k]))
    && (forall i :: DefaultAt(report, i) ==> RunHasJob(report.runs[i], jobs))
    && ProducersApart(report)
  }

  lemma HelperMeans(j: Job)
    requires j.name.Good?
    ensures IsHelper()(j) <==> exists before :: j.name.value == before + " / compute-matrix"
  {
    var name := j.name.value;
    if IsHelper()(j) {
      assert name == name[..|name| - |HELPER_SUFFIX|] + " / compute-matrix";
    }
  }

  lemma RelevantMember(jobs: seq<Job>, j: Job)
    ensures j in Filter(Relevant(), jobs) <==> exists k :: RelevantAt(jobs, k) && jobs[k] == j
  {
    if j in Filter(Relevant(), jobs) {
      var k :| 0 <= k < |jobs| && jobs[k] == j;
      assert RelevantAt(jobs, k);
    }
  }

  lemma ProducerMember(jobs: seq<Job>, j: Job)
    ensures j in Filter(IsProducer(), Filter(Relevant(), jobs)) <==> exists k :: ProducerAt(jobs, k) && jobs[k] == j
  {
    RelevantMember(jobs, j);
    if j.name.Good? {
      HelperMeans(j);
    }
    if j in Filter(IsProducer(), Filter(Relevant(), jobs)) {
      var k :| RelevantAt(jobs, k) && jobs[k] == j;
      assert ProducerAt(jobs, k);
    }
  }

  lemma IdsDiffer(jobs: seq<Job>)
    requires forall k :: RelevantAt(jobs, k) ==> jobs[k].id.Good?
    ensures Distinct(Map(Id, Filter(Relevant(), jobs)))
       <==> forall k, l :: RelevantAt(jobs, k) && RelevantAt(jobs, l) && k < l ==> jobs[k].id != jobs[l].id
  {
    FilterApart(Id, Relevant(), jobs);
    forall k | RelevantAt(jobs, k) ensures jobs[k].id == Good(Id(jobs[k])) {
    }
  }

  lemma JobsInOrder(jobs: seq<Job>)
    ensures var relevant := Filter(Relevant(), jobs);
            AllWellFormed(relevant) && AllSucceeded(relevant) && Distinct(Map(Id, relevant)) <==> GoodJobs(jobs)
  {
    var relevant := Filter(Relevant(), jobs);
    forall j: Job ensures j in relevant <==> exists k :: RelevantAt(jobs, k) && jobs[k] == j {
      RelevantMember(jobs, j);
    }
    if AllWellFormed(relevant) && AllSucceeded(relevant) {
      forall k | RelevantAt(jobs, k) ensures Finished(jobs[k]) {
        assert jobs[k] in relevant;
      }
      IdsDiffer(jobs);
    }
    if forall k :: RelevantAt(jobs, k) ==> Finished(jobs[k]) {
      IdsDiffer(jobs);
    }
  }

  lemma MadeByMeans(r: Run, j: Job)
    requires WellFormed(j)
    ensures MadeBy(r, j) <==> r.producer == Some(IdText(j)) && r.configuration == Some(LastSegment(Name(j)))
  {
    if r.producer.Some? {
      DecimalMeans(j.id.value, r.producer.value);
    }
    if r.configuration.Some? {
      LastPartMeans(j.name.value, r.configuration.value);
    }
  }

  ghost predicate Produced(runs: seq<Run>, j: Job) {
    exists r :: r in runs && r.producer == Some(IdText(j)) && r.configuration == Some(LastSegment(Name(j)))
  }

  lemma JobHasRunMeans(report: Report, j: Job)
    requires WellFormed(j)
    ensures JobHasRun(report, j) <==> Produced(DefaultRuns(report), j)
  {
    if i :| DefaultAt(report, i) && MadeBy(report.runs[i], j) {
      MadeByMeans(report.runs[i], j);
      assert report.runs[i] in DefaultRuns(report);
    }
    if r :| && r in DefaultRuns(report) && r.producer == Some(IdText(j))
            && r.configuration == Some(LastSegment(Name(j)))
    {
      RunMember(report, r);
      MadeByMeans(r, j);
    }
  }

  lemma RunHasJobMeans(r: Run, jobs: seq<Job>, producers: seq<Job>)
    requires producers == Filter(IsProducer(), Filter(Relevant(), jobs)) && AllWellFormed(producers)
    ensures RunHasJob(r, jobs) <==> Configured(r, producers)
  {
    if k :| ProducerAt(jobs, k) && MadeBy(r, jobs[k]) {
      ProducerMember(jobs, jobs[k]);
      MadeByMeans(r, jobs[k]);
    }
    if j :| j in producers && r.producer == Some(IdText(j)) && r.configuration == Some(LastSegment(Name(j))) {
      ProducerMember(jobs, j);
      MadeByMeans(r, j);
    }
  }

  /** The comparison by sets and counts, as two ways of pairing runs with jobs. */
  lemma PairsMean(runs: seq<Run>, producers: seq<Job>)
    requires AllWellFormed(producers) && Distinct(Map(Id, producers))
    ensures NamesMatch(runs, producers) && ConfigurationsMatch(runs, producers)
       <==> && (forall j :: j in producers ==> Produced(runs, j))
            && (forall r :: r in runs ==> Configured(r, producers)) && Distinct(Map(Producer, runs))
  {
    if NamesMatch(runs, producers) && ConfigurationsMatch(runs, producers) {
      SomeTexts(producers, Map(Producer, runs));
      forall j | j in producers ensures Produced(runs, j) {
        MapMember(Promised, producers, Promised(j));
        PromiseKept(runs, producers, Promised(j));
        MapMember(Made, runs, Promised(j));
      }
    }
    if && (forall j :: j in producers ==> Produced(runs, j)) && (forall r :: r in runs ==> Configured(r, producers))
       && Distinct(Map(Producer, runs))
    {
      PairsMatch(runs, producers);
    }
  }

  lemma PairsMatch(runs: seq<Run>, producers: seq<Job>)
    requires forall j :: j in producers ==> Produced(runs, j)
    requires forall r :: r in runs ==> Configured(r, producers)
    requires Distinct(Map(Producer, runs))
    ensures NamesMatch(runs, producers) && ConfigurationsMatch(runs, producers)
  {
    var reported, texts := Map(Producer, runs), Map(IdText, producers);
    forall p ensures p in reported <==> p.Some? && p.value in texts {
      if p in reported {
        ReportedIsText(runs, producers, p);
      }
      if p.Some? && p.value in texts {
        TextIsReported(runs, producers, p.value);
      }
    }
    DistinctSize(reported);
    SomeSize(Elements(texts));
    assert Elements(reported) == set x | x in Elements(texts) :: Some(x);
  }

  lemma ReportedIsText(runs: seq<Run>, producers: seq<Job>, p: Option<string>)
    requires forall r :: r in runs ==> Configured(r, producers)
    requires p in Map(Producer, runs)
    ensures p.Some? && p.value in Map(IdText, producers)
  {
    var i :| 0 <= i < |runs| && runs[i].producer == p;
    assert Configured(runs[i], producers);
    var j :| j in producers && p == Some(IdText(j));
    MapMember(IdText, producers, p.value);
  }

  lemma TextIsReported(runs: seq<Run>, producers: seq<Job>, x: string)
    requires forall j :: j in producers ==> Produced(runs, j)
    requires x in Map(IdText, producers)
    ensures Some(x) in Map(Producer, runs)
  {
    var k :| 0 <= k < |producers| && IdText(producers[k]) == x;
    assert Produced(runs, producers[k]);
    var r :| r in runs && r.producer == Some(x);
    MapMember(Producer, runs, Some(x));
  }

  lemma PairsByIndex(report: Report, jobs: seq<Job>, producers: seq<Job>)
    requires producers == Filter(IsProducer(), Filter(Relevant(), jobs)) && AllWellFormed(producers)
    ensures producers != [] <==> exists k :: ProducerAt(jobs, k)
    ensures (forall j :: j in producers ==> Produced(DefaultRuns(report), j))
       <==> forall k :: ProducerAt(jobs, k) ==> JobHasRun(report, jobs[k])
    ensures (forall r :: r in DefaultRuns(report) ==> Configured(r, producers))
       <==> forall i :: DefaultAt(report, i) ==> RunHasJob(report.runs[i], jobs)
  {
    forall j | j in producers ensures exists k :: ProducerAt(jobs, k) && jobs[k] == j {
      ProducerMember(jobs, j);
    }
    forall k | ProducerAt(jobs, k)
      ensures jobs[k] in producers && (JobHasRun(report, jobs[k]) <==> Produced(DefaultRuns(report), jobs[k]))
    {
      ProducerMember(jobs, jobs[k]);
      JobHasRunMeans(report, jobs[k]);
    }
    RunsByIndex(report, jobs, producers);
    assert producers != [] ==> producers[0] in producers;
  }

  lemma RunsByIndex(report: Report, jobs: seq<Job>, producers: seq<Job>)
    requires producers == Filter(IsProducer(), Filter(Relevant(), jobs)) && AllWellFormed(producers)
    ensures (forall r :: r in DefaultRuns(report) ==> Configured(r, producers))
       <==> forall i :: DefaultAt(report, i) ==> RunHasJob(report.runs[i], jobs)
  {
    forall r | r in DefaultRuns(report)
      ensures (exists i :: DefaultAt(report, i) && report.runs[i] == r)
      ensures RunHasJob(r, jobs) <==> Configured(r, producers)
    {
      RunMember(report, r);
      RunHasJobMeans(r, jobs, producers);
    }
    forall i | DefaultAt(report, i) ensures report.runs[i] in DefaultRuns(report) {
      RunMember(report, report.runs[i]);
    }
  }

  lemma ProducersDiffer(report: Report)
    ensures Distinct(Map(Producer, DefaultRuns(report))) <==> ProducersApart(report)
  {
    FilterApart(Producer, IsDefault(), report.runs);
  }

  lemma JobsMean(report: Report, jobs: seq<Job>)
    ensures ProducersMatch(DefaultRuns(report), Listed(jobs)) <==> JobsBelong(report, jobs)
  {
    JobsInOrder(jobs);
    var runs, relevant := DefaultRuns(report), Filter(Relevant(), jobs);
    if AllWellFormed(relevant) && AllSucceeded(relevant) && Distinct(Map(Id, relevant)) {
      var producers := Filter(IsProducer(), relevant);
      IdsFiltered(IsProducer(), relevant);
      OneToOneDecided(runs, producers);
      PairsMean(runs, producers);
      ProducersDiffer(report);
      PairsByIndex(report, jobs, producers);
    }
  }

  // ----- the evidence -----

  /** Complete evidence: every default run is a complete run in a complete suite, all of one revision, and it
      belongs to the producer jobs if there is an inventory of them. */
  ghost predicate Complete(report: Report, jobs: Jobs) {
    && (jobs.NoJobs? ==> report.unreadable == [])
    && (exists i :: DefaultAt(report, i))
    && (forall i :: DefaultAt(report, i) ==>
          CompleteRun(report, report.runs[i]) && CompleteSuite(report, report.runs[i]))
    && OneRevision(report)
    && (!jobs.NoJobs? ==> jobs.Listed? && JobsBelong(report, jobs.jobs))
  }

  lemma RunsMean(report: Report)
    ensures && AllSound(DefaultRuns(report), report)
            && (forall r :: r in DefaultRuns(report) ==> Suite(r, DefaultRuns(report)))
       <==> forall i :: DefaultAt(report, i) ==>
              CompleteRun(report, report.runs[i]) && CompleteSuite(report, report.runs[i])
  {
    var runs := DefaultRuns(report);
    forall r | r in runs ensures exists i :: DefaultAt(report, i) && report.runs[i] == r {
      RunMember(report, r);
    }
    forall i | DefaultAt(report, i)
      ensures report.runs[i] in runs
      ensures Sound(report.runs[i], TestsOf(report, report.runs[i].name)) && '|' !in Version(report.runs[i])
         <==> CompleteRun(report, report.runs[i])
    {
      RunMember(report, report.runs[i]);
      RunMeans(report, report.runs[i]);
    }
    if AllDescribed(report) {
      forall i | DefaultAt(report, i)
        ensures Suite(report.runs[i], runs)
           <==> '|' !in Version(report.runs[i]) && CompleteSuite(report, report.runs[i])
      {
        SuiteMeans(report, report.runs[i]);
      }
    }
  }

  /** The audit's evidence is complete exactly when the report and the jobs are. */
  lemma EvidenceMeans(report: Report, jobs: Jobs)
    ensures Evidence(report, jobs) <==> Complete(report, jobs)
  {
    RunsMean(report);
    var runs := DefaultRuns(report);
    forall r: Run ensures r in runs <==> exists i :: DefaultAt(report, i) && report.runs[i] == r {
      RunMember(report, r);
    }
    assert runs != [] ==> runs[0] in runs;
    if AllDescribed(report) {
      RevisionsMean(report);
    }
    if jobs.Listed? {
      JobsMean(report, jobs.jobs);
    }
  }
}
