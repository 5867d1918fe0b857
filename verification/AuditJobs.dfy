/** The check of `audit_report` that runs and producer jobs of the workflow belong together. */
module AuditJobs {
  import opened AuditReports
  import opened Numbers
  import opened Sequences

  const PR_PRODUCER_PREFIX := "cudf-polars-polars-tests (spmd, default,"
  const HELPER_SUFFIX := " / compute-matrix"

  datatype Job = Job(name: Field<string>, conclusion: Field<string>, id: Field<int>)

  /** The job inventory is not asked for, is not a list, or lists jobs. */
  datatype Jobs = NoJobs | NotAList | Listed(jobs: seq<Job>)

  function Relevant(): Job -> bool {
    (j: Job) => j.name.Good? && StartsWith(j.name.value, PR_PRODUCER_PREFIX)
  }

  predicate WellFormed(j: Job) {
    j.name.Good? && j.conclusion.Good? && j.id.Good? && j.id.value >= 0
  }

  function IsHelper(): Job -> bool {
    (j: Job) => j.name.Good? && EndsWith(j.name.value, HELPER_SUFFIX)
  }

  function IsProducer(): Job -> bool {
    (j: Job) => !IsHelper()(j)
  }

  predicate Succeeded(j: Job) {
    j.conclusion == Good("success")
  }

  function Id(j: Job): int {
    if j.id.Good? then j.id.value else -1
  }

  function IdText(j: Job): string {
    if Id(j) >= 0 then Decimal(Id(j)) else ""
  }

  function Producer(r: Run): Option<string> {
    r.producer
  }

  // ----- what the check is for -----

  function Name(j: Job): string {
    if j.name.Good? then j.name.value else ""
  }

  /** Who made a run, and under which configuration. */
  function Made(r: Run): (Option<string>, Option<string>) {
    (r.producer, r.configuration)
  }

  function Promised(j: Job): (Option<string>, Option<string>) {
    (Some(IdText(j)), Some(LastSegment(Name(j))))
  }

  /** All relevant jobs are well formed, have ids of their own and succeeded; and the runs and the
      jobs that are not helpers correspond one to one, by id and by configuration. */
  ghost predicate ProducersMatch(runs: seq<Run>, jobs: Jobs) {
    && jobs.Listed?
    && var relevant := Filter(Relevant(), jobs.jobs);
       var producers := Filter(IsProducer(), relevant);
       && AllWellFormed(relevant) && AllSucceeded(relevant)
       && Distinct(Map(Id, relevant))
       && producers != []
       && OneToOne(runs, producers)
  }

  // ----- the check -----

  lemma {:induction false} IdsFiltered(p: Job -> bool, jobs: seq<Job>)
    requires Distinct(Map(Id, jobs))
    ensures Distinct(Map(Id, Filter(p, jobs)))
  {
    if jobs != [] {
      var rest := jobs[1..];
      assert forall i :: 0 <= i < |rest| ==> Map(Id, rest)[i] == Map(Id, jobs)[i + 1];
      IdsFiltered(p, rest);
      var kept := Filter(p, rest);
      if p(jobs[0]) {
        forall j | j in rest ensures Id(j) != Id(jobs[0]) {
          var k :| 1 <= k < |jobs| && jobs[k] == j;
          assert Map(Id, jobs)[k] != Map(Id, jobs)[0];
        }
        DistinctHead(jobs[0], kept);
        assert Filter(p, jobs) == [jobs[0]] + kept;
      } else {
        assert Filter(p, jobs) == kept;
      }
    }
  }

  lemma DistinctHead(head: Job, rest: seq<Job>)
    requires Distinct(Map(Id, rest)) && forall j :: j in rest ==> Id(j) != Id(head)
    ensures Distinct(Map(Id, [head] + rest))
  {
    assert Map(Id, [head] + rest) == [Id(head)] + Map(Id, rest);
    forall i | 0 <= i < |rest| ensures Map(Id, rest)[i] != Id(head) {
      assert rest[i] in rest;
    }
  }

  ghost predicate AllWellFormed(jobs: seq<Job>) {
    forall j :: j in jobs ==> WellFormed(j)
  }

  lemma IdTextInjective(jobs: seq<Job>, i: nat, k: nat)
    requires AllWellFormed(jobs) && Distinct(Map(Id, jobs)) && i < |jobs| && k < |jobs|
    requires IdText(jobs[i]) == IdText(jobs[k])
    ensures i == k
  {
    assert jobs[i] in jobs && jobs[k] in jobs;
    DecimalInjective(Id(jobs[i]), Id(jobs[k]));
    assert Map(Id, jobs)[i] == Map(Id, jobs)[k];
  }

  lemma IdTextsDistinct(jobs: seq<Job>)
    requires AllWellFormed(jobs) && Distinct(Map(Id, jobs))
    ensures Distinct(Map(IdText, jobs)) && Distinct(Map(Promised, jobs))
    ensures |Elements(Map(IdText, jobs))| == |jobs|
  {
    forall i, k | 0 <= i < k < |jobs| ensures IdText(jobs[i]) != IdText(jobs[k]) {
      if IdText(jobs[i]) == IdText(jobs[k]) {
        IdTextInjective(jobs, i, k);
      }
    }
    DistinctSize(Map(IdText, jobs));
  }

  /** What the code compares: the producers the runs name with the ids of the jobs. */
  ghost predicate NamesMatch(runs: seq<Run>, producers: seq<Job>) {
    && (forall p :: p in Map(Producer, runs) ==> p.Some? && p.value in Map(IdText, producers))
    && (forall x :: x in Map(IdText, producers) ==> Some(x) in Map(Producer, runs))
    && |runs| == |Elements(Map(IdText, producers))|
  }

  ghost predicate ConfigurationsMatch(runs: seq<Run>, producers: seq<Job>) {
    forall r :: r in runs ==> Configured(r, producers)
  }

  lemma SomeTexts(producers: seq<Job>, reported: seq<Option<string>>)
    requires forall p :: p in reported ==> p.Some? && p.value in Map(IdText, producers)
    requires forall x :: x in Map(IdText, producers) ==> Some(x) in reported
    requires |reported| == |Elements(Map(IdText, producers))|
    ensures Distinct(reported)
  {
    var texts := Elements(Map(IdText, producers));
    var some := set x | x in texts :: Some(x);
    SomeSize(texts);
    assert Elements(reported) == some;
    DistinctSize(reported);
  }

  lemma {:induction false} SomeSize(texts: set<string>)
    ensures |set x | x in texts :: Some(x)| == |texts|
    decreases |texts|
  {
    if texts != {} {
      var x :| x in texts;
      SomeSize(texts - {x});
      assert (set y | y in texts :: Some(y)) == (set y | y in texts - {x} :: Some(y)) + {Some(x)};
    }
  }

  lemma MadeIsPromised(runs: seq<Run>, producers: seq<Job>)
    requires AllWellFormed(producers) && Distinct(Map(Id, producers))
    requires NamesMatch(runs, producers) && ConfigurationsMatch(runs, producers)
    ensures multiset(Map(Made, runs)) == multiset(Map(Promised, producers))
  {
    SomeTexts(producers, Map(Producer, runs));
    IdTextsDistinct(producers);
    assert Distinct(Map(Made, runs)) by {
      forall i, k | 0 <= i < k < |runs| ensures Made(runs[i]) != Made(runs[k]) {
        assert Map(Producer, runs)[i] != Map(Producer, runs)[k];
      }
    }
    forall x ensures x in Map(Made, runs) <==> x in Map(Promised, producers) {
      if x in Map(Made, runs) {
        var i :| 0 <= i < |runs| && Made(runs[i]) == x;
        assert runs[i] in runs;
        var j :| j in producers && runs[i].producer == Some(IdText(j))
                 && runs[i].configuration == Some(LastSegment(Name(j)));
        var k :| 0 <= k < |producers| && producers[k] == j;
        assert Map(Promised, producers)[k] == x;
      }
      if x in Map(Promised, producers) {
        PromiseKept(runs, producers, x);
      }
    }
    DistinctPermutation(Map(Made, runs), Map(Promised, producers));
  }

  lemma PromiseKept(runs: seq<Run>, producers: seq<Job>, x: (Option<string>, Option<string>))
    requires AllWellFormed(producers) && Distinct(Map(Id, producers))
    requires NamesMatch(runs, producers) && ConfigurationsMatch(runs, producers)
    requires x in Map(Promised, producers)
    ensures x in Map(Made, runs)
  {
    var k :| 0 <= k < |producers| && Promised(producers[k]) == x;
    assert Map(IdText, producers)[k] in Map(IdText, producers);
    assert Some(IdText(producers[k])) in Map(Producer, runs);
    var i :| 0 <= i < |runs| && runs[i].producer == Some(IdText(producers[k]));
    assert runs[i] in runs;
    var j :| j in producers && runs[i].producer == Some(IdText(j))
             && runs[i].configuration == Some(LastSegment(Name(j)));
    var m :| 0 <= m < |producers| && producers[m] == j;
    IdTextInjective(producers, k, m);
    assert Map(Made, runs)[i] == x;
  }

  lemma MadeFrom(runs: seq<Run>, producers: seq<Job>, r: Run) returns (j: Job)
    requires multiset(Map(Made, runs)) == multiset(Map(Promised, producers)) && r in runs
    ensures j in producers && Made(r) == Promised(j)
  {
    var i :| 0 <= i < |runs| && runs[i] == r;
    assert Map(Made, runs)[i] in multiset(Map(Promised, producers));
    var k :| 0 <= k < |producers| && Map(Promised, producers)[k] == Made(r);
    j := producers[k];
  }

  lemma PromisedIsMade(runs: seq<Run>, producers: seq<Job>)
    requires AllWellFormed(producers) && Distinct(Map(Id, producers))
    requires multiset(Map(Made, runs)) == multiset(Map(Promised, producers))
    ensures NamesMatch(runs, producers) && ConfigurationsMatch(runs, producers)
  {
    IdTextsDistinct(producers);
    assert |Map(Made, runs)| == |multiset(Map(Made, runs))| == |Map(Promised, producers)|;
    forall p | p in Map(Producer, runs) ensures p.Some? && p.value in Map(IdText, producers) {
      var i :| 0 <= i < |runs| && Map(Producer, runs)[i] == p;
      var j := MadeFrom(runs, producers, runs[i]);
      var k :| 0 <= k < |producers| && producers[k] == j;
      assert Map(IdText, producers)[k] == p.value;
    }
    forall x | x in Map(IdText, producers) ensures Some(x) in Map(Producer, runs) {
      var k :| 0 <= k < |producers| && Map(IdText, producers)[k] == x;
      assert Map(Promised, producers)[k] in multiset(Map(Made, runs));
      var i :| 0 <= i < |runs| && Map(Made, runs)[i] == Promised(producers[k]);
      assert Map(Producer, runs)[i] == Some(x);
    }
    forall r | r in runs ensures Configured(r, producers) {
      var j := MadeFrom(runs, producers, r);
    }
  }

  /** The names of the jobs, by the text of their ids; a later job of the same id wins. */
  method JobNames(producers: seq<Job>) returns (names: map<string, string>)
    ensures names.Keys == Elements(Map(IdText, producers))
    ensures Distinct(Map(IdText, producers)) ==> NamesOf(names, producers)
  {
    names := map[];
    for i := 0 to |producers|
      invariant names.Keys == Elements(Map(IdText, producers[..i]))
      invariant Distinct(Map(IdText, producers)) ==> NamesOf(names, producers[..i])
    {
      assert producers[..i + 1] == producers[..i] + [producers[i]];
      MapConcat(IdText, producers[..i], [producers[i]]);
      if Distinct(Map(IdText, producers)) {
        forall k | 0 <= k < i ensures IdText(producers[k]) != IdText(producers[i]) {
          assert Map(IdText, producers)[k] != Map(IdText, producers)[i];
        }
      }
      names := names[IdText(producers[i]) := Name(producers[i])];
    }
    assert producers[..|producers|] == producers;
  }

  ghost predicate NamesOf(names: map<string, string>, producers: seq<Job>) {
    forall j :: j in producers ==> IdText(j) in names && names[IdText(j)] == Name(j)
  }

  ghost predicate Configured(r: Run, producers: seq<Job>) {
    exists j :: j in producers && r.producer == Some(IdText(j)) && r.configuration == Some(LastSegment(Name(j)))
  }

  /** Looking the job up by the text of its id finds the one job with that id. */
  lemma LookUp(r: Run, producers: seq<Job>, names: map<string, string>)
    requires NamesOf(names, producers) && r.producer.Some? && r.producer.value in Map(IdText, producers)
    ensures r.producer.value in names
    ensures Configured(r, producers) <==> r.configuration == Some(LastSegment(names[r.producer.value]))
  {
    var k :| 0 <= k < |producers| && Map(IdText, producers)[k] == r.producer.value;
    assert producers[k] in producers;
  }

  lemma NextConfigured(runs: seq<Run>, i: nat, producers: seq<Job>)
    requires i < |runs|
    ensures ConfigurationsMatch(runs[..i + 1], producers)
       <==> ConfigurationsMatch(runs[..i], producers) && Configured(runs[i], producers)
  {
    assert runs[..i + 1] == runs[..i] + [runs[i]];
  }

  method CheckConfigurations(runs: seq<Run>, producers: seq<Job>) returns (errors: seq<Finding>)
    requires AllWellFormed(producers) && NamesMatch(runs, producers)
    ensures Distinct(Map(Id, producers)) ==> (errors == [] <==> ConfigurationsMatch(runs, producers))
  {
    if Distinct(Map(Id, producers)) {
      IdTextsDistinct(producers);
    }
    var names := JobNames(producers);
    errors := [];
    for i := 0 to |runs|
      invariant NamesOf(names, producers) ==> (errors == [] <==> ConfigurationsMatch(runs[..i], producers))
    {
      NextConfigured(runs, i, producers);
      assert Map(Producer, runs)[i] == runs[i].producer;
      if NamesOf(names, producers) {
        LookUp(runs[i], producers, names);
      }
      if runs[i].configuration != Some(LastSegment(names[runs[i].producer.value])) {
        errors := errors + [WrongConfiguration(runs[i].name)];
      }
    }
    assert runs[..|runs|] == runs;
  }

  lemma NamesAsSets(runs: seq<Run>, producers: seq<Job>)
    ensures NamesMatch(runs, producers)
       <==> Elements(Map(Producer, runs)) == (set x | x in Elements(Map(IdText, producers)) :: Some(x))
            && |runs| == |Elements(Map(IdText, producers))|
  {
    var expected, reported := Elements(Map(IdText, producers)), Map(Producer, runs);
    if Elements(reported) == (set x | x in expected :: Some(x)) && |runs| == |expected| {
      forall p | p in reported ensures p.Some? && p.value in Map(IdText, producers) {
        assert p in Elements(reported);
      }
      forall x | x in Map(IdText, producers) ensures Some(x) in reported {
        assert x in expected;
        assert Some(x) in Elements(reported);
      }
    }
  }

  ghost predicate OneToOne(runs: seq<Run>, producers: seq<Job>) {
    multiset(Map(Made, runs)) == multiset(Map(Promised, producers))
  }

  /** Comparing sets, counts and names decides the one-to-one correspondence. */
  lemma OneToOneDecided(runs: seq<Run>, producers: seq<Job>)
    requires AllWellFormed(producers) && Distinct(Map(Id, producers))
    ensures OneToOne(runs, producers) <==> NamesMatch(runs, producers) && ConfigurationsMatch(runs, producers)
  {
    if OneToOne(runs, producers) {
      PromisedIsMade(runs, producers);
    }
    if NamesMatch(runs, producers) && ConfigurationsMatch(runs, producers) {
      MadeIsPromised(runs, producers);
    }
  }

  ghost predicate AllSucceeded(jobs: seq<Job>) {
    forall j :: j in jobs ==> Succeeded(j)
  }

  /** The comparison of runs and producer jobs. */
  method MatchRuns(runs: seq<Run>, producers: seq<Job>) returns (errors: seq<Finding>)
    requires AllWellFormed(producers)
    ensures Distinct(Map(Id, producers)) ==>
              (errors == [] <==> producers != [] && AllSucceeded(producers) && OneToOne(runs, producers))
  {
    if Distinct(Map(Id, producers)) {
      OneToOneDecided(runs, producers);
    }
    NamesAsSets(runs, producers);
    var expected, reported := Elements(Map(IdText, producers)), Map(Producer, runs);
    assert expected == {} <==> producers == [] by {
      assert producers != [] ==> Map(IdText, producers)[0] in expected;
    }
    if expected == {} || Elements(reported) != (set x | x in expected :: Some(x)) || |reported| != |expected|
      || exists j :: j in producers && !Succeeded(j)
    {
      errors := [JobsMismatch];
    } else {
      errors := CheckConfigurations(runs, producers);
    }
  }

  /** The relevant jobs, or none and an error when the inventory is not in order. */
  method ListJobs(jobs: Jobs) returns (errors: seq<Finding>, listed: seq<Job>)
    requires !jobs.NoJobs?
    ensures errors == [] <==> jobs.Listed? && AllWellFormed(Filter(Relevant(), jobs.jobs))
    ensures listed == if errors == [] then Filter(Relevant(), jobs.jobs) else []
  {
    errors := [];
    listed := if jobs.Listed? then Filter(Relevant(), jobs.jobs) else [];
    if jobs.NotAList? || exists j :: j in listed && !WellFormed(j) {
      errors := [InvalidJobInventory];
      listed := [];
    }
  }

  /** The job stage of the audit finds no error exactly when runs and jobs belong together. */
  method CheckJobs(runs: seq<Run>, jobs: Jobs) returns (errors: seq<Finding>)
    requires !jobs.NoJobs?
    ensures errors == [] <==> ProducersMatch(runs, jobs)
  {
    var listed;
    errors, listed := ListJobs(jobs);
    DistinctSize(Map(Id, listed));
    if |Elements(Map(Id, listed))| != |listed| {
      errors := errors + [DuplicatedJobs];
    }
    var helpers := Filter(IsHelper(), listed);
    if exists j :: j in helpers && !Succeeded(j) {
      errors := errors + [MatrixFailed];
    }
    var producers := Filter((j: Job) => j !in helpers, listed);
    FilterSame((j: Job) => j !in helpers, IsProducer(), listed);
    if Distinct(Map(Id, listed)) {
      IdsFiltered(IsProducer(), listed);
    }
    var mismatches := MatchRuns(runs, producers);
    errors := errors + mismatches;
  }
}
