/** The proposal of `audit_report`: set algebra over what complete evidence observed, and the promise
    that auditing the same evidence against the proposal changes nothing. */
module AuditProposal {
  import opened AuditComplete
  import opened AuditEvidence
  import opened AuditFacts
  import opened AuditJobs
  import opened AuditReports
  import opened Sequences

  // ----- one key -----

  /** What the runs of one key observed. */
  datatype Observed = Observed(gpu: set<string>, exercised: set<string>, collected: set<string>, skipped: set<string>)

  /** The differences reported for one key. */
  datatype Row = Row(added: set<string>, lost: set<string>, stale: set<string>, unobserved: set<string>)

  /** The node belongs to a module that the collection skipped. */
  predicate Under(node: string, modules: set<string>) {
    exists m :: m in modules && StartsWith(node, m)
  }

  function Difference(previous: set<string>, o: Observed): Row {
    var stale := set node | node in previous - o.collected && !Under(node, o.skipped);
    Row(o.gpu - previous, previous * o.exercised - o.gpu, stale, previous - o.exercised - stale)
  }

  /** The proposed list. */
  function Nodes(previous: set<string>, o: Observed): set<string> {
    o.gpu + Difference(previous, o).unobserved
  }

  predicate Drifts(row: Row) {
    row.added != {} || row.lost != {} || row.stale != {}
  }

  /** Every test that ran on the GPU is collected or lies in a skipped module. */
  predicate Inventoried(o: Observed) {
    forall node :: node in o.gpu ==> node in o.collected || Under(node, o.skipped)
  }

  /** The list is the old one with the additions and without the lost and stale nodes, exactly when no
      stale node ran on the GPU. */
  lemma NodesBalance(previous: set<string>, o: Observed)
    ensures var d := Difference(previous, o);
            Nodes(previous, o) == previous + d.added - (d.lost + d.stale) <==> o.gpu !! d.stale
  {
    var d := Difference(previous, o);
    var balance := previous + d.added - (d.lost + d.stale);
    forall node ensures node in Nodes(previous, o) <==> node in balance || (node in o.gpu && node in d.stale) {
    }
  }

  /** No drift is an unchanged list. */
  lemma NoDriftIsUnchanged(previous: set<string>, o: Observed)
    ensures var d := Difference(previous, o);
            !Drifts(d) <==> Nodes(previous, o) == previous && o.gpu !! d.stale
  {
    var d := Difference(previous, o);
    if !Drifts(d) {
      forall node ensures node in Nodes(previous, o) <==> node in previous {
      }
    }
    if Nodes(previous, o) == previous && o.gpu !! d.stale {
      forall node ensures node !in d.lost && node !in d.stale && node !in d.added {
        assert node in previous <==> node in Nodes(previous, o);
      }
    }
  }

  /** Auditing again proposes the same list, and finds drift exactly when a test ran on the GPU that
      the collection does not list. */
  lemma AuditAgain(previous: set<string>, o: Observed)
    ensures var next := Nodes(previous, o);
            Nodes(next, o) == next && (Drifts(Difference(next, o)) <==> !Inventoried(o))
  {
    var next := Nodes(previous, o);
    var d, again := Difference(previous, o), Difference(next, o);
    forall node ensures node in again.stale <==> node in o.gpu && node !in o.collected && !Under(node, o.skipped) {
    }
    forall node ensures node in Nodes(next, o) <==> node in next {
    }
    assert again.added == {};
    assert again.lost == {};
  }

  // ----- all keys -----

  /** The maintained lists, by key. */
  type Selections = map<string, set<string>>

  function KeyOf(r: Run): string {
    SelectionKey(r.engine, Version(r))
  }

  function HasKey(key: string): Run -> bool {
    (r: Run) => KeyOf(r) == key
  }

  function TestsOfAll(runs: seq<Run>, report: Report): seq<Test> {
    if runs == [] then [] else TestsOfAll(runs[..|runs| - 1], report) + TestsOf(report, runs[|runs| - 1].name)
  }

  function Collections(runs: seq<Run>): set<string> {
    set r, node | r in runs && node in Collection(r) :: node
  }

  function SkippedModules(runs: seq<Run>): set<string> {
    set r, node | r in runs && node in Skips(r) :: node
  }

  function ObservedFrom(runs: seq<Run>, tests: seq<Test>): Observed {
    Observed(set t | t in tests && t.gpuExecuted.TRUE? :: t.nodeid,
             set t | t in tests && t.outcome != "skipped" :: t.nodeid,
             Collections(runs), SkippedModules(runs))
  }

  /** What the report's default runs of one key observed. */
  function Observe(report: Report, key: string): Observed {
    var runs := Filter(HasKey(key), DefaultRuns(report));
    ObservedFrom(runs, TestsOfAll(runs, report))
  }

  function ObservedKeys(report: Report): set<string> {
    set r | r in DefaultRuns(report) :: KeyOf(r)
  }

  /** Other keys of the configuration that pull requests use. */
  function RetainedKeys(observed: set<string>, maintained: Selections, suffix: string): set<string> {
    set key | key in maintained && key !in observed && EndsWith(key, suffix)
  }

  const PR_KEY_SUFFIX := "|spmd|default"

  function Kept(proposed: Selections, maintained: Selections, suffix: string): Selections {
    map key | key in proposed.Keys + RetainedKeys(proposed.Keys, maintained, suffix) ::
      if key in proposed then proposed[key] else maintained[key]
  }

  function Proposed(report: Report, maintained: Selections): Selections {
    map key | key in ObservedKeys(report) :: Nodes(Previous(maintained, key), Observe(report, key))
  }

  /** The proposed lists: one per observed key, and the retained ones of other versions. */
  function Proposal(report: Report, maintained: Selections): Selections {
    Kept(Proposed(report, maintained), maintained, PR_KEY_SUFFIX)
  }

  function Differences(report: Report, maintained: Selections): map<string, Row> {
    map key | key in ObservedKeys(report) :: Difference(Previous(maintained, key), Observe(report, key))
  }

  predicate AnyDrift(differences: map<string, Row>) {
    exists key :: key in differences && Drifts(differences[key])
  }

  ghost predicate AllInventoried(report: Report) {
    forall key :: key in ObservedKeys(report) ==> Inventoried(Observe(report, key))
  }

  // ----- the same in the report's own fields -----

  /** Every default run says which Polars version it ran. */
  ghost predicate Versioned(report: Report) {
    forall r :: r in DefaultRuns(report) ==> r.polarsVersion.Good?
  }

  lemma RunsUnder(report: Report, key: string, r: Run)
    requires Versioned(report)
    ensures r in Filter(HasKey(key), DefaultRuns(report)) <==> RunUnder(report, key, r)
  {
    if r in report.runs && r.engine == "spmd-default" {
      assert r in DefaultRuns(report);
      DefaultKey(Version(r));
    }
  }

  lemma KeysObserved(report: Report, key: string)
    requires Versioned(report)
    ensures key in ObservedKeys(report) <==> KeyObserved(report, key)
  {
    if key in ObservedKeys(report) {
      var r :| r in DefaultRuns(report) && KeyOf(r) == key;
      RunsUnder(report, key, r);
    }
    if r :| RunUnder(report, key, r) {
      RunsUnder(report, key, r);
    }
  }

  lemma TestsUnder(report: Report, key: string, t: Test)
    requires Versioned(report)
    ensures t in TestsOfAll(Filter(HasKey(key), DefaultRuns(report)), report)
       <==> exists r :: TestUnder(report, key, t.nodeid, r, t)
  {
    var runs := Filter(HasKey(key), DefaultRuns(report));
    TestsOfAllMember(runs, report, t);
    if r :| r in runs && t in TestsOf(report, r.name) {
      RunsUnder(report, key, r);
      assert TestUnder(report, key, t.nodeid, r, t);
    }
    if r :| TestUnder(report, key, t.nodeid, r, t) {
      RunsUnder(report, key, r);
      assert t in TestsOf(report, r.name);
    }
  }

  /** What the runs of a key observed is what the report says. */
  lemma ObservedMeans(report: Report, key: string, node: string)
    requires Versioned(report)
    ensures var o := Observe(report, key);
            && (node in o.gpu <==> RanOnGpu(report, key, node))
            && (node in o.exercised <==> Exercised(report, key, node))
            && (node in o.collected <==> Collected(report, key, node))
            && (Under(node, o.skipped) <==> InSkippedModule(report, key, node))
  {
    var runs := Filter(HasKey(key), DefaultRuns(report));
    forall r: Run ensures r in runs <==> RunUnder(report, key, r) {
      RunsUnder(report, key, r);
    }
    forall t: Test
      ensures t in TestsOfAll(runs, report) <==> exists r :: TestUnder(report, key, t.nodeid, r, t)
    {
      TestsUnder(report, key, t);
    }
    SkippedMeans(report, key, node, runs);
  }

  lemma SkippedMeans(report: Report, key: string, node: string, runs: seq<Run>)
    requires forall r :: r in runs <==> RunUnder(report, key, r)
    ensures Under(node, SkippedModules(runs)) <==> InSkippedModule(report, key, node)
    ensures node in Collections(runs) <==> Collected(report, key, node)
  {
    if Under(node, SkippedModules(runs)) {
      var m :| m in SkippedModules(runs) && StartsWith(node, m);
      var r :| r in runs && m in Skips(r);
      assert RunUnder(report, key, r) && r.collectionSkips.Good?;
    }
    if r, m :| RunUnder(report, key, r) && r.collectionSkips.Good? && m in r.collectionSkips.value && m <= node {
      assert m in Skips(r) && m in SkippedModules(runs) && StartsWith(node, m);
    }
    if node in Collections(runs) {
      var r :| r in runs && node in Collection(r);
      assert RunUnder(report, key, r) && r.collectionNodeids.Good?;
    }
    if r :| RunUnder(report, key, r) && r.collectionNodeids.Good? && node in r.collectionNodeids.value {
      assert r in runs && node in Collection(r);
    }
  }

  /** The differences, node by node. */
  ghost predicate DifferencesFor(report: Report, key: string, previous: set<string>, row: Row) {
    forall node ::
      && (node in row.added <==> IsAdded(report, key, previous, node))
      && (node in row.lost <==> IsLost(report, key, previous, node))
      && (node in row.stale <==> IsStale(report, key, previous, node))
      && (node in row.unobserved <==>
            node in previous && !Exercised(report, key, node) && Exists(report, key, node))
  }

  lemma ListMeans(report: Report, key: string, previous: set<string>)
    requires Versioned(report)
    ensures ListFor(report, key, previous, Nodes(previous, Observe(report, key)))
    ensures DifferencesFor(report, key, previous, Difference(previous, Observe(report, key)))
  {
    forall node: string
      ensures var o := Observe(report, key);
              && (node in o.gpu <==> RanOnGpu(report, key, node))
              && (node in o.exercised <==> Exercised(report, key, node))
              && (node in o.collected <==> Collected(report, key, node))
              && (Under(node, o.skipped) <==> InSkippedModule(report, key, node))
    {
      ObservedMeans(report, key, node);
    }
  }

  lemma SuffixMeans(key: string)
    ensures EndsWith(key, PR_KEY_SUFFIX) <==> exists version :: key == version + "|spmd|default"
  {
    if EndsWith(key, PR_KEY_SUFFIX) {
      assert key == key[..|key| - |PR_KEY_SUFFIX|] + "|spmd|default";
    }
  }

  /** The proposal and the drift of complete evidence, in the report's own fields. */
  lemma ProposalMeans(report: Report, maintained: Selections)
    requires Versioned(report)
    ensures ProposalFor(report, maintained, Proposal(report, maintained))
    ensures AnyDrift(Differences(report, maintained)) <==> Drifted(report, maintained)
  {
    forall key: string
      ensures key in ObservedKeys(report) <==> KeyObserved(report, key)
      ensures ListFor(report, key, Previous(maintained, key), Nodes(Previous(maintained, key), Observe(report, key)))
      ensures DifferencesFor(report, key, Previous(maintained, key),
                             Difference(Previous(maintained, key), Observe(report, key)))
      ensures EndsWith(key, PR_KEY_SUFFIX) <==> exists version :: key == version + "|spmd|default"
    {
      KeysObserved(report, key);
      ListMeans(report, key, Previous(maintained, key));
      SuffixMeans(key);
    }
    DriftMeans(report, maintained);
  }

  lemma RowDrifts(report: Report, key: string, previous: set<string>, row: Row)
    requires DifferencesFor(report, key, previous, row)
    ensures Drifts(row) <==> exists node :: DriftsAt(report, key, previous, node)
  {
    if Drifts(row) {
      var node :| node in row.added || node in row.lost || node in row.stale;
      assert DriftsAt(report, key, previous, node);
    }
    if node :| DriftsAt(report, key, previous, node) {
      assert node in row.added || node in row.lost || node in row.stale;
    }
  }

  lemma DriftOfKey(report: Report, maintained: Selections, key: string)
    requires Versioned(report)
    ensures key in Differences(report, maintained) <==> KeyObserved(report, key)
    ensures key in Differences(report, maintained) ==>
              (Drifts(Differences(report, maintained)[key])
          <==> exists node :: DriftsAt(report, key, Previous(maintained, key), node))
  {
    KeysObserved(report, key);
    ListMeans(report, key, Previous(maintained, key));
    RowDrifts(report, key, Previous(maintained, key), Difference(Previous(maintained, key), Observe(report, key)));
  }

  lemma DriftMeans(report: Report, maintained: Selections)
    requires Versioned(report)
    ensures AnyDrift(Differences(report, maintained)) <==> Drifted(report, maintained)
  {
    var differences := Differences(report, maintained);
    if AnyDrift(differences) {
      var key :| key in differences && Drifts(differences[key]);
      DriftOfKey(report, maintained, key);
    }
    if key, node :| KeyObserved(report, key) && DriftsAt(report, key, Previous(maintained, key), node) {
      DriftOfKey(report, maintained, key);
      assert Drifts(differences[key]);
    }
  }

  // ----- the second half of audit_report -----

  datatype Status = Incomplete | Drift | Current

  datatype Audit = Audit(status: Status, errors: seq<Finding>, differences: map<string, Row>)

  method CollectTests(runs: seq<Run>, byRun: map<string, seq<Test>>, ghost report: Report) returns (tests: seq<Test>)
    requires forall r :: r in runs ==> At(byRun, r.name) == TestsOf(report, r.name)
    ensures tests == TestsOfAll(runs, report)
  {
    tests := [];
    for i := 0 to |runs|
      invariant tests == TestsOfAll(runs[..i], report)
    {
      assert runs[..i + 1][..i] == runs[..i];
      assert runs[i] in runs;
      tests := tests + At(byRun, runs[i].name);
    }
    assert runs[..|runs|] == runs;
  }

  /** The body of the loop over the observed keys. */
  method ProposeKey(ghost report: Report, key: string, runs: seq<Run>, byRun: map<string, seq<Test>>,
      previous: set<string>)
    returns (nodes: set<string>, row: Row)
    requires runs == DefaultRuns(report)
    requires forall r :: r in runs ==> At(byRun, r.name) == TestsOf(report, r.name)
    ensures nodes == Nodes(previous, Observe(report, key)) && row == Difference(previous, Observe(report, key))
    ensures Versioned(report) ==> ListFor(report, key, previous, nodes) && DifferencesFor(report, key, previous, row)
  {
    if Versioned(report) {
      ListMeans(report, key, previous);
    }
    var keyRuns := Filter(HasKey(key), runs);
    var tests := CollectTests(keyRuns, byRun, report);
    var o := ObservedFrom(keyRuns, tests);
    nodes, row := Nodes(previous, o), Difference(previous, o);
  }

  ghost predicate ProposedFor(key: string, generated: Selections, differences: map<string, Row>, report: Report,
                              maintained: Selections)
  {
    && key in generated && generated[key] == Nodes(Previous(maintained, key), Observe(report, key))
    && key in differences && differences[key] == Difference(Previous(maintained, key), Observe(report, key))
    && (Versioned(report) ==>
          && ListFor(report, key, Previous(maintained, key), generated[key])
          && DifferencesFor(report, key, Previous(maintained, key), differences[key]))
  }

  /** The loop over the observed keys. */
  method ProposeObserved(ghost report: Report, keys: set<string>, runs: seq<Run>, byRun: map<string, seq<Test>>,
                         maintained: Selections)
    returns (generated: Selections, differences: map<string, Row>)
    requires runs == DefaultRuns(report)
    requires forall r :: r in runs ==> At(byRun, r.name) == TestsOf(report, r.name)
    ensures forall key :: key in generated || key in differences <==> key in keys
    ensures forall key :: key in keys ==> ProposedFor(key, generated, differences, report, maintained)
  {
    generated, differences := map[], map[];
    var rest := keys;
    while rest != {}
      invariant rest <= keys
      invariant forall key :: key in generated || key in differences <==> key in keys && key !in rest
      invariant forall key :: key in keys && key !in rest ==>
          ProposedFor(key, generated, differences, report, maintained)
      decreases |rest|
    {
      var key :| key in rest;
      var nodes, row := ProposeKey(report, key, runs, byRun, Previous(maintained, key));
      ghost var lists, rows := generated, differences;
      rest := rest - {key};
      generated := generated[key := nodes];
      differences := differences[key := row];
      forall k | k in keys && k !in rest ensures ProposedFor(k, generated, differences, report, maintained) {
        assert k == key || ProposedFor(k, lists, rows, report, maintained);
      }
    }
  }

  lemma AllProposed(report: Report, maintained: Selections, generated: Selections, differences: map<string, Row>)
    requires forall key :: key in generated || key in differences <==> key in ObservedKeys(report)
    requires forall key :: key in ObservedKeys(report) ==> ProposedFor(key, generated, differences, report, maintained)
    ensures generated == Proposed(report, maintained) && differences == Differences(report, maintained)
  {
    forall key | key in ObservedKeys(report)
      ensures key in generated && generated[key] == Proposed(report, maintained)[key]
      ensures key in differences && differences[key] == Differences(report, maintained)[key]
    {
      assert ProposedFor(key, generated, differences, report, maintained);
    }
    SameMap(generated, Proposed(report, maintained));
    SameMap(differences, Differences(report, maintained));
  }

  /** The loop that retains older versions. */
  method Retain(observed: Selections, maintained: Selections, suffix: string) returns (generated: Selections)
    ensures generated == Kept(observed, maintained, suffix)
  {
    generated := observed;
    var rest := maintained.Keys - observed.Keys;
    while rest != {}
      invariant rest <= maintained.Keys - observed.Keys
      invariant forall key :: key in generated
                            <==> key in observed || (key in maintained && key !in rest && EndsWith(key, suffix))
      invariant forall key :: key in generated ==>
          generated[key] == if key in observed then observed[key] else maintained[key]
      decreases |rest|
    {
      var key :| key in rest;
      rest := rest - {key};
      if EndsWith(key, suffix) {
        generated := generated[key := maintained[key]];
      }
    }
    KeptByMember(observed, maintained, suffix, generated);
  }

  lemma KeptByMember(observed: Selections, maintained: Selections, suffix: string, generated: Selections)
    requires forall key :: key in generated <==> key in observed || (key in maintained && EndsWith(key, suffix))
    requires forall key :: key in generated ==>
        generated[key] == if key in observed then observed[key] else maintained[key]
    ensures generated == Kept(observed, maintained, suffix)
  {
  }

  /** What an audit and its proposal have to be: incomplete and without proposal exactly when the
      evidence is incomplete; otherwise the differences, the status they imply, and the lists. */
  ghost predicate IsAudit(report: Report, maintained: Selections, jobs: Jobs, audit: Audit,
      generated: Option<Selections>) {
    && (audit.status.Incomplete? <==> !Evidence(report, jobs))
    && (audit.errors == [] <==> Evidence(report, jobs))
    && (generated.Some? <==> Evidence(report, jobs))
    && (audit.status.Incomplete? ==> audit.differences == map[])
    && (Evidence(report, jobs) ==>
          && generated == Some(Proposal(report, maintained))
          && audit.differences == Differences(report, maintained)
          && (audit.status.Drift? <==> AnyDrift(Differences(report, maintained))))
  }

  lemma CompleteAudit(report: Report, maintained: Selections, jobs: Jobs)
    requires Evidence(report, jobs)
    ensures var d := Differences(report, maintained);
            IsAudit(report, maintained, jobs, Audit(if AnyDrift(d) then Drift else Current, [], d),
                    Some(Proposal(report, maintained)))
  {
  }

  /** An audit of complete evidence, in the report's own fields: the lists, what was added, lost, stale and
      unobserved per observed key, and whether there is drift. */
  ghost predicate SaysWhatReportSays(report: Report, maintained: Selections, audit: Audit, proposal: Selections) {
    && ProposalFor(report, maintained, proposal)
    && (forall key :: key in audit.differences <==> KeyObserved(report, key))
    && (forall key :: key in audit.differences ==>
          DifferencesFor(report, key, Previous(maintained, key), audit.differences[key]))
    && (audit.status.Drift? <==> Drifted(report, maintained))
  }

  lemma EvidenceVersioned(report: Report, jobs: Jobs)
    requires Evidence(report, jobs)
    ensures Versioned(report)
  {
    forall r | r in DefaultRuns(report) ensures r.polarsVersion.Good? {
      assert Sound(r, TestsOf(report, r.name));
    }
  }

  lemma AuditMeans(report: Report, maintained: Selections, jobs: Jobs, audit: Audit, generated: Option<Selections>)
    requires IsAudit(report, maintained, jobs, audit, generated) && Evidence(report, jobs)
    ensures Versioned(report) && SaysWhatReportSays(report, maintained, audit, generated.value)
  {
    EvidenceVersioned(report, jobs);
    ProposalMeans(report, maintained);
    forall key ensures key in audit.differences <==> KeyObserved(report, key) {
      KeysObserved(report, key);
    }
    forall key | key in audit.differences
      ensures DifferencesFor(report, key, Previous(maintained, key), audit.differences[key])
    {
      ListMeans(report, key, Previous(maintained, key));
    }
  }

  /** `audit_report`. */
  method AuditReport(report: Report, maintained: Selections, jobs: Jobs)
    returns (audit: Audit, generated: Option<Selections>)
    ensures IsAudit(report, maintained, jobs, audit, generated)
    ensures audit.errors == [] <==> Complete(report, jobs)
    ensures generated.Some? ==> SaysWhatReportSays(report, maintained, audit, generated.value)
  {
    EvidenceMeans(report, jobs);
    var errors, runs, byRun := FindErrors(report, jobs);
    if errors != [] {
      return Audit(Incomplete, errors, map[]), None;
    }
    var keys := set r | r in runs :: KeyOf(r);
    var observed, differences := ProposeObserved(report, keys, runs, byRun, maintained);
    AllProposed(report, maintained, observed, differences);
    var all := Retain(observed, maintained, PR_KEY_SUFFIX);
    var drift := AnyDrift(differences);
    CompleteAudit(report, maintained, jobs);
    audit, generated := Audit(if drift then Drift else Current, [], differences), Some(all);
    AuditMeans(report, maintained, jobs, audit, generated);
  }

  // ----- the promise -----

  /** The status is current exactly when every observed list stays as it is and no stale node ran on
      the GPU; the second half follows when what ran on the GPU is inventoried. */
  lemma CurrentIsUnchanged(report: Report, maintained: Selections)
    ensures !AnyDrift(Differences(report, maintained))
       <==> forall key :: key in ObservedKeys(report) ==>
              && Proposal(report, maintained)[key] == Previous(maintained, key)
              && Observe(report, key).gpu !! Differences(report, maintained)[key].stale
    ensures AllInventoried(report) ==>
              (!AnyDrift(Differences(report, maintained))
          <==> forall key :: key in ObservedKeys(report) ==>
                 Proposal(report, maintained)[key] == Previous(maintained, key))
  {
    forall key | key in ObservedKeys(report)
      ensures !Drifts(Differences(report, maintained)[key])
         <==> && Proposal(report, maintained)[key] == Previous(maintained, key)
              && Observe(report, key).gpu !! Differences(report, maintained)[key].stale
      ensures AllInventoried(report) ==> Observe(report, key).gpu !! Differences(report, maintained)[key].stale
    {
      NoDriftIsUnchanged(Previous(maintained, key), Observe(report, key));
    }
  }

  /** Every test that ran on the GPU still exists, key by key. */
  ghost predicate AllExist(report: Report) {
    forall key, node :: RanOnGpu(report, key, node) ==> Exists(report, key, node)
  }

  lemma InventoriedMeans(report: Report)
    requires Versioned(report)
    ensures AllInventoried(report) <==> AllExist(report)
  {
    forall key, node
      ensures node in Observe(report, key).gpu <==> RanOnGpu(report, key, node)
      ensures node in Observe(report, key).collected || Under(node, Observe(report, key).skipped)
         <==> Exists(report, key, node)
      ensures RanOnGpu(report, key, node) ==> key in ObservedKeys(report)
    {
      ObservedMeans(report, key, node);
      KeysObserved(report, key);
    }
  }

  lemma KeepAgain(proposed: Selections, maintained: Selections, suffix: string)
    ensures Kept(proposed, Kept(proposed, maintained, suffix), suffix) == Kept(proposed, maintained, suffix)
  {
  }

  /** Auditing the same report against its own proposal proposes the same lists; it reports that they
      are current exactly when every test that ran on the GPU is in the collection inventory or in a
      skipped module. */
  lemma AuditOfProposal(report: Report, maintained: Selections)
    ensures var next := Proposal(report, maintained);
            && Proposal(report, next) == next
            && (!AnyDrift(Differences(report, next)) <==> AllInventoried(report))
  {
    var next := Proposal(report, maintained);
    forall key | key in ObservedKeys(report)
      ensures Proposed(report, next)[key] == Proposed(report, maintained)[key]
      ensures Drifts(Differences(report, next)[key]) <==> !Inventoried(Observe(report, key))
    {
      AuditAgain(Previous(maintained, key), Observe(report, key));
    }
    KeepAgain(Proposed(report, maintained), maintained, PR_KEY_SUFFIX);
    SameMap(Proposed(report, next), Proposed(report, maintained));
  }

  /** The update as the instructions describe it: an audit, and a second one of the same report against
      what the first proposed. */
  method AuditTwice(report: Report, maintained: Selections, jobs: Jobs)
    returns (first: Audit, generated: Option<Selections>, second: Audit, again: Option<Selections>)
    ensures IsAudit(report, maintained, jobs, first, generated)
    ensures generated.None? ==> second == first && again == None
    ensures generated.Some? ==> second.errors == [] && again == generated
    ensures generated.Some? ==> (second.status.Current? <==> AllInventoried(report))
    ensures generated.Some? ==> (second.status.Drift? <==> !AllInventoried(report))
    ensures generated.Some? ==> (AllInventoried(report) <==> AllExist(report))
  {
    first, generated := AuditReport(report, maintained, jobs);
    second, again := first, None;
    if generated.Some? {
      EvidenceVersioned(report, jobs);
      InventoriedMeans(report);
      second, again := AuditReport(report, generated.value, jobs);
      AuditOfProposal(report, maintained);
    }
  }

  // ----- from files to the audit -----

  /** A file of a default run whose own tests are its inventory, each once. */
  ghost predicate ReportsInventory(f: File) {
    f.Readable? && IsDefault()(f.run) ==>
      && f.run.collectedNodeids.Good? && Distinct(f.run.collectedNodeids.value)
      && multiset(Map(Nodeid, f.tests)) == multiset(f.run.collectedNodeids.value)
  }

  lemma {:induction false} RunListed(files: seq<File>, k: nat)
    requires k < |files| && files[k].Readable?
    ensures files[k].run in RunsIn(files)
  {
    if k < |files| - 1 {
      RunListed(files[..|files| - 1], k);
    }
  }

  lemma EvidenceOfFile(files: seq<File>, report: Report, jobs: Jobs, k: nat)
    requires k < |files| && OwnNames(files) && forall f :: f in files ==> Stamped(f)
    requires report.runs == RunsIn(files) && multiset(report.tests) == multiset(TestsIn(files))
    requires Evidence(report, jobs)
    ensures ReportsInventory(files[k])
  {
    var f := files[k];
    if f.Readable? && IsDefault()(f.run) {
      RunListed(files, k);
      assert f.run in DefaultRuns(report);
      assert Sound(f.run, TestsOf(report, f.run.name));
      RunsKeepTheirTests(files, report, k);
      MapPermutes(Nodeid, TestsOf(report, f.run.name), f.tests);
    }
  }

  /** Combining report files and auditing the report: when files have names of their own and the audit is
      complete, every default run's own file reports each test of its inventory exactly once. */
  method AuditFiles(files: seq<File>, le: (Test, Test) -> bool, maintained: Selections, jobs: Jobs)
    returns (report: Report, audit: Audit, generated: Option<Selections>)
    requires TotalPreorder(le) && OwnNames(files) && forall f :: f in files ==> Stamped(f)
    ensures report.runs == RunsIn(files) && report.unreadable == UnreadableIn(files)
    ensures IsAudit(report, maintained, jobs, audit, generated)
    ensures !audit.status.Incomplete? ==> forall k :: 0 <= k < |files| ==> ReportsInventory(files[k])
  {
    report := BuildReport(files, le);
    audit, generated := AuditReport(report, maintained, jobs);
    if Evidence(report, jobs) {
      forall k | 0 <= k < |files| ensures ReportsInventory(files[k]) {
        EvidenceOfFile(files, report, jobs, k);
      }
    }
  }

  // ----- when the promise holds -----

  lemma {:induction false} TestsOfAllMember(runs: seq<Run>, report: Report, t: Test)
    ensures t in TestsOfAll(runs, report) <==> exists r :: r in runs && t in TestsOf(report, r.name)
  {
    if runs != [] {
      var init, last := runs[..|runs| - 1], runs[|runs| - 1];
      TestsOfAllMember(init, report, t);
      assert runs == init + [last];
      assert last in runs;
    }
  }

  /** The inventories of a run agree: what it selected is among what it collected. */
  predicate InventoriesAgree(r: Run) {
    r.collectedNodeids.Good? ==> forall node :: node in r.collectedNodeids.value ==> node in Collection(r)
  }

  lemma CollectedTest(report: Report, jobs: Jobs, r: Run, t: Test)
    requires Evidence(report, jobs) && r in DefaultRuns(report) && t in TestsOf(report, r.name)
    ensures r.collectedNodeids.Good? && t.nodeid in r.collectedNodeids.value
  {
    var tests := TestsOf(report, r.name);
    assert Sound(r, tests);
    var i :| 0 <= i < |tests| && tests[i] == t;
    assert Map(Nodeid, tests)[i] in multiset(r.collectedNodeids.value);
  }

  /** Complete evidence whose runs select from what they collect keeps the promise. The audit compares
      the tests with one inventory and the lists with the other, and never the two inventories. */
  lemma AgreeingInventoriesSuffice(report: Report, jobs: Jobs)
    requires Evidence(report, jobs)
    requires forall r :: r in DefaultRuns(report) ==> InventoriesAgree(r)
    ensures AllInventoried(report)
  {
    forall key, node | key in ObservedKeys(report) && node in Observe(report, key).gpu
      ensures node in Observe(report, key).collected
    {
      var runs := Filter(HasKey(key), DefaultRuns(report));
      var t :| t in TestsOfAll(runs, report) && t.nodeid == node;
      TestsOfAllMember(runs, report, t);
      var r :| r in runs && t in TestsOf(report, r.name);
      CollectedTest(report, jobs, r, t);
    }
  }

  /** A run that passes every check although its one test is missing from its collection. */
  const STRAY_RUN := Run("run.json", PR_SELECTION_ENGINE, Good("1.0"), Good("c"), Good("u"), Good(0), Good(1),
                         Good(["t"]), Good([]), Good([]), Good("full"), Good(0), Good(true), Good(1), None,
                         Matrix(None, None, None, None), None)
  const STRAY_TEST := Test("run.json", "t", "passed", true, FALSE, TRUE, TRUE)
  const STRAY_REPORT := Report([STRAY_RUN], [STRAY_TEST], [])

  lemma StrayRuns()
    ensures DefaultRuns(STRAY_REPORT) == [STRAY_RUN] && TestsOf(STRAY_REPORT, "run.json") == [STRAY_TEST]
  {
    assert [STRAY_RUN][1..] == [] && [STRAY_TEST][1..] == [];
    assert Filter(IsDefault(), [STRAY_RUN][1..]) == [];
    assert Filter(OfRun("run.json"), [STRAY_TEST][1..]) == [];
  }

  /** The run passes all checks. */
  lemma StrayPasses()
    ensures Sound(STRAY_RUN, [STRAY_TEST]) && Suite(STRAY_RUN, [STRAY_RUN])
  {
    assert Map(Nodeid, [STRAY_TEST]) == ["t"];
    var c := CohortOf(STRAY_RUN);
    assert [STRAY_RUN][1..] == [];
    assert Filter(InCohort(c), [STRAY_RUN][1..]) == [];
    assert Filter(InCohort(c), [STRAY_RUN]) == [STRAY_RUN];
    assert Map(ShardId, [STRAY_RUN]) == [0];
  }

  lemma StrayObserved(key: string)
    requires key == KeyOf(STRAY_RUN)
    ensures key in ObservedKeys(STRAY_REPORT) && !Inventoried(Observe(STRAY_REPORT, key))
  {
    StrayRuns();
    assert STRAY_RUN in DefaultRuns(STRAY_REPORT);
    var runs := Filter(HasKey(key), [STRAY_RUN]);
    assert [STRAY_RUN][1..] == [];
    assert Filter(HasKey(key), [STRAY_RUN][1..]) == [];
    assert runs == [STRAY_RUN];
    TestsOfAllMember(runs, STRAY_REPORT, STRAY_TEST);
    assert "t" in Observe(STRAY_REPORT, key).gpu;
  }

  /** The promise of the update instructions, that a rerun against the candidate reports `current`, is
      not kept for all evidence that the audit accepts. */
  lemma RerunCanDrift()
    ensures Evidence(STRAY_REPORT, NoJobs)
    ensures AnyDrift(Differences(STRAY_REPORT, Proposal(STRAY_REPORT, map[])))
  {
    StrayRuns();
    StrayPasses();
    StrayObserved(KeyOf(STRAY_RUN));
    AuditOfProposal(STRAY_REPORT, map[]);
  }
}
