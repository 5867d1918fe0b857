/** What a report says, in the report's own fields: the terms in which the audit's results are stated. */
module AuditFacts {
  import opened AuditReports
  import opened Sequences

  // ----- what was observed under a key -----

  /** A run of the configuration that pull requests use, under the key of its Polars version. */
  ghost predicate RunUnder(report: Report, key: string, r: Run) {
    && r in report.runs && r.engine == "spmd-default"
    && r.polarsVersion.Good? && key == r.polarsVersion.value + "|spmd|default"
  }

  ghost predicate KeyObserved(report: Report, key: string) {
    exists r :: RunUnder(report, key, r)
  }

  /** A test of the node in such a run. */
  ghost predicate TestUnder(report: Report, key: string, node: string, r: Run, t: Test) {
    RunUnder(report, key, r) && t in report.tests && t.run == r.name && t.nodeid == node
  }

  ghost predicate RanOnGpu(report: Report, key: string, node: string) {
    exists r, t :: TestUnder(report, key, node, r, t) && t.gpuExecuted == TRUE
  }

  ghost predicate Exercised(report: Report, key: string, node: string) {
    exists r, t :: TestUnder(report, key, node, r, t) && t.outcome != "skipped"
  }

  ghost predicate Collected(report: Report, key: string, node: string) {
    exists r :: RunUnder(report, key, r) && r.collectionNodeids.Good? && node in r.collectionNodeids.value
  }

  ghost predicate InSkippedModule(report: Report, key: string, node: string) {
    exists r, m :: RunUnder(report, key, r) && r.collectionSkips.Good? && m in r.collectionSkips.value && m <= node
  }

  /** The node still exists, as far as the runs can tell. */
  ghost predicate Exists(report: Report, key: string, node: string) {
    Collected(report, key, node) || InSkippedModule(report, key, node)
  }

  /** The proposed list: what ran on the GPU, and what was listed, still exists and was only ever skipped. */
  ghost predicate ListFor(report: Report, key: string, previous: set<string>, nodes: set<string>) {
    forall node :: node in nodes <==>
      || RanOnGpu(report, key, node)
      || (node in previous && !Exercised(report, key, node) && Exists(report, key, node))
  }

  ghost predicate IsAdded(report: Report, key: string, previous: set<string>, node: string) {
    RanOnGpu(report, key, node) && node !in previous
  }

  ghost predicate IsLost(report: Report, key: string, previous: set<string>, node: string) {
    node in previous && Exercised(report, key, node) && !RanOnGpu(report, key, node)
  }

  ghost predicate IsStale(report: Report, key: string, previous: set<string>, node: string) {
    node in previous && !Exists(report, key, node)
  }

  /** Some list has a node that is missing from it, lost its GPU execution or no longer exists. */
  ghost predicate Drifted(report: Report, maintained: map<string, set<string>>) {
    exists key, node :: KeyObserved(report, key) && DriftsAt(report, key, Previous(maintained, key), node)
  }

  ghost predicate DriftsAt(report: Report, key: string, previous: set<string>, node: string) {
    || IsAdded(report, key, previous, node) || IsLost(report, key, previous, node)
    || IsStale(report, key, previous, node)
  }

  /** The nodes listed before. */
  function Previous(maintained: map<string, set<string>>, key: string): (nodes: set<string>)
    ensures forall node :: node in nodes <==> key in maintained && node in maintained[key]
  {
    if key in maintained then maintained[key] else {}
  }

  /** One list per observed key, and the other maintained lists of that configuration as they were. */
  ghost predicate ProposalFor(report: Report, maintained: map<string, set<string>>,
                              proposal: map<string, set<string>>)
  {
    forall key ::
      && (key in proposal <==>
            KeyObserved(report, key) || (key in maintained && exists version :: key == version + "|spmd|default"))
      && (key in proposal && KeyObserved(report, key) ==>
            ListFor(report, key, Previous(maintained, key), proposal[key]))
      && (key in proposal && key in maintained && !KeyObserved(report, key) ==> proposal[key] == maintained[key])
  }
}
