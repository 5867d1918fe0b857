/** The file steps of `main` in ci/analyze_cudf_polars_fallbacks.py. The program may stop after any
    step and in the middle of any write; what is on disk is safe to publish all the same. */
module AuditProtocol {
  import opened AuditComplete
  import opened AuditEvidence
  import opened AuditFacts
  import opened AuditJobs
  import opened AuditProposal
  import opened AuditReports
  import opened Sequences

  /** A file: absent, opened for writing and not complete, or complete. */
  datatype Doc<T> = Absent | Torn | Whole(content: T)

  datatype DriftContent = DidNotFinish | Result(audit: Audit)

  datatype Disk = Disk(candidate: Doc<Selections>, drift: Doc<DriftContent>, runList: Doc<Selections>)

  datatype Options = Options(auditRunList: bool, generateRunList: bool) {
    predicate Audits() {
      auditRunList || generateRunList
    }
  }

  /** What the input files hold; none when one of them cannot be read or parsed. */
  datatype Inputs = Inputs(report: Report, maintained: Selections, jobs: Jobs)

  /** Where the program is: the step it has just completed. */
  datatype Point =
    | Started
    | CandidateRemoved
    | PlaceholderOpened
    | PlaceholderWritten
    | Audited(audit: Audit, generated: Option<Selections>)
    | DriftOpened(audit: Audit, generated: Option<Selections>)
    | DriftWritten(audit: Audit, generated: Option<Selections>)
    | CandidateOpened(audit: Audit, proposal: Selections)
    | CandidateWritten(audit: Audit, proposal: Selections)
    | RunListOpened(audit: Audit, proposal: Selections)
    | RunListWritten(audit: Audit, proposal: Selections)
    | Exited(code: int)

  datatype State = State(point: Point, disk: Disk)

  /** The exit status of a finished audit. */
  function ExitCode(o: Options, audit: Audit): int {
    if audit.status.Incomplete? || (o.auditRunList && audit.status.Drift?) then 1 else 0
  }

  /** One step; reading the inputs fails when there are none, and the program exits with an error. */
  ghost predicate Next(o: Options, inputs: Option<Inputs>, s: State, t: State) {
    match s.point
    case Started =>
      if o.Audits() then t == State(CandidateRemoved, s.disk.(candidate := Absent))
      else t == State(Exited(if inputs.Some? then 0 else 1), s.disk)
    case CandidateRemoved => t == State(PlaceholderOpened, s.disk.(drift := Torn))
    case PlaceholderOpened => t == State(PlaceholderWritten, s.disk.(drift := Whole(DidNotFinish)))
    case PlaceholderWritten =>
      if inputs.None? then t == State(Exited(1), s.disk)
      else
        && t.point.Audited? && t.disk == s.disk
        && IsAudit(inputs.value.report, Compared(o, inputs.value), inputs.value.jobs,
                   t.point.audit, t.point.generated)
    case Audited(audit, generated) => t == State(DriftOpened(audit, generated), s.disk.(drift := Torn))
    case DriftOpened(audit, generated) =>
      t == State(DriftWritten(audit, generated), s.disk.(drift := Whole(Result(audit))))
    case DriftWritten(audit, generated) =>
      if generated.Some? then t == State(CandidateOpened(audit, generated.value), s.disk.(candidate := Torn))
      else t == State(Exited(ExitCode(o, audit)), s.disk)
    case CandidateOpened(audit, proposal) =>
      t == State(CandidateWritten(audit, proposal), s.disk.(candidate := Whole(proposal)))
    case CandidateWritten(audit, proposal) =>
      if o.generateRunList then t == State(RunListOpened(audit, proposal), s.disk.(runList := Torn))
      else t == State(Exited(ExitCode(o, audit)), s.disk)
    case RunListOpened(audit, proposal) =>
      t == State(RunListWritten(audit, proposal), s.disk.(runList := Whole(proposal)))
    case RunListWritten(audit, _) => t == State(Exited(ExitCode(o, audit)), s.disk)
    case Exited(_) => false
  }

  /** A run that has come as far as its last state. */
  ghost predicate IsRun(o: Options, inputs: Option<Inputs>, before: Disk, run: seq<State>) {
    && run != [] && run[0] == State(Started, before)
    && forall k :: 0 <= k < |run| - 1 ==> Next(o, inputs, run[k], run[k + 1])
  }

  /** The audit of these inputs and its complete proposal. */
  ghost predicate IsComplete(o: Options, inputs: Option<Inputs>, audit: Audit, proposal: Selections) {
    && inputs.Some?
    && Evidence(inputs.value.report, inputs.value.jobs)
    && IsAudit(inputs.value.report, Compared(o, inputs.value), inputs.value.jobs,
               audit, Some(proposal))
  }

  ghost predicate IsOutcome(o: Options, inputs: Option<Inputs>, audit: Audit, generated: Option<Selections>) {
    && inputs.Some?
    && IsAudit(inputs.value.report, Compared(o, inputs.value), inputs.value.jobs,
               audit, generated)
  }

  /** Nothing has been proposed: no candidate, and the run list as it was. */
  ghost predicate Quiet(disk: Disk, before: Disk) {
    disk.candidate.Absent? && disk.runList == before.runList
  }

  /** What holds at every point. */
  ghost predicate Inv(o: Options, inputs: Option<Inputs>, before: Disk, s: State) {
    match s.point
    case Started => s.disk == before
    case CandidateRemoved => o.Audits() && s.disk == before.(candidate := Absent)
    case PlaceholderOpened => o.Audits() && Quiet(s.disk, before) && s.disk.drift.Torn?
    case PlaceholderWritten => o.Audits() && Quiet(s.disk, before) && s.disk.drift == Whole(DidNotFinish)
    case Audited(audit, generated) =>
      o.Audits() && Quiet(s.disk, before) && s.disk.drift == Whole(DidNotFinish)
          && IsOutcome(o, inputs, audit, generated)
    case DriftOpened(audit, generated) =>
      o.Audits() && Quiet(s.disk, before) && s.disk.drift.Torn? && IsOutcome(o, inputs, audit, generated)
    case DriftWritten(audit, generated) =>
      o.Audits() && Quiet(s.disk, before) && s.disk.drift == Whole(Result(audit))
          && IsOutcome(o, inputs, audit, generated)
    case CandidateOpened(audit, proposal) =>
      && o.Audits() && s.disk == Disk(Torn, Whole(Result(audit)), before.runList)
          && IsComplete(o, inputs, audit, proposal)
    case CandidateWritten(audit, proposal) =>
      && o.Audits() && s.disk == Disk(Whole(proposal), Whole(Result(audit)), before.runList)
      && IsComplete(o, inputs, audit, proposal)
    case RunListOpened(audit, proposal) =>
      && o.generateRunList && s.disk == Disk(Whole(proposal), Whole(Result(audit)), Torn)
      && IsComplete(o, inputs, audit, proposal)
    case RunListWritten(audit, proposal) =>
      && o.generateRunList && s.disk == Disk(Whole(proposal), Whole(Result(audit)), Whole(proposal))
      && IsComplete(o, inputs, audit, proposal)
    case Exited(code) => Final(o, inputs, before, s.disk, code)
  }

  /** How a run that is not interrupted ends. */
  ghost predicate Final(o: Options, inputs: Option<Inputs>, before: Disk, disk: Disk, code: int) {
    if !o.Audits() then disk == before && code == if inputs.Some? then 0 else 1
    else if inputs.None? then code == 1 && Quiet(disk, before) && disk.drift == Whole(DidNotFinish)
    else
      && disk.drift.Whole? && disk.drift.content.Result?
      && var audit := disk.drift.content.audit;
         && code == ExitCode(o, audit)
         && if Evidence(inputs.value.report, inputs.value.jobs) then
              && disk.candidate.Whole? && IsComplete(o, inputs, audit, disk.candidate.content)
              && disk.runList == if o.generateRunList then disk.candidate else before.runList
            else Quiet(disk, before) && code == 1 && audit.status.Incomplete?
  }

  lemma InvStep(o: Options, inputs: Option<Inputs>, before: Disk, s: State, t: State)
    requires Inv(o, inputs, before, s) && Next(o, inputs, s, t)
    ensures Inv(o, inputs, before, t)
  {
  }

  lemma {:induction false} InvAlways(o: Options, inputs: Option<Inputs>, before: Disk, run: seq<State>, k: nat)
    requires IsRun(o, inputs, before, run) && k < |run|
    ensures Inv(o, inputs, before, run[k])
  {
    if k > 0 {
      InvAlways(o, inputs, before, run, k - 1);
      assert Next(o, inputs, run[k - 1], run[k]);
      InvStep(o, inputs, before, run[k - 1], run[k]);
    }
  }

  /** Wherever a run stops after its first step: a candidate, even a torn one, is there only if this
      run's evidence is complete and the drift file holds this run's audit; a whole candidate is this
      run's proposal; the run list is as it was unless the candidate is already whole; and the drift
      file never again shows the audit of an earlier run once the placeholder is begun. */
  lemma CrashSafety(o: Options, inputs: Option<Inputs>, before: Disk, run: seq<State>)
    requires IsRun(o, inputs, before, run) && (o.auditRunList || o.generateRunList) && |run| > 1
    ensures var disk := run[|run| - 1].disk;
            && (!disk.candidate.Absent? ==>
                  && inputs.Some? && Evidence(inputs.value.report, inputs.value.jobs)
                  && disk.drift.Whole? && disk.drift.content.Result?
                  && disk.drift.content.audit.errors == [] && !disk.drift.content.audit.status.Incomplete?)
            && (disk.candidate.Whole? ==>
                  IsComplete(o, inputs, disk.drift.content.audit, disk.candidate.content))
            && (disk.runList != before.runList ==> disk.candidate.Whole? && o.generateRunList)
            && (disk.runList.Whole? && disk.runList != before.runList ==> disk.runList == disk.candidate)
            && (|run| > 2 && disk.drift.Whole? && disk.drift.content.Result? ==>
                  exists generated :: IsOutcome(o, inputs, disk.drift.content.audit, generated))
  {
    var last := |run| - 1;
    InvAlways(o, inputs, before, run, last);
    if last > 0 {
      assert Next(o, inputs, run[last - 1], run[last]);
    }
    if last > 1 {
      assert Next(o, inputs, run[last - 2], run[last - 1]);
    }
    var disk := run[last].disk;
    if |run| > 2 && disk.drift.Whole? && disk.drift.content.Result? {
      var generated := Generated(run[last]);
      assert IsOutcome(o, inputs, disk.drift.content.audit, generated) ||
             (run[last].point.Exited? && !disk.candidate.Whole?);
      if run[last].point.Exited? && !disk.candidate.Whole? {
        InvAlways(o, inputs, before, run, last - 1);
        assert Next(o, inputs, run[last - 1], run[last]);
      }
    }
  }

  /** The proposal that a state has on record. */
  function Generated(s: State): Option<Selections> {
    match s.point
    case Audited(_, generated) => generated
    case DriftOpened(_, generated) => generated
    case DriftWritten(_, generated) => generated
    case CandidateOpened(_, proposal) => Some(proposal)
    case CandidateWritten(_, proposal) => Some(proposal)
    case RunListOpened(_, proposal) => Some(proposal)
    case RunListWritten(_, proposal) => Some(proposal)
    case _ => if s.disk.candidate.Whole? then Some(s.disk.candidate.content) else None
  }

  /** The lists an audit compares with: those handed to it, or none when only a new list is asked for. */
  function Compared(o: Options, inputs: Inputs): (maintained: Selections)
    ensures o.auditRunList ==> maintained == inputs.maintained
    ensures !o.auditRunList ==> maintained == map[]
  {
    if o.auditRunList then inputs.maintained else map[]
  }

  /** A finished audit exits with 0 or 1, and with 0 exactly when the inputs were read, the evidence is
      complete, and, if lists were to be audited, no node drifted. */
  lemma ExitsZeroIff(o: Options, inputs: Option<Inputs>, before: Disk, run: seq<State>, code: int)
    requires IsRun(o, inputs, before, run) && run[|run| - 1].point == Exited(code)
    requires o.auditRunList || o.generateRunList
    ensures code == 0 || code == 1
    ensures code == 0 <==> && inputs.Some? && Complete(inputs.value.report, inputs.value.jobs)
                           && (o.auditRunList ==> !Drifted(inputs.value.report, inputs.value.maintained))
  {
    InvAlways(o, inputs, before, run, |run| - 1);
    if inputs.Some? {
      EvidenceMeans(inputs.value.report, inputs.value.jobs);
    }
    if inputs.Some? && Evidence(inputs.value.report, inputs.value.jobs) {
      var disk := run[|run| - 1].disk;
      AuditMeans(inputs.value.report, Compared(o, inputs.value), inputs.value.jobs, disk.drift.content.audit,
                 Some(disk.candidate.content));
    }
  }

  /** Success means that the evidence is complete, that the lists are current unless only a new list
      was asked for, and that everything asked for is on disk. */
  lemma SuccessMeans(o: Options, inputs: Option<Inputs>, before: Disk, run: seq<State>)
    requires IsRun(o, inputs, before, run) && run[|run| - 1].point == Exited(0)
    requires o.auditRunList || o.generateRunList
    ensures inputs.Some? && Evidence(inputs.value.report, inputs.value.jobs)
    ensures o.auditRunList ==> !Drifted(inputs.value.report, inputs.value.maintained)
    ensures var disk := run[|run| - 1].disk;
            && disk.candidate == Whole(Proposal(inputs.value.report, Compared(o, inputs.value)))
            && ProposalFor(inputs.value.report, Compared(o, inputs.value), disk.candidate.content)
            && (o.generateRunList ==> disk.runList == disk.candidate)
  {
    InvAlways(o, inputs, before, run, |run| - 1);
    ExitsZeroIff(o, inputs, before, run, 0);
    AuditMeans(inputs.value.report, Compared(o, inputs.value), inputs.value.jobs,
               run[|run| - 1].disk.drift.content.audit, Some(run[|run| - 1].disk.candidate.content));
  }

  // ----- every run ends -----

  /** How many steps are left at most. */
  function StepsLeft(p: Point): nat {
    match p
    case Started => 11
    case CandidateRemoved => 10
    case PlaceholderOpened => 9
    case PlaceholderWritten => 8
    case Audited(_, _) => 7
    case DriftOpened(_, _) => 6
    case DriftWritten(_, _) => 5
    case CandidateOpened(_, _) => 4
    case CandidateWritten(_, _) => 3
    case RunListOpened(_, _) => 2
    case RunListWritten(_, _) => 1
    case Exited(_) => 0
  }

  lemma SomeAudit(o: Options, inputs: Inputs) returns (audit: Audit, generated: Option<Selections>)
    ensures IsAudit(inputs.report, Compared(o, inputs), inputs.jobs, audit, generated)
  {
    var report, maintained := inputs.report, Compared(o, inputs);
    if Evidence(report, inputs.jobs) {
      CompleteAudit(report, maintained, inputs.jobs);
      var d := Differences(report, maintained);
      audit, generated := Audit(if AnyDrift(d) then Drift else Current, [], d), Some(Proposal(report, maintained));
    } else {
      audit, generated := Audit(Incomplete, [NoDefaultRuns], map[]), None;
    }
  }

  /** A program that has not exited has a next step. */
  lemma Progress(o: Options, inputs: Option<Inputs>, s: State) returns (t: State)
    requires !s.point.Exited?
    ensures Next(o, inputs, s, t)
  {
    match s.point
    case Started =>
      t := if o.auditRunList || o.generateRunList then State(CandidateRemoved, s.disk.(candidate := Absent))
           else State(Exited(if inputs.Some? then 0 else 1), s.disk);
    case CandidateRemoved => t := State(PlaceholderOpened, s.disk.(drift := Torn));
    case PlaceholderOpened => t := State(PlaceholderWritten, s.disk.(drift := Whole(DidNotFinish)));
    case PlaceholderWritten =>
      if inputs.None? {
        t := State(Exited(1), s.disk);
      } else {
        var audit, generated := SomeAudit(o, inputs.value);
        t := State(Audited(audit, generated), s.disk);
      }
    case Audited(audit, generated) => t := State(DriftOpened(audit, generated), s.disk.(drift := Torn));
    case DriftOpened(audit, generated) =>
      t := State(DriftWritten(audit, generated), s.disk.(drift := Whole(Result(audit))));
    case DriftWritten(audit, generated) =>
      t := if generated.Some? then State(CandidateOpened(audit, generated.value), s.disk.(candidate := Torn))
           else State(Exited(ExitCode(o, audit)), s.disk);
    case CandidateOpened(audit, proposal) =>
      t := State(CandidateWritten(audit, proposal), s.disk.(candidate := Whole(proposal)));
    case CandidateWritten(audit, proposal) =>
      t := if o.generateRunList then State(RunListOpened(audit, proposal), s.disk.(runList := Torn))
           else State(Exited(ExitCode(o, audit)), s.disk);
    case RunListOpened(audit, proposal) =>
      t := State(RunListWritten(audit, proposal), s.disk.(runList := Whole(proposal)));
    case RunListWritten(audit, _) => t := State(Exited(ExitCode(o, audit)), s.disk);
  }

  lemma {:induction false} StepsUsed(o: Options, inputs: Option<Inputs>, before: Disk, run: seq<State>, k: nat)
    requires IsRun(o, inputs, before, run) && k < |run|
    ensures k + StepsLeft(run[k].point) <= 11
  {
    if k > 0 {
      StepsUsed(o, inputs, before, run, k - 1);
      assert Next(o, inputs, run[k - 1], run[k]);
    }
  }

  /** No run is longer than eleven steps, and one that has not exited can go on: every run that is not
      interrupted exits. */
  lemma EveryRunEnds(o: Options, inputs: Option<Inputs>, before: Disk, run: seq<State>)
    requires IsRun(o, inputs, before, run)
    ensures |run| <= 12
    ensures run[|run| - 1].point.Exited? || exists t :: IsRun(o, inputs, before, run + [t])
  {
    var last := |run| - 1;
    StepsUsed(o, inputs, before, run, last);
    if !run[last].point.Exited? {
      var t := Progress(o, inputs, run[last]);
      var more := run + [t];
      forall k | 0 <= k < |more| - 1 ensures Next(o, inputs, more[k], more[k + 1]) {
        assert more[k] == run[k];
        assert k < last ==> more[k + 1] == run[k + 1];
      }
      assert IsRun(o, inputs, before, more);
    }
  }
}
