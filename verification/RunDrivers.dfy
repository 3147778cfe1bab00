/** The directory of a Run and the drivers that conclude it (fsq_agent/execution/runs.py:158-177,
    411-544, fsq_agent/execution/dynamic.py:75-216, fsq_agent/execution/deterministic.py:110-153).
    File operations may fail, collaborators may return or raise anything, and other threads of the
    process may write between any two steps; each is a nondeterministic choice (`*`). */
module RunDrivers {
  import opened Wrappers
  import opened Freeze
  import opened RunMetadata

  /** execution-result.json */
  datatype Document = Document(runId: string, platform: string, result: ExecutionResult)

  datatype Disk = Disk(run: Option<Metadata>, frozen: Option<Document>)

  /** run.json states the frozen conclusion. */
  predicate States(m: Metadata, d: Document) {
    && m.identity.runId == d.runId && m.identity.platform == d.platform
    && m.status == Concluded(d.result.outcome) && m.counts == Some(d.result.counts)
  }

  /** A concluded run.json states what was frozen, and what was frozen is valid. */
  predicate Coherent(d: Disk) {
    && (d.run.Some? && d.run.value.status.Concluded? ==> d.frozen.Some? && States(d.run.value, d.frozen.value))
    && (d.frozen.Some? ==> Validates(d.frozen.value.result))
  }

  /** One write: the frozen document is created, or run.json is written under its own checks. */
  predicate OneWrite(a: Disk, b: Disk) {
    || (b.run == a.run && a.frozen.None? && b.frozen.Some?)
    || (b.frozen == a.frozen && b.run.Some? && Accepts(a.run, b.run.value))
  }

  predicate Lawful(history: seq<Disk>) {
    && (forall i | 0 <= i < |history| :: Coherent(history[i]))
    && (forall i | 0 <= i < |history| - 1 :: OneWrite(history[i], history[i + 1]))
  }

  /** What holds between an earlier and a later state of the directory. */
  predicate Follows(a: Disk, b: Disk) {
    && (a.frozen.Some? ==> b.frozen == a.frozen)
    && (a.run.Some? ==>
          && b.run.Some? && b.run.value.identity == a.run.value.identity
          && a.run.value.revision <= b.run.value.revision && Rank(a.run.value.status) <= Rank(b.run.value.status)
          && (a.run.value.revision == b.run.value.revision || a.run.value.status.Concluded? ==> b.run == a.run))
  }

  /** Over a whole history the frozen document is written at most once and never changes, and a
      concluded run.json never changes. */
  lemma {:induction false} HistoryFollows(history: seq<Disk>, i: nat, j: nat)
    requires Lawful(history) && i <= j < |history|
    ensures Follows(history[i], history[j])
    decreases j - i
  {
    if i < j {
      HistoryFollows(history, i, j - 1);
      assert OneWrite(history[j - 1], history[j - 1 + 1]);
    }
  }

  datatype Attempt = Finished(outcome: Word) | Threw(cancelled: bool)

  /** How a collaborator ends that derives something from the conclusion: normally, with an exception,
      or with one that is not caught there: a cancellation of the task or another interruption. */
  datatype StageEnd = Fine | Raises | Interrupts(cancelling: bool)

  /** The collaborators in order, as far as they were called; `recorded` is what a recording that
      ended normally says of itself. */
  datatype Stages = Stages(report: StageEnd, coordinator: Option<StageEnd>, recording: Option<StageEnd>, recorded: bool,
                           sink: Option<StageEnd>)

  /** The run is left in the middle of derived processing: an interruption, or an exception of the
      sink that is given the exceptions of recording. */
  predicate Stops(s: Stages) {
    || s.report.Interrupts?
    || (s.coordinator.Some? && s.coordinator.value.Interrupts?)
    || (s.recording.Some? && s.recording.value.Interrupts?)
    || (s.sink.Some? && s.sink.value != Fine)
  }

  /** Some stage ended in a cancellation of the task. */
  predicate Cancelling(s: Stages) {
    || s.report == Interrupts(true) || s.coordinator == Some(Interrupts(true))
    || s.recording == Some(Interrupts(true)) || s.sink == Some(Interrupts(true))
  }

  predicate StoppedBy(s: Stages, r: Attempt) {
    r == Threw(Cancelling(s))
  }

  /** What run.json is to say about derived processing. */
  predicate Noted(processing: Processing, s: Stages) {
    && Report in processing && processing[Report] in {Succeeded, Unsuccessful, Stopped}
    && (processing[Report] == Succeeded <==> s.report == Fine && s.coordinator in {None, Some(Fine)})
    && (processing[Report] == Stopped <==> s.report == Interrupts(true) || s.coordinator == Some(Interrupts(true)))
    && (Recording in processing <==> s.recording.Some?)
    && (Recording in processing ==> processing[Recording] in {Succeeded, Unsuccessful, Stopped})
    && (s.recording.Some? ==>
          && (processing[Recording] == Succeeded <==> s.recording == Some(Fine) && s.recorded)
          && (processing[Recording] == Stopped
              <==> s.recording == Some(Interrupts(true)) || s.sink == Some(Interrupts(true))))
    && (Publication in processing <==> s.recording == Some(Fine))
  }

  /** Why a driver threw, if it did. */
  datatype Cause = NoCause | BeforeConclusion | InStages | InFinalization

  class RunDirectory {
    var run: Option<Metadata>
    var frozen: Option<Document>
    /** every state the two files have been in */
    ghost var history: seq<Disk>

    constructor ()
      ensures Valid() && run == None && frozen == None && history == [Disk(None, None)]
    {
      run, frozen, history := None, None, [Disk(None, None)];
    }

    ghost predicate Valid()
      reads this
    {
      history != [] && history[|history| - 1] == Disk(run, frozen) && Lawful(history)
    }

    /** What is known after other writes: nothing of the past has been rewritten. */
    twostate predicate Continues()
      reads this
    {
      && Valid() && old(history) <= history && Follows(old(Disk(run, frozen)), Disk(run, frozen))
    }

    /** write_run_metadata; false when it raises. */
    method WriteRunMetadata(m: Metadata) returns (ok: bool)
      requires Valid()
      requires m.status.Concluded? ==> frozen.Some? && States(m, frozen.value)
      modifies this
      ensures Continues() && frozen == old(frozen)
      ensures ok ==> Accepts(old(run), m) && run == Some(m)
    {
      if !Accepts(run, m) {
        return false;
      }
      var fault: Fault := *;
      if fault == BeforeEffect {
        return false;
      }
      ok := fault == NoFault || run.Some?;
      ghost var h := history;
      run := Some(m);
      history := history + [Disk(run, frozen)];
      Appended(h, Disk(run, frozen));
    }

    /** _atomic_json(..., replace=False): the document is linked into place, which fails when there
        is one already; false when it raises. */
    method CreateFrozen(d: Document) returns (ok: bool)
      requires Valid() && Validates(d.result)
      modifies this
      ensures Continues() && run == old(run)
      ensures ok ==> old(frozen).None? && frozen == Some(d)
    {
      if frozen.Some? {
        return false;
      }
      var fault: Fault := *;
      if fault == BeforeEffect {
        return false;
      }
      ok := fault == NoFault;
      ghost var h := history;
      frozen := Some(d);
      history := history + [Disk(run, frozen)];
      Appended(h, Disk(run, frozen));
    }

    /** Other threads of the process: any writes, as long as a conclusion they write is the frozen one. */
    method OthersWrite()
      requires Valid()
      modifies this
      ensures Continues()
    {
      var n: nat :| n >= 0;
      for i := 0 to n
        invariant Continues()
      {
        var m: Metadata, d: Document, freezes: bool := *, *, *;
        if freezes {
          if Validates(d.result) {
            var _ := CreateFrozen(d);
          }
        } else if m.status.Concluded? ==> frozen.Some? && States(m, frozen.value) {
          var _ := WriteRunMetadata(m);
        }
      }
    }

    /** transition_run; None when it raises. */
    method TransitionRun(read: Metadata, status: Status, counts: Option<Counts>, details: Details)
      returns (r: Option<Metadata>)
      requires Valid()
      requires status.Concluded? ==> frozen.Some? && States(read.(status := status, counts := counts), frozen.value)
      modifies this
      ensures Continues()
      ensures r.Some? ==> run == r && r.value.status == status && r.value.counts == counts && r.value.details == details
      ensures r.Some? ==> r.value.identity == read.identity
    {
      OthersWrite();
      if run.None? {
        return None;
      }
      var next := Transition(run.value, read, status, counts, details);
      if next.None? {
        return None;
      }
      OthersWrite();
      var ok := WriteRunMetadata(next.value);
      r := if ok then next else None;
    }

    /** snapshot_sources, as far as run.json is concerned; None when it raises. */
    method SnapshotSources(read: Metadata, details: Details) returns (r: Option<Metadata>)
      requires Valid()
      modifies this
      ensures Continues()
      ensures r.Some? ==> run == r && r.value.identity == read.identity && r.value.status == read.status
    {
      OthersWrite();
      if run.None? {
        return None;
      }
      var next := Snapshot(run.value, read, details);
      if next.None? {
        return None;
      }
      var fails: bool := *;
      if fails {
        return None;
      }
      OthersWrite();
      var ok := WriteRunMetadata(next.value);
      r := if ok then next else None;
    }

    /** freeze; None when it raises. */
    method FreezeRun(read: Metadata, evidenceRunId: string, b: Bundle, v: Verification, status: Option<Word>,
                     fatal: bool)
      returns (r: Option<Document>)
      requires Valid()
      modifies this
      ensures Continues()
      ensures r.Some? ==>
                && old(frozen).None? && frozen == r
                && r.value
                   == Document(read.identity.runId, read.identity.platform,
                               Frozen(read.identity.mode, b, v, status, fatal))
                && Validates(r.value.result)
    {
      hide Frozen, Validates;
      if evidenceRunId != read.identity.runId || run.None? || run.value.status.Concluded? {
        return None;
      }
      var now := run.value.identity;
      if now.runId != read.identity.runId || now.platform != read.identity.platform || now.mode != read.identity.mode {
        return None;
      }
      if frozen.Some? {
        return None;
      }
      var result := FreezeBundle(read.identity.mode, b, v, status, fatal);
      if !Validates(result) {
        return None;
      }
      OthersWrite();
      var d := Document(read.identity.runId, read.identity.platform, result);
      var ok := CreateFrozen(d);
      r := if ok then Some(d) else None;
    }

    /** finalize; None when it raises. */
    method FinalizeRun(d: Document, details: Details) returns (r: Option<Metadata>)
      requires Valid()
      modifies this
      ensures Continues()
      ensures r.Some? ==> run == r && frozen == Some(d) && States(r.value, d) && r.value.details == details
    {
      hide Validates, Lawful;
      if run.None? || run.value.identity.runId != d.runId || run.value.identity.platform != d.platform {
        return None;
      }
      var persisted := run.value;
      if frozen != Some(d) {
        return None;
      }
      if persisted.status == Preparing || persisted.status == Running {
        var moved := TransitionRun(persisted, Finalizing, persisted.counts, persisted.details);
        if moved.None? {
          return None;
        }
        persisted := moved.value;
      }
      r := TransitionRun(persisted, Concluded(d.result.outcome), Some(d.result.counts), details);
    }

    /** The part of DynamicExecutionService.execute between freezing and finalizing: the report, the
        coordinator, the recording and its publication. Exceptions are caught stage by stage and noted;
        `active` is the stage that an uncaught one left. */
    method DeriveArtifacts(coordinates: bool, records: bool, hasSink: bool)
      returns (processing: Processing, active: Option<Stage>, thrown: Option<bool>, ghost stages: Stages)
      ensures thrown.Some? <==> Stops(stages)
      ensures thrown.Some? ==> thrown.value == Cancelling(stages)
      ensures thrown.Some? <==> active.Some?
      ensures Noted(WithActive(processing, active, thrown), stages)
      ensures thrown.None? ==> stages.coordinator.Some? == coordinates && stages.recording.Some? == records
      ensures stages.sink.Some? <==> stages.recording == Some(Raises) && hasSink
    {
      var report: StageEnd := *;
      stages := Stages(report, None, None, false, None);
      active, thrown := Some(Report), None;
      processing := map[Report := Awaited];
      match report {
        case Fine => processing := processing[Report := Succeeded];
        case Raises => processing := processing[Report := Unsuccessful];
        case Interrupts(cancelling) => return processing, active, Some(cancelling), stages;
      }
      active := None;
      if coordinates {
        active := Some(Report);
        var coordinator: StageEnd := *;
        stages := stages.(coordinator := Some(coordinator));
        match coordinator {
          case Fine =>
          case Raises => processing := processing[Report := Unsuccessful];
          case Interrupts(cancelling) => return processing, active, Some(cancelling), stages;
        }
      }
      active := None;
      if records {
        active := Some(Recording);
        processing := processing[Recording := Awaited];
        var recording: StageEnd, recorded: bool, published: Progress := *, *, *;
        stages := stages.(recording := Some(recording), recorded := recorded);
        match recording {
          case Fine =>
            processing := processing[Recording := if recorded then Succeeded else Unsuccessful];
            processing := processing[Publication := published];
          case Raises =>
            processing := processing[Recording := Unsuccessful];
            if hasSink {
              var sink: StageEnd := *;
              stages := stages.(sink := Some(sink));
              if sink != Fine {
                return processing, active, Some(sink == Interrupts(true)), stages;
              }
            }
          case Interrupts(cancelling) => return processing, active, Some(cancelling), stages;
        }
      }
      active := None;
    }

    /** The failure handler marks the stage that was active. */
    static function WithActive(processing: Processing, active: Option<Stage>, thrown: Option<bool>): Processing {
      if active.Some? then processing[active.value := if thrown == Some(true) then Stopped else Unsuccessful]
      else processing
    }

    /** The try block of DynamicExecutionService.execute, and the processing as the failure handler
        would note it. What is frozen is decided by the evidence, the verification and the agent's
        errors. */
    method RunDynamically(initial: Metadata)
      returns (r: Attempt, processing: Processing, ghost b: Bundle, ghost v: Verification, ghost fatal: bool,
               ghost stages: Stages, ghost cause: Cause)
      requires Valid() && run == Some(initial) && initial.identity.mode == Explore
      modifies this
      ensures Continues() && (r.Finished? <==> cause == NoCause)
      ensures cause != BeforeConclusion ==>
                && frozen.Some? && frozen.value.result == Frozen(Explore, b, v, None, fatal)
                && Noted(processing, stages) && (cause == InStages <==> Stops(stages))
      ensures cause == InStages ==> StoppedBy(stages, r)
      ensures r.Finished? ==> Concludes(processing) && r.outcome == frozen.value.result.outcome
    {
      hide Frozen, Validates, Lawful, Noted, Stops, Cancelling;
      var bundle: Bundle, verdict: Word, fatalErrors: bool := *, *, *;
      b, v, fatal, cause := bundle, Verified(Some(verdict)), fatalErrors, BeforeConclusion;
      stages := Stages(Fine, None, None, false, None);
      processing := map[];
      var cancelled: bool, details: Details := *, *;
      r := Threw(cancelled);
      var snapshot := SnapshotSources(initial, details);
      if snapshot.None? {
        return;
      }
      var running := TransitionRun(snapshot.value, Running, snapshot.value.counts, details);
      if running.None? {
        return;
      }
      var agentThrows: bool := *;
      if agentThrows {
        return;
      }
      var evidenceRunId: string := *;
      var d := FreezeRun(running.value, evidenceRunId, bundle, Verified(Some(verdict)), None, fatalErrors);
      if d.None? {
        return;
      }
      var coordinates: bool, records: bool, hasSink: bool := *, *, *;
      var active, thrown;
      processing, active, thrown, stages := DeriveArtifacts(coordinates, records, hasSink);
      processing := WithActive(processing, active, thrown);
      if thrown.Some? {
        r, cause := Threw(thrown.value), InStages;
        return;
      }
      cause := InFinalization;
      var final := FinalizeRun(d.value, Details(processing, details.rest));
      if final.None? {
        return;
      }
      cause := NoCause;
      r := Finished(d.value.result.outcome);
    }

    /** run.json states the frozen conclusion and what became of derived processing. */
    ghost predicate Concludes(processing: Processing)
      reads this
    {
      run.Some? && frozen.Some? && States(run.value, frozen.value) && run.value.details.processing == processing
    }

    /** The failure handler: an existing frozen document is kept, otherwise "cancelled" or "error" is
        frozen, with the evidence that `froze` gives; then the Run is finalized. Its own exceptions are
        swallowed. */
    method HandleFailure(read: Metadata, cancelled: bool, processing: Processing)
      returns (concluded: bool, ghost froze: Option<Bundle>)
      requires Valid()
      modifies this
      ensures Continues()
      ensures concluded ==> Concludes(processing)
      ensures froze.Some? ==> frozen.Some? && frozen.value.result.outcome == BrokenOutcome(cancelled, froze.value)
    {
      hide Frozen, Validates, Lawful, Conclusion, FactsOf, NoneCancelled;
      froze := None;
      var evidence: Bundle, evidenceRunId: string, rest: string := *, *, *;
      var d: Option<Document>;
      OthersWrite();
      if frozen.Some? {
        d := frozen;
      } else {
        var status := Some(if cancelled then Cancelled else Error);
        d := FreezeRun(read, evidenceRunId, evidence, NoVerification, status, false);
        StatedConclusion(read.identity.mode, evidence, cancelled);
        froze := if d.Some? then Some(evidence) else None;
      }
      if d.None? {
        return false, froze;
      }
      var final := FinalizeRun(d.value, Details(processing, rest));
      concluded := final.Some?;
    }

    /** DynamicExecutionService.execute: allocate, run, and on any exception handle the failure and
        raise. Once a conclusion is frozen it is the one that was decided and stays so; derived
        processing makes the driver throw only by an interruption, never by an exception; and in both
        cases run.json, if it is concluded, states the frozen conclusion and the processing. */
    method ExecuteDynamically(initial: Metadata)
      returns (r: Attempt, ghost b: Bundle, ghost v: Verification, ghost fatal: bool, ghost processing: Processing,
               ghost stages: Stages, ghost cause: Cause, ghost concluded: bool, ghost broken: Option<Bundle>)
      requires Valid() && run.None? && frozen.None? && initial.identity.mode == Explore && initial.status == Preparing
      requires initial.revision == 0
      modifies this
      ensures Continues() && (r.Finished? <==> cause == NoCause)
      ensures cause != BeforeConclusion ==>
                && frozen.Some? && frozen.value.result == Frozen(Explore, b, v, None, fatal)
                && Noted(processing, stages) && (cause == InStages <==> Stops(stages))
      ensures r.Finished? ==> concluded && r.outcome == frozen.value.result.outcome
      ensures concluded ==> Concludes(processing)
      ensures concluded ==>
                && run.Some? && frozen.Some? && run.value.status == Concluded(frozen.value.result.outcome)
                && run.value.counts == Some(frozen.value.result.counts)
                   && run.value.identity.runId == frozen.value.runId
      ensures broken.Some? ==>
                r.Threw? && frozen.Some? && frozen.value.result.outcome == BrokenOutcome(r.cancelled, broken.value)
      ensures cause == InStages ==> StoppedBy(stages, r)
    {
      hide Frozen, Validates, Lawful, Noted, Stops, NoneCancelled, StoppedBy;
      b, v, fatal, cause := Bundle([], [], Partial), NoVerification, false, BeforeConclusion;
      stages := Stages(Fine, None, None, false, None);
      processing, concluded, broken := map[], false, None;
      var ok := WriteRunMetadata(initial);
      if !ok {
        return Threw(false), b, v, fatal, processing, stages, cause, concluded, broken;
      }
      var noted;
      r, noted, b, v, fatal, stages, cause := RunDynamically(initial);
      processing, concluded := noted, r.Finished?;
      if r.Threw? {
        concluded, broken := HandleFailure(initial, r.cancelled, noted);
      }
    }

    /** ensure_run: adopt an active run.json of the same run, or create it where there is no evidence
        of an earlier execution; None when it raises. */
    method EnsureRun(identity: Identity, otherEvidence: bool, details: Details) returns (r: Option<Metadata>)
      requires Valid()
      modifies this
      ensures Continues()
      ensures r.Some? ==> run == r && !r.value.status.Concluded? && r.value.identity.mode == identity.mode
      ensures r.Some? && old(run).None? ==> old(frozen).None?
    {
      if run.Some? {
        var m := run.value;
        if m.identity.runId != identity.runId || m.identity.platform != identity.platform
            || m.identity.mode != identity.mode || m.status.Concluded? {
          return None;
        }
        return run;
      }
      if frozen.Some? || otherEvidence {
        return None;
      }
      var m := Metadata(identity, Preparing, 0, None, details);
      var ok := WriteRunMetadata(m);
      r := if ok then Some(m) else None;
    }

    /** The deterministic _execute: steps that raise are frozen as cancelled or as an error, everything
        else by what was recorded. The report comes after the conclusion: its exceptions are noted, an
        interruption leaves the run frozen but not concluded. */
    method ExecuteDeterministically(identity: Identity, generateReport: bool)
      returns (r: Attempt, ghost b: Bundle, ghost status: Option<Word>, ghost report: Option<StageEnd>,
               ghost cause: Cause)
      requires Valid() && identity.mode == Strict
      modifies this
      ensures Continues() && (r.Finished? <==> cause == NoCause)
      ensures cause != BeforeConclusion ==>
                && old(frozen).None? && frozen.Some?
                   && frozen.value.result == Frozen(Strict, b, NoVerification, status, false)
                && (status.Some? ==>
                      && r.Threw? && status == Some(if r.cancelled then Cancelled else Error)
                      && frozen.value.result.outcome == BrokenOutcome(r.cancelled, b))
      ensures cause == InStages <==> report.Some? && report.value.Interrupts?
      ensures report.Some? ==> generateReport && status == None && cause != BeforeConclusion
      ensures r.Finished? ==>
                status == None && report.Some? == generateReport && r.outcome == frozen.value.result.outcome
      ensures r.Finished? ==>
                && run.Some? && run.value.status == Concluded(r.outcome)
                && run.value.counts == Some(frozen.value.result.counts)
                   && run.value.identity.runId == frozen.value.runId
      ensures r.Finished? ==>
                Concludes(map[Report := if report.None? then Unrequested else if report
                              == Some(Fine) then Succeeded else Unsuccessful])
    {
      hide Frozen, Validates, Lawful, NoneCancelled;
      var bundle: Bundle, otherEvidence: bool, cancelled: bool, details: Details := *, *, *, *;
      b, status, report, cause := bundle, None, None, BeforeConclusion;
      r := Threw(cancelled);
      var ensured := EnsureRun(identity, otherEvidence, details);
      if ensured.None? {
        return;
      }
      var snapshot := SnapshotSources(ensured.value, details);
      if snapshot.None? {
        return;
      }
      var active := snapshot.value;
      if active.status == Preparing {
        var moved := TransitionRun(active, Running, active.counts, details);
        if moved.None? {
          return;
        }
        active := moved.value;
      }
      var evidenceRunId: string, stepsThrow: bool := *, *;
      var d: Option<Document>;
      if stepsThrow {
        var stated := Some(if cancelled then Cancelled else Error);
        d := FreezeRun(active, evidenceRunId, bundle, NoVerification, stated, false);
        if d.Some? {
          status, cause := stated, InFinalization;
          StatedConclusion(Strict, bundle, cancelled);
          var _ := FinalizeRun(d.value, Details(map[], details.rest));
        }
        return;
      }
      d := FreezeRun(active, evidenceRunId, bundle, NoVerification, None, false);
      if d.None? {
        return;
      }
      cause := InFinalization;
      var processing := map[Report := Unrequested];
      if generateReport {
        var end: StageEnd := *;
        report := Some(end);
        if end.Interrupts? {
          cause := InStages;
          return;
        }
        processing := map[Report := if end == Fine then Succeeded else Unsuccessful];
      }
      var final := FinalizeRun(d.value, Details(processing, details.rest));
      if final.Some? {
        r, cause := Finished(d.value.result.outcome), NoCause;
      }
    }
  }

  /** How a run that broke is concluded: as cancelled if that is what broke it or if some leaf's last result
      was cancelled, as an error otherwise. */
  ghost function BrokenOutcome(cancelled: bool, b: Bundle): Word {
    if cancelled || !NoneCancelled(b.steps) then Cancelled else Error
  }

  lemma StatedConclusion(mode: Mode, b: Bundle, cancelled: bool)
    ensures Frozen(mode, b, NoVerification, Some(if cancelled then Cancelled else Error), false).outcome
            == BrokenOutcome(cancelled, b)
  {
    hide FactsOf, WentWell, NoneCancelled;
    WhatFactsSay(mode, b, NoVerification, Some(if cancelled then Cancelled else Error), false);
  }

  lemma Appended(history: seq<Disk>, d: Disk)
    requires history != [] && Lawful(history) && Coherent(d) && OneWrite(history[|history| - 1], d)
    ensures Lawful(history + [d]) && Follows(history[|history| - 1], d)
  {
    assert forall i | 0 <= i < |history| - 1 :: OneWrite(history[i], history[i + 1]);
  }
}
