/** A run row, its per-stage progress document and its result tables, with the transactions that change them. */
module RunRecord {
  import opened Wrappers
  import opened RealMath

  datatype Status = Draft | Queued | PdRunning | LgdRunning | EadRunning | Complete | Failed

  datatype StageKey = Pd | Lgd | Ead | Ecl

  datatype StageStatus = Pending | Running | Done | Error

  /** One row of a result table; ecl is its Discounted ECL where the table has one. */
  datatype ResultRow = ResultRow(key: string, ecl: real)

  type Table = seq<ResultRow>

  type Progress = map<StageKey, StageStatus>

  /** What the database holds about one run. */
  datatype Run = Run(status: Status, progress: Progress, pdResults: Table, lgdResults: Table, eadResults: Table,
                     failureStage: Option<string>, totalEcl: Option<real>)

  const ALL_PENDING: Progress := map[Pd := Pending, Lgd := Pending, Ead := Pending, Ecl := Pending]

  predicate Active(status: Status) {
    status == Queued || status == PdRunning || status == LgdRunning || status == EadRunning
  }

  /** The status of one stage as _get_engine_progress reports it: a missing entry is pending. */
  function StageOf(progress: Progress, stage: StageKey): StageStatus {
    if stage in progress then progress[stage] else Pending
  }

  // ----- The transactions as functions of the run -----

  /** jsonb_set on one stage key: the other keys keep whatever they hold now. */
  function WithStage(run: Run, stage: StageKey, value: StageStatus): Run {
    run.(progress := run.progress[stage := value])
  }

  function WithRunning(run: Run, stage: StageKey, status: Status): Run {
    WithStage(run, stage, Running).(status := status)
  }

  function WithResults(run: Run, stage: StageKey, rows: Table): Run {
    if stage == Pd then run.(pdResults := rows) else run.(lgdResults := rows)
  }

  function StageName(stage: StageKey): string {
    match stage case Pd => "pd" case Lgd => "lgd" case Ead => "ead" case Ecl => "ecl"
  }

  function WithFailure(run: Run, stage: StageKey): Run {
    WithStage(run, stage, Error).(status := Failed, failureStage := Some(StageName(stage)))
  }

  /** The final mark of a stage overwrites its running entry. */
  lemma RunningOverwritten(run: Run, stage: StageKey, status: Status)
    ensures WithFailure(WithRunning(run, stage, status), stage) == WithFailure(run, stage)
    ensures WithStage(WithRunning(run, stage, status), stage, Done) == WithStage(run, stage, Done).(status := status)
  {}

  lemma ResultsOverRunning(run: Run, stage: StageKey, status: Status, rows: Table)
    ensures var stored := WithResults(WithRunning(run, stage, status), stage, rows);
            && WithFailure(stored, stage) == WithFailure(WithResults(run, stage, rows), stage)
            && WithStage(stored, stage, Done) == WithStage(WithResults(run, stage, rows), stage, Done).(status := status)
  {
    RunningOverwritten(WithResults(run, stage, rows), stage, status);
    assert WithResults(WithRunning(run, stage, status), stage, rows) == WithRunning(WithResults(run, stage, rows), stage, status);
  }

  function Cleared(run: Run): Run { run.(pdResults := [], lgdResults := [], eadResults := []) }

  function Enqueued(run: Run): Run {
    run.(status := Queued, progress := ALL_PENDING, failureStage := None, totalEcl := None)
  }

  function Reverted(run: Run): Run {
    if run.status == Queued then run.(status := Draft, progress := ALL_PENDING) else run
  }

  function Recovered(run: Run, idleMinutes: int): Run {
    if run.status == Queued && idleMinutes > 10 then run.(status := Failed, failureStage := Some("queued"))
    else if Active(run.status) && run.status != Queued && idleMinutes > 45 then run.(status := Failed, failureStage := Some("timeout"))
    else run
  }

  function EclOf(): ResultRow -> real { (r: ResultRow) => r.ecl }

  // ----- Concurrent merges into the progress document -----

  /** One committed merge: a stage and the status written to it. */
  datatype Merge = Merge(stage: StageKey, value: StageStatus)

  function Merged(progress: Progress, merges: seq<Merge>): Progress {
    if merges == [] then progress
    else Merged(progress, merges[..|merges| - 1])[merges[|merges| - 1].stage := merges[|merges| - 1].value]
  }

  /** The statuses one stage wrote, in its own order. */
  function WrittenBy(merges: seq<Merge>, stage: StageKey): seq<StageStatus> {
    if merges == [] then []
    else
      var last := merges[|merges| - 1];
      WrittenBy(merges[..|merges| - 1], stage) + if last.stage == stage then [last.value] else []
  }

  /** A stage's entry is the last status it wrote itself, whatever the other stages wrote in between. */
  lemma {:induction false} EntryIsLastWritten(progress: Progress, merges: seq<Merge>, stage: StageKey)
    ensures var own := WrittenBy(merges, stage);
            if own == [] then (stage in Merged(progress, merges) <==> stage in progress)
                              && StageOf(Merged(progress, merges), stage) == StageOf(progress, stage)
            else stage in Merged(progress, merges) && StageOf(Merged(progress, merges), stage) == own[|own| - 1]
  {
    if merges != [] {
      EntryIsLastWritten(progress, merges[..|merges| - 1], stage);
    }
  }

  /** No interleaving loses an update: the document depends only on what each stage wrote, in its own order. */
  lemma InterleavingsAgree(progress: Progress, merges: seq<Merge>, other: seq<Merge>)
    requires forall stage: StageKey :: WrittenBy(merges, stage) == WrittenBy(other, stage)
    ensures Merged(progress, merges) == Merged(progress, other)
  {
    hide Merged, WrittenBy;
    forall stage: StageKey
      ensures stage in Merged(progress, merges) <==> stage in Merged(progress, other)
      ensures StageOf(Merged(progress, merges), stage) == StageOf(Merged(progress, other), stage)
    {
      EntryIsLastWritten(progress, merges, stage);
      EntryIsLastWritten(progress, other, stage);
    }
  }

  // ----- Dispatch and its undoing -----

  /** What execute_run leaves: a failed run's results are deleted first. */
  function Dispatch(run: Run): Run { Enqueued(if run.status == Failed then Cleared(run) else run) }

  /** Reverting a dispatch gives back the run that was dispatched exactly when it was a draft with nothing recorded. */
  lemma RevertUndoesDispatch(run: Run)
    ensures Reverted(Dispatch(run)) == run
       <==> run.status == Draft && run.progress == ALL_PENDING && run.failureStage.None? && run.totalEcl.None?
    ensures Reverted(Dispatch(run)).status == Draft
    ensures run.status == Failed ==> Reverted(Dispatch(run)) == Cleared(run).(status := Draft, progress := ALL_PENDING, failureStage := None, totalEcl := None)
  {}

  // ----- execute_run's guards -----

  datatype Kind = PdFile | LgdFile | EadFile

  datatype Validation = NotValidated | Passed | Warned | Rejected

  datatype Upload = Upload(kind: Kind, validation: Validation, warningsAccepted: bool)

  /** What execute_run answers: already running, refused, or dispatched. */
  datatype Outcome = AlreadyActive | Refused(code: string) | Dispatched

  predicate HasKinds(uploads: seq<Upload>) {
    && (exists i :: 0 <= i < |uploads| && uploads[i].kind == PdFile)
    && (exists i :: 0 <= i < |uploads| && uploads[i].kind == LgdFile)
    && (exists i :: 0 <= i < |uploads| && uploads[i].kind == EadFile)
  }

  predicate Executable(u: Upload) { u.validation == Passed || (u.validation == Warned && u.warningsAccepted) }

  /** A run that execute_run accepts with these uploads. */
  predicate Dispatchable(status: Status, uploads: seq<Upload>) {
    (status == Draft || status == Failed) && HasKinds(uploads) && forall i :: 0 <= i < |uploads| ==> Executable(uploads[i])
  }

  /** Where _ead_ecl_main raises after its insert: before the EAD completion mark, before the final update, or after it. */
  datatype CallbackFault = NoFault | BeforeEadMark | BeforeFinal | AfterFinal

  class RunRow {
    var status: Status
    var progress: Progress
    var pdResults: Table
    var lgdResults: Table
    var eadResults: Table
    var failureStage: Option<string>
    var totalEcl: Option<real>

    function Value(): Run
      reads this
    {
      Run(status, progress, pdResults, lgdResults, eadResults, failureStage, totalEcl)
    }

    /** One UPDATE: the stage key is merged into the document and the given status, if any, is set. */
    method AtomicStageUpdate(stage: StageKey, value: StageStatus, newStatus: Option<Status>)
      modifies this`progress, this`status
      ensures newStatus.None? ==> Value() == WithStage(old(Value()), stage, value)
      ensures newStatus.Some? ==> Value() == WithStage(old(Value()), stage, value).(status := newStatus.value)
      ensures forall other :: other != stage ==> StageOf(progress, other) == StageOf(old(progress), other)
    {
      progress := progress[stage := value];
      if newStatus.Some? {
        status := newStatus.value;
      }
    }

    method MarkStageRunning(stage: StageKey, runStatus: Status)
      modifies this`progress, this`status
      ensures Value() == WithRunning(old(Value()), stage, runStatus)
      ensures forall other :: other != stage ==> StageOf(progress, other) == StageOf(old(progress), other)
    {
      AtomicStageUpdate(stage, Running, Some(runStatus));
    }

    method MarkStageComplete(stage: StageKey)
      modifies this`progress, this`status
      ensures Value() == WithStage(old(Value()), stage, Done)
      ensures forall other :: other != stage ==> StageOf(progress, other) == StageOf(old(progress), other)
    {
      AtomicStageUpdate(stage, Done, None);
    }

    method MarkRunFailed(stage: StageKey)
      modifies this`progress, this`status, this`failureStage
      ensures Value() == WithFailure(old(Value()), stage) && failureStage == Some(StageName(stage))
      ensures forall other :: other != stage ==> StageOf(progress, other) == StageOf(old(progress), other)
    {
      AtomicStageUpdate(stage, Error, Some(Failed));
      failureStage := Some(StageName(stage));
    }

    /** The DELETE and bulk insert of one header stage, in one transaction. */
    method ReplaceResults(stage: StageKey, rows: Table)
      requires stage == Pd || stage == Lgd
      modifies this`pdResults, this`lgdResults
      ensures Value() == WithResults(old(Value()), stage, rows)
    {
      if stage == Pd {
        pdResults := rows;
      } else {
        lgdResults := rows;
      }
    }

    /**
     * _pd_main and _lgd_main run without interference: `output` is None where loading or computing raises,
     * and `markFails` says that the completion mark after the committed insert raises.
     */
    method StageMain(stage: StageKey, runStatus: Status, output: Option<Table>, markFails: bool) returns (ok: bool)
      requires stage == Pd || stage == Lgd
      modifies this
      ensures ok <==> StageOf(old(progress), stage) == Done || (output.Some? && !markFails)
      ensures StageOf(old(progress), stage) == Done ==> Value() == old(Value())
      ensures ok && StageOf(old(progress), stage) != Done ==>
                Value() == WithStage(WithResults(old(Value()), stage, output.value), stage, Done).(status := runStatus)
      ensures !ok ==>
                && Value() == WithFailure(if output.Some? then WithResults(old(Value()), stage, output.value) else old(Value()), stage)
                && failureStage == Some(if stage == Pd then "pd" else "lgd")
      ensures forall other :: other != stage ==> StageOf(progress, other) == StageOf(old(progress), other)
    {
      hide WithStage, WithRunning, WithFailure, WithResults;
      if StageOf(progress, stage) == Done {
        return true;
      }
      RunningOverwritten(Value(), stage, runStatus);
      MarkStageRunning(stage, runStatus);
      if output.None? {
        MarkRunFailed(stage);
        return false;
      }
      ResultsOverRunning(old(Value()), stage, runStatus, output.value);
      ReplaceResults(stage, output.value);
      if markFails {
        MarkRunFailed(stage);
        return false;
      }
      MarkStageComplete(stage);
      return true;
    }

    /**
     * _ead_ecl_main run without interference; the totals are the sums over the stored rows. `output` is None where the
     * EAD engine raises, and `fault` says where the code after the insert raises.
     */
    method EadEclMain(output: Option<Table>, fault: CallbackFault) returns (ok: bool)
      modifies this
      ensures ok <==> old(status) == Failed || (output.Some? && fault == NoFault)
      ensures old(status) == Failed ==> Value() == old(Value())
      ensures old(status) != Failed && output.None? ==> Value() == WithFailure(old(Value()), Ead) && failureStage == Some("ead")
      ensures old(status) != Failed && output.Some? ==>
                && eadResults == old(eadResults) + output.value && pdResults == old(pdResults) && lgdResults == old(lgdResults)
                && StageOf(progress, Ead) == (if fault == BeforeEadMark then Running else Done)
                && StageOf(progress, Ecl) == (if ok then Done else Error)
                && status == (if ok then Complete else Failed)
                && failureStage == (if ok then old(failureStage) else Some("ecl"))
                && totalEcl == (if ok || fault == AfterFinal then Some(Sum(eadResults, EclOf())) else old(totalEcl))
      ensures StageOf(progress, Pd) == StageOf(old(progress), Pd) && StageOf(progress, Lgd) == StageOf(old(progress), Lgd)
    {
      hide Sum;
      if status == Failed {
        return true;
      }
      MarkStageRunning(Ead, EadRunning);
      if output.None? {
        MarkRunFailed(Ead);
        return false;
      }
      eadResults := eadResults + output.value;
      ok := CompleteRun(fault);
      if !ok {
        MarkRunFailed(Ecl);
      }
    }

    /** The ECL stage after the insert: totals, the EAD completion mark and the final update, up to where it raises. */
    method CompleteRun(fault: CallbackFault) returns (ok: bool)
      modifies this`progress, this`status, this`totalEcl
      ensures ok <==> fault == NoFault
      ensures StageOf(progress, Ead) == (if fault == BeforeEadMark then StageOf(old(progress), Ead) else Done)
      ensures ok ==> status == Complete && StageOf(progress, Ecl) == Done
      ensures totalEcl == if ok || fault == AfterFinal then Some(Sum(eadResults, EclOf())) else old(totalEcl)
      ensures StageOf(progress, Pd) == StageOf(old(progress), Pd) && StageOf(progress, Lgd) == StageOf(old(progress), Lgd)
    {
      hide Sum;
      AtomicStageUpdate(Ecl, Running, None);
      var total := Sum(eadResults, EclOf());
      if fault == BeforeEadMark {
        return false;
      }
      MarkStageComplete(Ead);
      if fault == BeforeFinal {
        return false;
      }
      AtomicStageUpdate(Ecl, Done, Some(Complete));
      totalEcl := Some(total);
      return fault == NoFault;
    }

    /** run_compute_pipeline_async with the two header stages taken one after the other. */
    method RunPipeline(pdOut: Option<Table>, lgdOut: Option<Table>, eadOut: Option<Table>)
      requires status == Queued && progress == ALL_PENDING
      modifies this
      ensures status == Complete <==> pdOut.Some? && lgdOut.Some? && eadOut.Some?
      ensures status == Complete ==>
                && (forall stage: StageKey :: StageOf(progress, stage) == Done)
                && pdResults == pdOut.value && lgdResults == lgdOut.value && eadResults == old(eadResults) + eadOut.value
      ensures pdOut.None? || lgdOut.None? ==> eadResults == old(eadResults) && StageOf(progress, Ead) == Pending
    {
      hide Sum;
      var pdOk := StageMain(Pd, PdRunning, pdOut, false);
      var lgdOk := StageMain(Lgd, LgdRunning, lgdOut, false);
      if !pdOk || !lgdOk {
        return;
      }
      var done := EadEclMain(eadOut, NoFault);
      forall stage: StageKey ensures status == Complete ==> StageOf(progress, stage) == Done {
        assert stage == Pd || stage == Lgd || stage == Ead || stage == Ecl;
      }
    }

    /** execute_run: guards over the status and every upload, then the reset to queued. */
    method ExecuteRun(uploads: seq<Upload>) returns (outcome: Outcome)
      modifies this
      ensures outcome == AlreadyActive <==>
                old(status) == Queued || old(status) == PdRunning || old(status) == LgdRunning || old(status) == EadRunning
      ensures outcome == Dispatched <==> Dispatchable(old(status), uploads)
      ensures outcome == Dispatched <==>
                && (old(status) == Draft || old(status) == Failed)
                && (exists i :: 0 <= i < |uploads| && uploads[i].kind == PdFile)
                && (exists i :: 0 <= i < |uploads| && uploads[i].kind == LgdFile)
                && (exists i :: 0 <= i < |uploads| && uploads[i].kind == EadFile)
                && (forall i :: 0 <= i < |uploads| ==>
                      uploads[i].validation == Passed || (uploads[i].validation == Warned && uploads[i].warningsAccepted))
      ensures Value() == if outcome == Dispatched then Dispatch(old(Value())) else old(Value())
    {
      if Active(status) {
        return AlreadyActive;
      }
      if status != Draft && status != Failed {
        return Refused("RUN_NOT_EXECUTABLE");
      }
      if !HasKinds(uploads) {
        return Refused("MISSING_UPLOADS");
      }
      for i := 0 to |uploads|
        invariant forall k :: 0 <= k < i ==> Executable(uploads[k])
        invariant Value() == old(Value())
      {
        if uploads[i].validation != Passed && uploads[i].validation != Warned {
          return Refused("VALIDATION_REQUIRED");
        }
        if uploads[i].validation == Warned && !uploads[i].warningsAccepted {
          return Refused("WARNINGS_NOT_ACCEPTED");
        }
      }
      if status == Failed {
        pdResults, lgdResults, eadResults := [], [], [];
      }
      status, progress, failureStage, totalEcl := Queued, ALL_PENDING, None, None;
      return Dispatched;
    }

    /** revert_run_after_dispatch_failure: only a run still queued goes back to draft. */
    method RevertAfterDispatchFailure()
      modifies this`status, this`progress
      ensures Value() == Reverted(old(Value()))
    {
      if status != Queued {
        return;
      }
      status, progress := Draft, ALL_PENDING;
    }

    /**
     * The execute request: dispatch, and revert where the broker cannot be reached. An accepted run that could not be
     * sent is a draft that the same uploads dispatch again; a failed run has lost its results and its failure by then.
     */
    method RequestExecution(uploads: seq<Upload>, brokerUp: bool) returns (sent: bool)
      modifies this
      ensures sent <==> Dispatchable(old(status), uploads) && brokerUp
      ensures sent ==> Value() == Dispatch(old(Value()))
      ensures !sent && !Dispatchable(old(status), uploads) ==> Value() == old(Value())
      ensures !sent && Dispatchable(old(status), uploads) ==>
                && Dispatchable(status, uploads) && status == Draft && progress == ALL_PENDING
                && failureStage == None && totalEcl == None
                && (old(status) == Draft ==> eadResults == old(eadResults) && pdResults == old(pdResults) && lgdResults == old(lgdResults))
                && (old(status) == Failed ==> eadResults == pdResults == lgdResults == [])
    {
      var outcome := ExecuteRun(uploads);
      if outcome == Dispatched && !brokerUp {
        RevertAfterDispatchFailure();
      }
      sent := outcome == Dispatched && brokerUp;
    }

    /** recover_stuck_runs on this row: queued past 10 minutes or running past 45 minutes becomes failed. */
    method RecoverIfStuck(idleMinutes: int)
      modifies this`status, this`failureStage
      ensures Value() == Recovered(old(Value()), idleMinutes)
    {
      if status == Queued && idleMinutes > 10 {
        status, failureStage := Failed, Some("queued");
      } else if (status == PdRunning || status == LgdRunning || status == EadRunning) && idleMinutes > 45 {
        status, failureStage := Failed, Some("timeout");
      }
    }
  }
}
