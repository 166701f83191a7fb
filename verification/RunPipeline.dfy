/**
 * One dispatched run as a step machine: the PD and LGD tasks interleave freely, the EAD/ECL
 * callback is released once both have returned and may be redelivered, and recovery may tick
 * at any time. Every step is one transaction or one return of the source.
 */
module RunPipeline {
  import opened Wrappers
  import opened RealMath
  import opened RunRecord

  /** Where a PD or LGD task stands between its transactions (compute_tasks.py:400-531, 777-808). */
  datatype HeaderPc = Delivered | Ready | Computing | Inserted | Closing | Returned | Raising | Marked | Raised

  /** A header task and the last progress status it wrote. */
  datatype Header = Header(pc: HeaderPc, wrote: StageStatus)

  /** Where the EAD/ECL callback stands (compute_tasks.py:534-769). */
  datatype EadPc = Waiting | Released | Admitted | Reading | Holding | Stored | Totalling | Summed | EadDone | Finished
                 | Skipped | EadRaising | EadMarked | EadRaised

  /** The callback: what it last wrote, its active stage, the rows and total it holds, and how often it has inserted. */
  datatype Callback = Callback(pc: EadPc, wroteEad: StageStatus, wroteEcl: StageStatus, eclActive: bool,
                               output: Table, total: real, inserts: nat)

  datatype State = State(run: Run, pd: Header, lgd: Header, ead: Callback)

  /** The engines as deterministic functions of the run's frozen uploads. */
  datatype Engines = Engines(pdOut: Table, lgdOut: Table, ead: (Table, Table) -> Table)

  datatype HeaderStep = Check | Mark | Replace | Finish | Return | Raise | MarkError | GiveUp | Redo

  datatype EadStep = Release | Load | MarkEad | ReadTables | InsertRows | MarkEcl | SumTotals | MarkEadDone | MarkComplete
                   | RaiseEad | MarkStageError | MarkTaskError | GiveUpEad | Redeliver

  datatype Step = PdStep(h: HeaderStep) | LgdStep(h: HeaderStep) | EadStepOf(e: EadStep) | Tick(idleMinutes: int)

  function Copies(rows: Table, n: nat): Table { if n == 0 then [] else Copies(rows, n - 1) + rows }

  // ----- Header tasks -----

  /** A header task's next position; Redo is the worker lost and the unacknowledged task delivered again (celery_app.py:38-39). */
  function HeaderNext(pc: HeaderPc, complete: bool, h: HeaderStep): Option<HeaderPc> {
    match h
    case Check => if pc == Delivered then Some(if complete then Returned else Ready) else None
    case Mark => if pc == Ready then Some(Computing) else None
    case Replace => if pc == Computing then Some(Inserted) else None
    case Finish => if pc == Inserted then Some(Closing) else None
    case Return => if pc == Closing then Some(Returned) else None
    case Raise => if pc == Delivered || pc == Ready || pc == Computing || pc == Inserted || pc == Closing then Some(Raising) else None
    case MarkError => if pc == Raising then Some(Marked) else if pc == Marked then Some(Raised) else None
    case GiveUp => if pc == Raising || pc == Marked then Some(Raised) else None
    case Redo => if pc != Returned && pc != Raised then Some(Delivered) else None
  }

  /** The last status written once the step is taken. */
  function Wrote(task: Header, h: HeaderStep): StageStatus {
    match h case Mark => Running case Finish => Done case MarkError => Error case _ => task.wrote
  }

  function HeaderRun(run: Run, stage: StageKey, status: Status, h: HeaderStep, out: Table): Run {
    match h
    case Mark => WithRunning(run, stage, status)
    case Replace => WithResults(run, stage, out)
    case Finish => WithStage(run, stage, Done)
    case MarkError => WithFailure(run, stage)
    case _ => run
  }

  // ----- The callback -----

  /** Positions between marking the EAD stage running and the final update. */
  predicate Working(pc: EadPc) {
    pc == Reading || pc == Holding || pc == Stored || pc == Totalling || pc == Summed || pc == EadDone
  }

  /** Positions after this delivery's insert has been committed, up to the task's return. */
  predicate PastInsert(pc: EadPc) { pc == Stored || pc == Totalling || pc == Summed || pc == EadDone || pc == Finished }

  function EadNext(s: State, e: EadStep): Option<EadPc> {
    var pc := s.ead.pc;
    match e
    case Release => if pc == Waiting && s.pd.pc == Returned && s.lgd.pc == Returned then Some(Released) else None
    case Load => if pc == Released then Some(if s.run.status == Failed then Skipped else Admitted) else None
    case MarkEad => if pc == Admitted then Some(Reading) else None
    case ReadTables => if pc == Reading then Some(Holding) else None
    case InsertRows => if pc == Holding then Some(Stored) else None
    case MarkEcl => if pc == Stored then Some(Totalling) else None
    case SumTotals => if pc == Totalling then Some(Summed) else None
    case MarkEadDone => if pc == Summed then Some(EadDone) else None
    case MarkComplete => if pc == EadDone then Some(Finished) else None
    case RaiseEad => if pc == Released || pc == Admitted || Working(pc) || pc == Finished then Some(EadRaising) else None
    case MarkStageError => if pc == EadRaising then Some(EadMarked) else None
    case MarkTaskError => if pc == EadRaising || pc == EadMarked then Some(EadRaised) else None
    case GiveUpEad => if pc == EadRaising || pc == EadMarked then Some(EadRaised) else None
    case Redeliver =>
      if pc == Released || pc == Admitted || Working(pc) || pc == Finished || pc == EadRaising || pc == EadMarked
      then Some(Released) else None
  }

  function EadRun(s: State, e: EadStep): Run {
    match e
    case MarkEad => WithRunning(s.run, Ead, EadRunning)
    case InsertRows => s.run.(eadResults := s.run.eadResults + s.ead.output)
    case MarkEcl => WithStage(s.run, Ecl, Running)
    case MarkEadDone => WithStage(s.run, Ead, Done)
    case MarkComplete => WithStage(s.run, Ecl, Done).(status := Complete, totalEcl := Some(s.ead.total))
    case MarkStageError => WithFailure(s.run, if s.ead.eclActive then Ecl else Ead)
    case MarkTaskError => WithFailure(s.run, Ead)
    case _ => s.run
  }

  function EadAfter(s: State, e: EadStep, pc: EadPc, engines: Engines): Callback {
    var c := s.ead.(pc := pc);
    match e
    case MarkEad => c.(wroteEad := Running)
    case ReadTables => c.(output := engines.ead(s.run.pdResults, s.run.lgdResults))
    case InsertRows => c.(inserts := c.inserts + 1, eclActive := true)
    case MarkEcl => c.(wroteEcl := Running)
    case SumTotals => c.(total := Sum(s.run.eadResults, EclOf()))
    case MarkEadDone => c.(wroteEad := Done)
    case MarkComplete => c.(wroteEcl := Done)
    case MarkStageError => if c.eclActive then c.(wroteEcl := Error) else c.(wroteEad := Error)
    case MarkTaskError => c.(wroteEad := Error)
    case Redeliver => c.(eclActive := false)
    case _ => c
  }

  /** The state after a step, or None where the step is not enabled. */
  function Next(s: State, step: Step, engines: Engines): Option<State> {
    match step
    case PdStep(h) =>
      (match HeaderNext(s.pd.pc, StageOf(s.run.progress, Pd) == Done, h)
       case Some(pc) => Some(s.(run := HeaderRun(s.run, Pd, PdRunning, h, engines.pdOut), pd := Header(pc, Wrote(s.pd, h))))
       case None => None)
    case LgdStep(h) =>
      (match HeaderNext(s.lgd.pc, StageOf(s.run.progress, Lgd) == Done, h)
       case Some(pc) => Some(s.(run := HeaderRun(s.run, Lgd, LgdRunning, h, engines.lgdOut), lgd := Header(pc, Wrote(s.lgd, h))))
       case None => None)
    case EadStepOf(e) =>
      (match EadNext(s, e)
       case Some(pc) => Some(s.(run := EadRun(s, e), ead := EadAfter(s, e, pc, engines)))
       case None => None)
    case Tick(idle) => Some(s.(run := Recovered(s.run, idle)))
  }

  /** A just-dispatched run: queued, nothing computed, all three tasks at their start. */
  predicate Start(s: State) {
    && s.run.status == Queued && s.run.progress == ALL_PENDING && s.run.eadResults == []
    && s.pd == Header(Delivered, Pending) && s.lgd == Header(Delivered, Pending)
    && s.ead == Callback(Waiting, Pending, Pending, false, [], 0.0, 0)
  }

  /** execute_run leaves a start state: of a failed run always, of a draft where no EAD rows are stored. */
  lemma DispatchStarts(run: Run)
    requires run.status == Failed || (run.status == Draft && run.eadResults == [])
    ensures Start(State(Dispatch(run), Header(Delivered, Pending), Header(Delivered, Pending),
                        Callback(Waiting, Pending, Pending, false, [], 0.0, 0)))
  {}

  /** A table's Total ECL is the sum of its rows' Discounted ECL. */
  lemma TotalMeans(row: ResultRow, rows: Table)
    ensures Sum([row] + rows, EclOf()) == row.ecl + Sum(rows, EclOf())
  {
    SumCons(row, rows, EclOf());
  }

  /** The state a sequence of enabled steps leads to. */
  function Execute(s: State, steps: seq<Step>, engines: Engines): Option<State> {
    if steps == [] then Some(s)
    else match Execute(s, steps[..|steps| - 1], engines)
      case Some(t) => Next(t, steps[|steps| - 1], engines)
      case None => None
  }

  // ----- The invariant -----

  /** What the position of a header stage says about what it wrote and stored. */
  predicate HeaderSound(task: Header, table: Table, out: Table) {
    && (task.wrote == Done ==> table == out)
    && (task.pc == Ready ==> task.wrote != Done)
    && (task.pc == Computing || task.pc == Inserted ==> task.wrote == Running)
    && (task.pc == Closing || task.pc == Returned ==> task.wrote == Done)
    && (task.pc == Inserted || task.pc == Closing || task.pc == Returned ==> table == out)
  }

  /** No update is lost: each progress entry is the last status its own task wrote. */
  predicate EntriesKept(s: State) {
    && StageOf(s.run.progress, Pd) == s.pd.wrote && StageOf(s.run.progress, Lgd) == s.lgd.wrote
    && StageOf(s.run.progress, Ead) == s.ead.wroteEad && StageOf(s.run.progress, Ecl) == s.ead.wroteEcl
  }

  /** What the callback's position says about its own writes. */
  predicate CallbackSound(c: Callback) {
    && (c.pc == Waiting ==> c.inserts == 0)
    && (PastInsert(c.pc) ==> c.eclActive && c.inserts >= 1)
    && (c.pc == Waiting || c.pc == Released || c.pc == Admitted || c.pc == Reading || c.pc == Holding || c.pc == Skipped
        ==> !c.eclActive)
    && (c.pc == Totalling || c.pc == Summed || c.pc == EadDone ==> c.wroteEcl == Running)
    && (c.pc == EadDone || c.pc == Finished ==> c.wroteEad == Done)
    && (c.pc == Finished ==> c.wroteEcl == Done)
  }

  predicate CompleteSound(s: State) {
    && (s.run.status == Complete ==>
          s.ead.wroteEad == Done && s.ead.wroteEcl == Done && s.ead.inserts >= 1
          && s.ead.pc != Waiting && !Working(s.ead.pc)
          && s.run.totalEcl == Some(Sum(s.run.eadResults, EclOf())))
    && (s.ead.pc == Finished ==> s.run.status == Complete)
    && (s.ead.pc == Summed || s.ead.pc == EadDone ==> s.ead.total == Sum(s.run.eadResults, EclOf()))
    && s.run.status != Draft
  }

  /** The chord: the callback exists only once both header tasks have returned. */
  predicate BothReturned(s: State) { s.ead.pc != Waiting ==> s.pd.pc == Returned && s.lgd.pc == Returned }

  /** The rows in the EAD table: one copy of the engine's output per insert. */
  predicate RowsSound(s: State, engines: Engines) {
    && s.run.eadResults == Copies(engines.ead(engines.pdOut, engines.lgdOut), s.ead.inserts)
    && (s.ead.pc == Holding ==> s.ead.output == engines.ead(engines.pdOut, engines.lgdOut))
  }

  predicate Inv(s: State, engines: Engines) {
    && HeaderSound(s.pd, s.run.pdResults, engines.pdOut)
    && HeaderSound(s.lgd, s.run.lgdResults, engines.lgdOut)
    && EntriesKept(s) && CallbackSound(s.ead) && CompleteSound(s) && BothReturned(s) && RowsSound(s, engines)
  }

  lemma StartInv(s: State, engines: Engines)
    requires Start(s)
    ensures Inv(s, engines)
  {}

  lemma PdStepInv(s: State, h: HeaderStep, engines: Engines, t: State)
    requires Inv(s, engines) && Next(s, PdStep(h), engines) == Some(t)
    ensures Inv(t, engines)
  {
    hide Copies, Sum, CallbackSound;
  }

  lemma LgdStepInv(s: State, h: HeaderStep, engines: Engines, t: State)
    requires Inv(s, engines) && Next(s, LgdStep(h), engines) == Some(t)
    ensures Inv(t, engines)
  {
    hide Copies, Sum, CallbackSound;
  }

  lemma TickInv(s: State, idle: int, engines: Engines, t: State)
    requires Inv(s, engines) && Next(s, Tick(idle), engines) == Some(t)
    ensures Inv(t, engines)
  {
    hide Copies, Sum;
  }

  lemma EadKeepsEntries(s: State, e: EadStep, engines: Engines, t: State)
    requires Inv(s, engines) && Next(s, EadStepOf(e), engines) == Some(t)
    ensures t.pd == s.pd && t.lgd == s.lgd && t.run.pdResults == s.run.pdResults && t.run.lgdResults == s.run.lgdResults
    ensures EntriesKept(t)
  {
    hide Copies, Sum, CallbackSound, CompleteSound, RowsSound, HeaderSound;
  }

  lemma EadKeepsCallback(s: State, e: EadStep, engines: Engines, t: State)
    requires Inv(s, engines) && Next(s, EadStepOf(e), engines) == Some(t)
    ensures CallbackSound(t.ead) && CompleteSound(t)
  {
    hide Copies, Sum, EntriesKept, RowsSound, HeaderSound;
  }

  lemma EadKeepsRows(s: State, e: EadStep, engines: Engines, t: State)
    requires Inv(s, engines) && Next(s, EadStepOf(e), engines) == Some(t)
    ensures RowsSound(t, engines) && BothReturned(t)
  {
    hide Sum, Copies, EntriesKept, CallbackSound, CompleteSound;
    CopiesStep(engines.ead(engines.pdOut, engines.lgdOut), s.ead.inserts);
  }

  lemma CopiesStep(rows: Table, n: nat)
    ensures Copies(rows, n + 1) == Copies(rows, n) + rows
  {}

  lemma StepInv(s: State, step: Step, engines: Engines, t: State)
    requires Inv(s, engines) && Next(s, step, engines) == Some(t)
    ensures Inv(t, engines)
  {
    hide Next, EntriesKept, CallbackSound, CompleteSound, RowsSound, HeaderSound;
    match step
    case PdStep(h) => PdStepInv(s, h, engines, t);
    case LgdStep(h) => LgdStepInv(s, h, engines, t);
    case Tick(idle) => TickInv(s, idle, engines, t);
    case EadStepOf(e) =>
      EadKeepsEntries(s, e, engines, t);
      EadKeepsCallback(s, e, engines, t);
      EadKeepsRows(s, e, engines, t);
  }

  /** Every state of every interleaving satisfies the invariant. */
  lemma {:induction false} EveryStateSound(s: State, steps: seq<Step>, engines: Engines)
    requires Start(s) && Execute(s, steps, engines).Some?
    ensures Inv(Execute(s, steps, engines).value, engines)
  {
    hide Inv, Next, Start;
    if steps == [] {
      StartInv(s, engines);
    } else {
      EveryStateSound(s, steps[..|steps| - 1], engines);
      StepInv(Execute(s, steps[..|steps| - 1], engines).value, steps[|steps| - 1], engines, Execute(s, steps, engines).value);
    }
  }

  // ----- What the invariant promises -----

  /**
   * Pipeline safety, in every interleaving: the callback runs only over both committed result sets,
   * no progress entry is lost, a failed header task rules out complete, and a complete run has all four entries complete.
   */
  lemma PipelineSafe(s: State, steps: seq<Step>, engines: Engines)
    requires Start(s) && Execute(s, steps, engines).Some?
    ensures var t := Execute(s, steps, engines).value;
            && (t.ead.pc != Waiting ==> t.run.pdResults == engines.pdOut && t.run.lgdResults == engines.lgdOut)
            && EntriesKept(t)
            && (t.pd.pc == Raised || t.lgd.pc == Raised ==> t.run.status != Complete && t.run.eadResults == [])
            && (t.run.status == Complete ==> forall stage: StageKey :: StageOf(t.run.progress, stage) == Done)
  {
    hide Execute, Sum;
    EveryStateSound(s, steps, engines);
    var t := Execute(s, steps, engines).value;
    assert Copies(engines.ead(engines.pdOut, engines.lgdOut), 0) == [];
    forall stage: StageKey ensures t.run.status == Complete ==> StageOf(t.run.progress, stage) == Done {
      assert stage == Pd || stage == Lgd || stage == Ead || stage == Ecl;
    }
  }

  /** How often the callback was redelivered after the insert of the delivery before it. */
  function LateRedeliveries(s: State, steps: seq<Step>, engines: Engines): nat {
    if steps == [] then 0
    else
      var front := steps[..|steps| - 1];
      LateRedeliveries(s, front, engines)
      + if steps[|steps| - 1] == EadStepOf(Redeliver) && Execute(s, front, engines).Some?
           && Execute(s, front, engines).value.ead.eclActive then 1 else 0
  }

  function ActiveInsert(c: Callback): nat { if c.eclActive then 1 else 0 }

  lemma InsertsStep(s: State, step: Step, engines: Engines, t: State)
    requires Inv(s, engines) && Next(s, step, engines) == Some(t)
    ensures t.ead.inserts + ActiveInsert(s.ead)
         == s.ead.inserts + ActiveInsert(t.ead) + if step == EadStepOf(Redeliver) && s.ead.eclActive then 1 else 0
  {
    hide Sum, Copies, EntriesKept, HeaderSound, CompleteSound, RowsSound;
  }

  /** Every insert but the current delivery's own was followed by a late redelivery. */
  lemma {:induction false} InsertsCounted(s: State, steps: seq<Step>, engines: Engines)
    requires Start(s) && Execute(s, steps, engines).Some?
    ensures var c := Execute(s, steps, engines).value.ead;
            c.inserts == LateRedeliveries(s, steps, engines) + ActiveInsert(c)
  {
    hide Next, Inv;
    if steps != [] {
      var front := steps[..|steps| - 1];
      InsertsCounted(s, front, engines);
      EveryStateSound(s, front, engines);
      InsertsStep(Execute(s, front, engines).value, steps[|steps| - 1], engines, Execute(s, steps, engines).value);
    }
  }

  lemma {:induction false} TotalOfCopies(rows: Table, n: nat)
    ensures Sum(Copies(rows, n), EclOf()) == n as real * Sum(rows, EclOf())
    ensures |Copies(rows, n)| == n * |rows|
  {
    if n != 0 {
      TotalOfCopies(rows, n - 1);
      SumAppend(Copies(rows, n - 1), rows, EclOf());
    }
  }

  /**
   * Exactly once, exactly when: a callback that finishes leaves one copy of its rows and of the Total ECL for itself
   * and one for every late redelivery, so the table and the total are right iff no redelivery came after an insert.
   */
  lemma ExactlyOnce(s: State, steps: seq<Step>, engines: Engines)
    requires Start(s) && Execute(s, steps, engines).Some? && Execute(s, steps, engines).value.ead.pc == Finished
    ensures var t := Execute(s, steps, engines).value;
            var out := engines.ead(engines.pdOut, engines.lgdOut);
            var late := LateRedeliveries(s, steps, engines);
            && t.run.status == Complete
            && t.run.eadResults == Copies(out, 1 + late)
            && t.run.totalEcl.Some? && t.run.totalEcl.value == (1 + late) as real * Sum(out, EclOf())
            && (out != [] ==> (t.run.eadResults == out <==> late == 0))
            && (Sum(out, EclOf()) != 0.0 ==> (t.run.totalEcl.value == Sum(out, EclOf()) <==> late == 0))
  {
    hide Execute, Sum, LateRedeliveries, Copies;
    EveryStateSound(s, steps, engines);
    InsertsCounted(s, steps, engines);
    var t := Execute(s, steps, engines).value;
    var out := engines.ead(engines.pdOut, engines.lgdOut);
    var late := LateRedeliveries(s, steps, engines);
    TotalOfCopies(out, 1 + late);
    OneCopyOnly(out, late, Sum(out, EclOf()));
  }

  lemma OneCopyOnly(rows: Table, late: nat, total: real)
    ensures late == 0 ==> Copies(rows, 1 + late) == rows && (1 + late) as real * total == total
    ensures late != 0 && rows != [] ==> Copies(rows, 1 + late) != rows
    ensures late != 0 && total != 0.0 ==> (1 + late) as real * total != total
  {
    TotalOfCopies(rows, 1 + late);
    assert Copies(rows, 1) == Copies(rows, 0) + rows == rows;
    if late != 0 {
      assert (1 + late) * |rows| == |rows| + late * |rows|;
      assert (1 + late) as real * total == total + late as real * total;
    }
  }

  // ----- When a failed run stays failed -----

  /** A run so far and where it has led. */
  datatype Trace = Trace(steps: seq<Step>, at: State)

  ghost predicate Reaches(s: State, trace: Trace, engines: Engines) { Execute(s, trace.steps, engines) == Some(trace.at) }

  /** Appends a step that is enabled at the end of the trace. */
  lemma Take(s: State, trace: Trace, step: Step, engines: Engines) returns (next: Trace)
    requires Reaches(s, trace, engines) && Next(trace.at, step, engines).Some?
    ensures Reaches(s, next, engines) && next.at == Next(trace.at, step, engines).value
  {
    hide Next;
    next := Trace(trace.steps + [step], Next(trace.at, step, engines).value);
    assert next.steps[..|trace.steps|] == trace.steps;
  }

  /** From here on no step can take the run out of `failed`. */
  ghost predicate StaysFailed(s: State, engines: Engines) {
    forall steps: seq<Step> :: Execute(s, steps, engines).Some? ==> Execute(s, steps, engines).value.run.status == Failed
  }

  predicate Acknowledged(task: Header) { task.pc == Returned || task.pc == Raised }

  /** Both header tasks are acknowledged, and the callback is not past its check of the status. */
  predicate Settled(s: State) {
    Acknowledged(s.pd) && Acknowledged(s.lgd) && s.ead.pc != Admitted && !Working(s.ead.pc)
  }

  lemma SettledStep(s: State, step: Step, engines: Engines, t: State)
    requires s.run.status == Failed && Settled(s) && Next(s, step, engines) == Some(t)
    ensures t.run.status == Failed && Settled(t)
  {
    hide Sum;
  }

  lemma {:induction false} SettledRun(s: State, steps: seq<Step>, engines: Engines)
    requires s.run.status == Failed && Settled(s) && Execute(s, steps, engines).Some?
    ensures Execute(s, steps, engines).value.run.status == Failed && Settled(Execute(s, steps, engines).value)
  {
    hide Next, Settled;
    if steps != [] {
      SettledRun(s, steps[..|steps| - 1], engines);
      SettledStep(Execute(s, steps[..|steps| - 1], engines).value, steps[|steps| - 1], engines, Execute(s, steps, engines).value);
    }
  }

  function HeaderOf(s: State, pd: bool): Header { if pd then s.pd else s.lgd }

  function StepOf(pd: bool, h: HeaderStep): Step { if pd then PdStep(h) else LgdStep(h) }

  /** A delivered header task with a complete entry can fail before its check and be delivered again. */
  lemma EntryReopens(s: State, before: Trace, engines: Engines, pd: bool) returns (trace: Trace)
    requires Reaches(s, before, engines) && EntriesKept(before.at) && HeaderOf(before.at, pd).pc == Delivered
    ensures Reaches(s, trace, engines) && EntriesKept(trace.at)
    ensures HeaderOf(trace.at, pd).pc == Delivered && HeaderOf(trace.at, pd).wrote == Error
  {
    hide Execute, Sum, Reaches;
    trace := Take(s, before, StepOf(pd, Raise), engines);
    trace := Take(s, trace, StepOf(pd, MarkError), engines);
    trace := Take(s, trace, StepOf(pd, Redo), engines);
  }

  /** An unacknowledged header task can be delivered again with its entry not complete. */
  lemma Reopens(s: State, engines: Engines, pd: bool) returns (trace: Trace)
    requires EntriesKept(s) && !Acknowledged(HeaderOf(s, pd))
    ensures Reaches(s, trace, engines) && EntriesKept(trace.at)
    ensures HeaderOf(trace.at, pd).pc == Delivered && HeaderOf(trace.at, pd).wrote != Done
  {
    trace := Trace([], s);
    ExecuteNothing(s, engines);
    assert Reaches(s, trace, engines);
    hide Execute, Sum, Reaches;
    trace := Take(s, trace, StepOf(pd, Redo), engines);
    if HeaderOf(s, pd).wrote == Done {
      trace := EntryReopens(s, trace, engines, pd);
    }
  }

  /** An unacknowledged header task takes the status with it, wherever it stands. */
  lemma HeaderEscapes(s: State, engines: Engines, pd: bool) returns (trace: Trace)
    requires EntriesKept(s) && !Acknowledged(HeaderOf(s, pd))
    ensures Reaches(s, trace, engines) && trace.at.run.status != Failed
  {
    hide Execute, Sum, Reaches;
    trace := Reopens(s, engines, pd);
    trace := Take(s, trace, StepOf(pd, Check), engines);
    trace := Take(s, trace, StepOf(pd, Mark), engines);
  }

  /** The step that takes a working callback on, and how many are left. */
  function WorkStep(pc: EadPc): (EadStep, nat) {
    match pc
    case Admitted => (MarkEad, 7)
    case Reading => (ReadTables, 6)
    case Holding => (InsertRows, 5)
    case Stored => (MarkEcl, 4)
    case Totalling => (SumTotals, 3)
    case Summed => (MarkEadDone, 2)
    case _ => (MarkComplete, 1)
  }

  lemma WorkGoesOn(s: State, engines: Engines, t: State)
    requires s.ead.pc == Admitted || Working(s.ead.pc)
    requires Next(s, EadStepOf(WorkStep(s.ead.pc).0), engines) == Some(t)
    ensures s.ead.pc == EadDone ==> t.run.status == Complete
    ensures s.ead.pc != EadDone ==> Working(t.ead.pc) && WorkStep(t.ead.pc).1 < WorkStep(s.ead.pc).1
    ensures StageOf(t.run.progress, Pd) == StageOf(s.run.progress, Pd) && StageOf(t.run.progress, Lgd) == StageOf(s.run.progress, Lgd)
  {
    hide Sum;
  }

  /** A callback past its check of the status completes the run. */
  lemma CallbackEscapes(s: State, before: Trace, engines: Engines) returns (trace: Trace)
    requires Reaches(s, before, engines) && (before.at.ead.pc == Admitted || Working(before.at.ead.pc))
    ensures Reaches(s, trace, engines) && trace.at.run.status == Complete
    decreases WorkStep(before.at.ead.pc).1
  {
    hide Execute, Sum, Reaches, EadRun, EadAfter;
    trace := Take(s, before, EadStepOf(WorkStep(before.at.ead.pc).0), engines);
    WorkGoesOn(before.at, engines, trace.at);
    if before.at.ead.pc != EadDone {
      trace := CallbackEscapes(s, trace, engines);
    }
  }

  /**
   * Within its dispatch a failed run stays failed exactly when both header tasks are acknowledged and the callback is not
   * past its check: a header task that is lost and delivered again marks itself running, wherever it stood.
   */
  lemma FailedStaysExactly(s: State, engines: Engines)
    requires Inv(s, engines) && s.run.status == Failed
    ensures StaysFailed(s, engines) <==> Settled(s)
  {
    hide Execute, Sum, Copies, HeaderSound, CallbackSound, CompleteSound, RowsSound, BothReturned, EntriesKept;
    if Settled(s) {
      forall steps: seq<Step> | Execute(s, steps, engines).Some? ensures Execute(s, steps, engines).value.run.status == Failed {
        SettledRun(s, steps, engines);
      }
    } else if s.ead.pc == Admitted || Working(s.ead.pc) {
      ExecuteNothing(s, engines);
      var trace := CallbackEscapes(s, Trace([], s), engines);
      assert Execute(s, trace.steps, engines).value.run.status != Failed;
    } else {
      var trace := HeaderEscapes(s, engines, !Acknowledged(s.pd));
      assert Execute(s, trace.steps, engines).value.run.status != Failed;
    }
  }

  /**
   * A late recovery tick fails any run that is not complete, keeps its progress and tables, and leaves it ready to be
   * dispatched again; the failure is final exactly when every task was settled.
   */
  lemma RecoveryFails(s: State, steps: seq<Step>, engines: Engines, idle: int, uploads: seq<Upload>)
    requires Start(s) && Execute(s, steps, engines).Some? && idle > 45
    requires Execute(s, steps, engines).value.run.status != Complete
    ensures var t := Execute(s, steps, engines).value;
            var u := t.(run := Recovered(t.run, idle));
            && Next(t, Tick(idle), engines) == Some(u)
            && u.run == t.run.(status := Failed, failureStage := u.run.failureStage)
            && (StaysFailed(u, engines) <==> Settled(t))
            && (Dispatchable(u.run.status, uploads) <==> HasKinds(uploads) && forall i :: 0 <= i < |uploads| ==> Executable(uploads[i]))
  {
    hide Execute, Sum, Copies, StaysFailed, HasKinds, Executable;
    EveryStateSound(s, steps, engines);
    var t := Execute(s, steps, engines).value;
    var u := t.(run := Recovered(t.run, idle));
    TickInv(t, idle, engines, u);
    FailedStaysExactly(u, engines);
  }

  // ----- Two runs that show what does not hold -----

  lemma LgdReturns(s: State, trace: Trace, engines: Engines) returns (next: Trace)
    requires Reaches(s, trace, engines) && trace.at.lgd == Header(Delivered, Pending)
    requires StageOf(trace.at.run.progress, Lgd) == Pending
    ensures Reaches(s, next, engines)
    ensures next.at.lgd == Header(Returned, Done) && next.at.pd == trace.at.pd && next.at.ead == trace.at.ead
    ensures next.at.run.status == LgdRunning
  {
    hide Execute;
    next := Take(s, trace, LgdStep(Check), engines);
    next := Take(s, next, LgdStep(Mark), engines);
    next := Take(s, next, LgdStep(Replace), engines);
    next := Take(s, next, LgdStep(Finish), engines);
    next := Take(s, next, LgdStep(Return), engines);
  }

  lemma PdReturns(s: State, trace: Trace, engines: Engines) returns (next: Trace)
    requires Reaches(s, trace, engines) && trace.at.pd == Header(Delivered, Pending)
    requires StageOf(trace.at.run.progress, Pd) == Pending
    ensures Reaches(s, next, engines)
    ensures next.at.pd == Header(Returned, Done) && next.at.lgd == trace.at.lgd && next.at.ead == trace.at.ead
    ensures StageOf(next.at.run.progress, Lgd) == StageOf(trace.at.run.progress, Lgd)
  {
    hide Execute;
    next := Take(s, trace, PdStep(Check), engines);
    next := Take(s, next, PdStep(Mark), engines);
    next := Take(s, next, PdStep(Replace), engines);
    next := Take(s, next, PdStep(Finish), engines);
    next := Take(s, next, PdStep(Return), engines);
  }

  lemma PdMarks(s: State, engines: Engines) returns (next: Trace)
    requires Start(s)
    ensures Reaches(s, next, engines)
    ensures next.at == s.(run := WithRunning(s.run, Pd, PdRunning), pd := Header(Computing, Running))
  {
    next := Trace([], s);
    ExecuteNothing(s, engines);
    hide Execute;
    next := Take(s, next, PdStep(Check), engines);
    next := Take(s, next, PdStep(Mark), engines);
  }

  lemma PdFails(s: State, engines: Engines) returns (next: Trace)
    requires Start(s)
    ensures Reaches(s, next, engines)
    ensures next.at.pd == Header(Raised, Error) && next.at.lgd == s.lgd && next.at.ead == s.ead
    ensures StageOf(next.at.run.progress, Lgd) == Pending && next.at.run.status == Failed
  {
    hide Execute, Reaches;
    next := PdMarks(s, engines);
    next := Take(s, next, PdStep(Raise), engines);
    next := Take(s, next, PdStep(MarkError), engines);
    next := Take(s, next, PdStep(GiveUp), engines);
  }

  /** `failed` is not sticky: PD fails, LGD then marks itself running and returns, and only recovery can move the run on. */
  lemma FailureOverwritten(s: State, engines: Engines) returns (trace: Trace)
    requires Start(s)
    ensures Reaches(s, trace, engines)
    ensures trace.at.pd.pc == Raised && trace.at.lgd.pc == Returned && trace.at.run.status == LgdRunning
    ensures forall step: Step :: !step.Tick? ==> Next(trace.at, step, engines).None?
  {
    hide Execute, Reaches;
    trace := PdFails(s, engines);
    trace := LgdReturns(s, trace, engines);
  }

  lemma InsertOnce(s: State, trace: Trace, engines: Engines) returns (next: Trace)
    requires Reaches(s, trace, engines) && trace.at.ead.pc == Released && trace.at.run.status != Failed
    ensures Reaches(s, next, engines)
    ensures next.at.ead.pc == Stored && next.at.ead.inserts == trace.at.ead.inserts + 1 && next.at.run.status == EadRunning
  {
    hide Execute, Sum;
    next := Take(s, trace, EadStepOf(Load), engines);
    next := Take(s, next, EadStepOf(MarkEad), engines);
    next := Take(s, next, EadStepOf(ReadTables), engines);
    next := Take(s, next, EadStepOf(InsertRows), engines);
  }

  lemma Completes(s: State, trace: Trace, engines: Engines) returns (next: Trace)
    requires Reaches(s, trace, engines) && trace.at.ead.pc == Stored
    ensures Reaches(s, next, engines)
    ensures next.at.ead.pc == Finished && next.at.ead.inserts == trace.at.ead.inserts
  {
    hide Execute, Sum;
    next := Take(s, trace, EadStepOf(MarkEcl), engines);
    next := Take(s, next, EadStepOf(SumTotals), engines);
    next := Take(s, next, EadStepOf(MarkEadDone), engines);
    next := Take(s, next, EadStepOf(MarkComplete), engines);
  }

  /** Both header tasks return and the callback is released. */
  lemma Releases(s: State, engines: Engines) returns (next: Trace)
    requires Start(s)
    ensures Reaches(s, next, engines)
    ensures next.at.ead.pc == Released && next.at.ead.inserts == 0 && next.at.run.status == LgdRunning
  {
    next := Trace([], s);
    ExecuteNothing(s, engines);
    hide Execute;
    next := PdReturns(s, next, engines);
    next := LgdReturns(s, next, engines);
    next := Take(s, next, EadStepOf(Release), engines);
  }

  /** A callback redelivered after its insert leaves every EAD row and the Total ECL doubled in a complete run. */
  lemma RedeliveryDoubles(s: State, engines: Engines) returns (trace: Trace)
    requires Start(s)
    ensures Reaches(s, trace, engines) && trace.at.run.status == Complete
    ensures var out := engines.ead(engines.pdOut, engines.lgdOut);
            && trace.at.run.eadResults == out + out
            && trace.at.run.totalEcl.Some? && trace.at.run.totalEcl.value == 2.0 * Sum(out, EclOf())
  {
    hide Sum, Copies, Execute, Start;
    trace := Releases(s, engines);
    trace := InsertOnce(s, trace, engines);
    trace := Take(s, trace, EadStepOf(Redeliver), engines);
    trace := InsertOnce(s, trace, engines);
    trace := Completes(s, trace, engines);
    InsertsCounted(s, trace.steps, engines);
    EveryStateSound(s, trace.steps, engines);
    ExactlyOnce(s, trace.steps, engines);
    TwoCopies(engines.ead(engines.pdOut, engines.lgdOut));
  }

  lemma ExecuteNothing(s: State, engines: Engines)
    ensures Execute(s, [], engines) == Some(s)
  {}

  lemma TwoCopies(rows: Table)
    ensures Copies(rows, 2) == rows + rows
  {
    assert Copies(rows, 1) == Copies(rows, 0) + rows == rows;
  }
}
