/**
 * One header stage (PD or LGD) under crashes and redeliveries: any number of instances of the
 * task run at once, each losing its place at any point, the inputs may be replaced, and the run
 * may be dispatched again.
 */
module Redelivery {
  import opened Wrappers
  import opened RunRecord
  import opened RunPipeline

  /** One live instance: where it stands, and the output of the inputs it has read. */
  datatype Instance = Instance(pc: HeaderPc, read: Option<Table>)

  /** The stage's progress entry, its result table, the engine's output on the inputs in force, and the live instances. */
  datatype StageState = StageState(entry: StageStatus, table: Table, inputs: Table, tasks: map<nat, Instance>)

  datatype StageStep = Deliver(id: nat) | Crash(id: nat) | ReadInputs(id: nat) | Act(id: nat, h: HeaderStep)
                     | ChangeInputs(inputs: Table) | Redispatch(wasFailed: bool)

  function NewStage(inputs: Table): StageState { StageState(Pending, [], inputs, map[]) }

  /** A step of one live instance: its own position, entry and table writes (compute_tasks.py:400-531). */
  function ActNext(s: StageState, id: nat, h: HeaderStep): Option<StageState>
    requires id in s.tasks
  {
    var task := s.tasks[id];
    match HeaderNext(task.pc, s.entry == Done, h)
    case None => None
    case Some(pc) =>
      var t := s.(tasks := s.tasks[id := task.(pc := pc)]);
      (match h
       case Mark => Some(t.(entry := Running, tasks := s.tasks[id := Instance(pc, None)]))
       case Replace => if task.read.Some? then Some(t.(table := task.read.value)) else None
       case Finish => Some(t.(entry := Done))
       case MarkError => Some(t.(entry := Error))
       case _ => Some(t))
  }

  /**
   * Redelivery adds an instance, a crash removes one, a computing instance reads the inputs in force, and
   * execute_run resets the entry and clears a failed run's table.
   */
  function StageNext(s: StageState, step: StageStep): Option<StageState> {
    match step
    case Deliver(id) => if id in s.tasks then None else Some(s.(tasks := s.tasks[id := Instance(Delivered, None)]))
    case Crash(id) => if id in s.tasks then Some(s.(tasks := s.tasks - {id})) else None
    case ReadInputs(id) =>
      if id in s.tasks && s.tasks[id] == Instance(Computing, None)
      then Some(s.(tasks := s.tasks[id := Instance(Computing, Some(s.inputs))])) else None
    case Act(id, h) => if id in s.tasks then ActNext(s, id, h) else None
    case ChangeInputs(inputs) => Some(s.(inputs := inputs))
    case Redispatch(wasFailed) => Some(s.(entry := Pending, table := if wasFailed then [] else s.table))
  }

  function Play(s: StageState, steps: seq<StageStep>): Option<StageState> {
    if steps == [] then Some(s)
    else match Play(s, steps[..|steps| - 1])
      case Some(t) => StageNext(t, steps[|steps| - 1])
      case None => None
  }

  // ----- Nothing or one copy, in every run -----

  /** An instance between its replace transaction and its completion mark. */
  predicate Between(s: StageState) { exists id :: id in s.tasks && s.tasks[id].pc == Inserted }

  /** The table is empty or one whole output, never empty under a complete entry or between an insert and its mark. */
  predicate StageInv(s: StageState, versions: set<Table>) {
    && s.inputs in versions
    && (s.table == [] || s.table in versions)
    && (s.entry == Done || Between(s) ==> s.table in versions)
    && (forall id :: id in s.tasks && s.tasks[id].pc == Computing && s.tasks[id].read.Some? ==> s.tasks[id].read.value in versions)
  }

  /** New inputs are among the versions, and a failed run is dispatched again with no instance between insert and mark. */
  predicate SafeStep(s: StageState, step: StageStep, versions: set<Table>) {
    && (step.ChangeInputs? ==> step.inputs in versions)
    && (step.Redispatch? && step.wasFailed ==> !Between(s))
  }

  lemma StageStepInv(s: StageState, step: StageStep, versions: set<Table>, t: StageState)
    requires StageInv(s, versions) && SafeStep(s, step, versions) && StageNext(s, step) == Some(t)
    ensures StageInv(t, versions)
  {
    if step.Act? && s.tasks[step.id].pc == Inserted {
      assert Between(s);
    }
    if id :| id in t.tasks && t.tasks[id].pc == Inserted {
      assert (step.Act? && step.id == id) || (id in s.tasks && s.tasks[id].pc == Inserted);
    }
  }

  /** Every step of the run is safe where it is taken. */
  predicate SafeRun(s: StageState, steps: seq<StageStep>, versions: set<Table>) {
    steps == [] ||
    (SafeRun(s, steps[..|steps| - 1], versions)
     && (Play(s, steps[..|steps| - 1]).Some? ==>
           SafeStep(Play(s, steps[..|steps| - 1]).value, steps[|steps| - 1], versions)))
  }

  /**
   * Redelivery is idempotent: under any number of crashes and redeliveries, in any interleaving and while the inputs
   * change, the table holds nothing or exactly one copy of the output of one version of the inputs, and never nothing
   * once the entry is complete.
   */
  lemma {:induction false} RedeliveryIdempotent(s: StageState, steps: seq<StageStep>, versions: set<Table>)
    requires StageInv(s, versions) && SafeRun(s, steps, versions) && Play(s, steps).Some?
    ensures StageInv(Play(s, steps).value, versions)
  {
    hide StageInv, StageNext, SafeStep;
    if steps != [] {
      var front := steps[..|steps| - 1];
      RedeliveryIdempotent(s, front, versions);
      StageStepInv(Play(s, front).value, steps[|steps| - 1], versions, Play(s, steps).value);
    }
  }

  /** Only task instances move: no new inputs and no new dispatch. */
  predicate TasksOnly(steps: seq<StageStep>) {
    forall i :: 0 <= i < |steps| ==> !steps[i].Redispatch? && !steps[i].ChangeInputs?
  }

  lemma {:induction false} TasksAreSafe(s: StageState, steps: seq<StageStep>, versions: set<Table>)
    requires TasksOnly(steps)
    ensures SafeRun(s, steps, versions)
  {
    hide Play;
    if steps != [] {
      TasksAreSafe(s, steps[..|steps| - 1], versions);
    }
  }

  /** Never a second copy, never another table, and never an empty one under a complete entry. */
  predicate OneCopy(s: StageState, out: Table) {
    (s.table == [] || s.table == out) && (s.entry == Done ==> s.table == out)
  }

  lemma SingleDispatchOneCopy(inputs: Table, steps: seq<StageStep>)
    requires TasksOnly(steps) && Play(NewStage(inputs), steps).Some?
    ensures OneCopy(Play(NewStage(inputs), steps).value, inputs)
  {
    hide Play, SafeRun;
    TasksAreSafe(NewStage(inputs), steps, {inputs});
    RedeliveryIdempotent(NewStage(inputs), steps, {inputs});
  }

  // ----- A second dispatch -----

  /** Every run of tasks alone, from here on, keeps one copy of the output of the inputs now in force. */
  ghost predicate StaysCurrent(s: StageState) {
    forall steps: seq<StageStep> | TasksOnly(steps) :: Play(s, steps).Some? ==> OneCopy(Play(s, steps).value, s.inputs)
  }

  /** An instance of an earlier dispatch that still has a write to make against the new one. */
  predicate Stale(task: Instance, inputs: Table) {
    || (task.pc == Inserted && inputs != [])
    || (task.pc == Computing && task.read.Some? && task.read.value != inputs)
  }

  predicate AnyStale(s: StageState) { exists id :: id in s.tasks && Stale(s.tasks[id], s.inputs) }

  lemma PlayOne(s: StageState, step: StageStep)
    ensures Play(s, [step]) == StageNext(s, step)
  {
    hide StageNext;
    assert [step][..0] == [];
    assert Play(s, []) == Some(s);
  }

  lemma PlayTwo(s: StageState, first: StageStep, second: StageStep)
    requires StageNext(s, first).Some?
    ensures Play(s, [first, second]) == StageNext(StageNext(s, first).value, second)
  {
    hide StageNext;
    PlayOne(s, first);
    assert [first, second][..1] == [first];
  }

  /** The old instance's own next writes break the new dispatch. */
  lemma StaleBreaks(t: StageState, id: nat) returns (steps: seq<StageStep>)
    requires id in t.tasks && Stale(t.tasks[id], t.inputs) && t.table == []
    ensures TasksOnly(steps) && Play(t, steps).Some? && !OneCopy(Play(t, steps).value, t.inputs)
  {
    hide Play;
    if t.tasks[id].pc == Inserted {
      steps := [Act(id, Finish)];
      PlayOne(t, Act(id, Finish));
    } else if t.tasks[id].read.value != [] {
      steps := [Act(id, Replace)];
      PlayOne(t, Act(id, Replace));
    } else {
      steps := [Act(id, Replace), Act(id, Finish)];
      PlayTwo(t, Act(id, Replace), Act(id, Finish));
    }
  }

  /**
   * Dispatching a failed run again is harmless to this stage exactly when no live instance is between its insert and
   * its completion mark, and none is computing on inputs whose output differs from that of the inputs now in force.
   */
  lemma RedispatchSafeExactly(s: StageState)
    ensures StaysCurrent(StageNext(s, Redispatch(true)).value) <==> !AnyStale(s)
  {
    hide Play, OneCopy;
    var t := StageNext(s, Redispatch(true)).value;
    if AnyStale(s) {
      var id :| id in s.tasks && Stale(s.tasks[id], s.inputs);
      var steps := StaleBreaks(t, id);
      assert !OneCopy(Play(t, steps).value, t.inputs);
    } else {
      assert StageInv(t, {t.inputs});
      forall steps: seq<StageStep> | TasksOnly(steps) && Play(t, steps).Some? ensures OneCopy(Play(t, steps).value, t.inputs) {
        TasksAreSafe(t, steps, {t.inputs});
        RedeliveryIdempotent(t, steps, {t.inputs});
        VersionIsCopy(Play(t, steps).value, t.inputs);
      }
    }
  }

  lemma VersionIsCopy(s: StageState, out: Table)
    requires StageInv(s, {out})
    ensures OneCopy(s, out)
  {}

  /** With unchanged inputs the only danger is an instance between its insert and its mark. */
  lemma RedispatchSameInputs(s: StageState)
    requires StageInv(s, {s.inputs}) && s.inputs != []
    ensures StaysCurrent(StageNext(s, Redispatch(true)).value) <==> !Between(s)
  {
    hide StaysCurrent, StageNext;
    RedispatchSafeExactly(s);
  }

  // ----- Stale rows under a complete entry -----

  /** A run so far and where it has led. */
  datatype Path = Path(steps: seq<StageStep>, at: StageState)

  ghost predicate Leads(s: StageState, path: Path) { Play(s, path.steps) == Some(path.at) }

  lemma Walk(s: StageState, path: Path, step: StageStep) returns (next: Path)
    requires Leads(s, path) && StageNext(path.at, step).Some?
    ensures Leads(s, next) && next.at == StageNext(path.at, step).value
  {
    hide StageNext;
    next := Path(path.steps + [step], StageNext(path.at, step).value);
    assert next.steps[..|path.steps|] == path.steps;
  }

  lemma Computes(s: StageState, path: Path, id: nat) returns (next: Path)
    requires Leads(s, path) && id !in path.at.tasks && path.at.entry != Done
    ensures Leads(s, next)
    ensures next.at == path.at.(entry := Running, tasks := path.at.tasks[id := Instance(Computing, Some(path.at.inputs))])
  {
    hide Play, Leads;
    next := Walk(s, path, Deliver(id));
    next := Walk(s, next, Act(id, Check));
    next := Walk(s, next, Act(id, Mark));
    next := Walk(s, next, ReadInputs(id));
  }

  lemma Stores(s: StageState, path: Path, id: nat) returns (next: Path)
    requires Leads(s, path) && id in path.at.tasks && path.at.tasks[id].pc == Computing && path.at.tasks[id].read.Some?
    ensures Leads(s, next) && next.at.entry == Done && next.at.table == path.at.tasks[id].read.value
    ensures next.at.inputs == path.at.inputs
    ensures forall other :: other in path.at.tasks && other != id ==> other in next.at.tasks && next.at.tasks[other] == path.at.tasks[other]
  {
    hide Play, Leads;
    next := Walk(s, path, Act(id, Replace));
    next := Walk(s, next, Act(id, Finish));
  }

  /**
   * An instance still computing when the files are replaced and the failed run is dispatched again overwrites the new
   * rows: the entry reads complete over the old inputs' output.
   */
  lemma StaleRowsStand(inputs: Table, newer: Table) returns (path: Path)
    ensures Leads(NewStage(inputs), path)
    ensures path.at.entry == Done && path.at.table == inputs && path.at.inputs == newer
  {
    path := Path([], NewStage(inputs));
    assert Leads(NewStage(inputs), path);
    hide Play, Leads;
    path := Computes(NewStage(inputs), path, 0);
    path := Walk(NewStage(inputs), path, ChangeInputs(newer));
    path := Walk(NewStage(inputs), path, Redispatch(true));
    path := Computes(NewStage(inputs), path, 1);
    path := Stores(NewStage(inputs), path, 1);
    path := Stores(NewStage(inputs), path, 0);
  }
}
