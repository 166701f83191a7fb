/**
 * One dispatch with further live copies of its header tasks: a PD or LGD task delivered a second time while the first
 * instance, or the callback, is at work or has finished.
 */
module LateHeaders {
  import opened Wrappers
  import opened RealMath
  import opened RunRecord
  import opened RunPipeline

  /** A further instance of the PD or of the LGD task. */
  datatype Copy = Copy(pd: bool, pc: HeaderPc)

  /** The dispatch with its first instances, and the copies beside them. */
  datatype Wide = Wide(base: State, copies: map<nat, Copy>)

  datatype WideStep = Base(step: Step) | Arrive(id: nat, pd: bool) | Leave(id: nat) | Move(id: nat, h: HeaderStep)

  function StageOfCopy(copy: Copy): StageKey { if copy.pd then Pd else Lgd }

  /** The copy's transaction, by the same updates as the first instance (compute_tasks.py:400-531). */
  function Written(run: Run, copy: Copy, h: HeaderStep, engines: Engines): Run {
    if copy.pd then HeaderRun(run, Pd, PdRunning, h, engines.pdOut) else HeaderRun(run, Lgd, LgdRunning, h, engines.lgdOut)
  }

  function WideNext(w: Wide, step: WideStep, engines: Engines): Option<Wide> {
    match step
    case Base(b) => (match Next(w.base, b, engines) case Some(t) => Some(w.(base := t)) case None => None)
    case Arrive(id, pd) => if id in w.copies then None else Some(w.(copies := w.copies[id := Copy(pd, Delivered)]))
    case Leave(id) => if id in w.copies then Some(w.(copies := w.copies - {id})) else None
    case Move(id, h) =>
      if id !in w.copies then None
      else
        (match HeaderNext(w.copies[id].pc, StageOf(w.base.run.progress, StageOfCopy(w.copies[id])) == Done, h)
         case Some(pc) => Some(Wide(w.base.(run := Written(w.base.run, w.copies[id], h, engines)), w.copies[id := w.copies[id].(pc := pc)]))
         case None => None)
  }

  function WidePlay(w: Wide, steps: seq<WideStep>, engines: Engines): Option<Wide> {
    if steps == [] then Some(w)
    else match WidePlay(w, steps[..|steps| - 1], engines)
      case Some(t) => WideNext(t, steps[|steps| - 1], engines)
      case None => None
  }

  predicate HeadersDone(progress: Progress) { StageOf(progress, Pd) == StageOf(progress, Lgd) == Done }

  predicate AllDone(progress: Progress) {
    HeadersDone(progress) && StageOf(progress, Ead) == StageOf(progress, Ecl) == Done
  }

  /** Nothing raises, and the callback is delivered once: copies come, go and move as they like. */
  predicate Quiet(step: WideStep) {
    !(step.Move? && step.h == Raise) && step != Base(EadStepOf(RaiseEad)) && step != Base(EadStepOf(Redeliver))
  }

  predicate AllQuiet(steps: seq<WideStep>) { forall i :: 0 <= i < |steps| ==> Quiet(steps[i]) }

  /** A copy past its check but ahead of its running mark, or on its way to an error mark. */
  predicate Dangerous(copy: Copy) { copy.pc == Ready || copy.pc == Raising || copy.pc == Marked }

  predicate AnyDangerous(w: Wide) { exists id :: id in w.copies && Dangerous(w.copies[id]) }

  // ----- What quiet runs keep -----

  /** Where a quiet callback can stand once it is released. */
  predicate About(pc: EadPc) { pc == Released || pc == Admitted || Working(pc) || pc == Finished || pc == Skipped }

  /** The first header instances have returned, the callback is about, and its own entries are what it last wrote. */
  predicate AtCallback(s: State) {
    && s.pd.pc == Returned && s.lgd.pc == Returned && CallbackSound(s.ead)
    && About(s.ead.pc)
    && StageOf(s.run.progress, Ead) == s.ead.wroteEad && StageOf(s.run.progress, Ecl) == s.ead.wroteEcl
    && (s.run.status == Complete ==> s.ead.wroteEad == s.ead.wroteEcl == Done && !Working(s.ead.pc))
  }

  /** Every state with a released, unfailed callback is such a state while there are no copies. */
  lemma SoundAtCallback(s: State, engines: Engines)
    requires Inv(s, engines)
    requires About(s.ead.pc)
    ensures AtCallback(s) && HeadersDone(s.run.progress)
    ensures s.ead.pc == Admitted || s.ead.pc == Reading || s.ead.pc == EadDone || (s.ead.pc == Released && s.run.status != Failed)
            ==> CanComplete(s)
  {
    hide RowsSound;
  }

  predicate Guarded(w: Wide) { AtCallback(w.base) && HeadersDone(w.base.run.progress) && !AnyDangerous(w) }

  lemma EadKeepsPosition(s: State, e: EadStep, engines: Engines, t: State)
    requires AtCallback(s) && Quiet(Base(EadStepOf(e))) && Next(s, EadStepOf(e), engines) == Some(t)
    ensures t.pd == s.pd && t.lgd == s.lgd && CallbackSound(t.ead) && About(t.ead.pc) && s.ead.pc != Finished
  {
    hide Sum;
  }

  lemma EadKeepsHeaders(s: State, e: EadStep, engines: Engines, t: State)
    requires AtCallback(s) && Quiet(Base(EadStepOf(e))) && Next(s, EadStepOf(e), engines) == Some(t)
    ensures StageOf(t.run.progress, Pd) == StageOf(s.run.progress, Pd) && StageOf(t.run.progress, Lgd) == StageOf(s.run.progress, Lgd)
    ensures StageOf(t.run.progress, Ead) == t.ead.wroteEad && StageOf(t.run.progress, Ecl) == t.ead.wroteEcl
  {
    hide Sum, CallbackSound;
  }

  lemma EadKeepsComplete(s: State, e: EadStep, engines: Engines, t: State)
    requires AtCallback(s) && Quiet(Base(EadStepOf(e))) && Next(s, EadStepOf(e), engines) == Some(t)
    ensures t.run.status == Complete ==> t.ead.wroteEad == t.ead.wroteEcl == Done && !Working(t.ead.pc)
  {
    hide Sum;
  }

  lemma BaseKeepsGuard(s: State, step: Step, engines: Engines, t: State)
    requires AtCallback(s) && HeadersDone(s.run.progress) && Quiet(Base(step)) && Next(s, step, engines) == Some(t)
    ensures AtCallback(t) && HeadersDone(t.run.progress)
    ensures s.ead.pc == Finished ==> t.ead.pc == Finished && (s.run.status == Complete ==> t.run == s.run)
  {
    hide CallbackSound, EadNext, EadRun, EadAfter;
    if step.EadStepOf? {
      EadKeepsPosition(s, step.e, engines, t);
      EadKeepsHeaders(s, step.e, engines, t);
      EadKeepsComplete(s, step.e, engines, t);
    }
  }

  lemma CopyKeepsGuard(run: Run, copy: Copy, h: HeaderStep, engines: Engines)
    requires HeadersDone(run.progress) && !Dangerous(copy) && h != Raise
    requires HeaderNext(copy.pc, StageOf(run.progress, StageOfCopy(copy)) == Done, h).Some?
    ensures HeadersDone(Written(run, copy, h, engines).progress) && Written(run, copy, h, engines).status == run.status
    ensures StageOf(Written(run, copy, h, engines).progress, Ead) == StageOf(run.progress, Ead)
    ensures StageOf(Written(run, copy, h, engines).progress, Ecl) == StageOf(run.progress, Ecl)
    ensures run.pdResults == engines.pdOut ==> Written(run, copy, h, engines).pdResults == engines.pdOut
    ensures run.lgdResults == engines.lgdOut ==> Written(run, copy, h, engines).lgdResults == engines.lgdOut
    ensures !Dangerous(copy.(pc := HeaderNext(copy.pc, StageOf(run.progress, StageOfCopy(copy)) == Done, h).value))
  {}

  lemma GuardedStep(w: Wide, step: WideStep, engines: Engines, t: Wide)
    requires Guarded(w) && Quiet(step) && WideNext(w, step, engines) == Some(t)
    ensures Guarded(t)
    ensures w.base.ead.pc == Finished ==> t.base.ead.pc == Finished
    ensures w.base.ead.pc == Finished && Sealed(w.base.run, engines) ==> Sealed(t.base.run, engines)
  {
    hide HeaderNext, Written, CallbackSound, Next, Dangerous;
    match step
    case Base(b) => BaseKeepsGuard(w.base, b, engines, t.base);
    case Arrive(id, pd) => FreshIsHarmless(pd);
    case Leave(id) =>
    case Move(id, h) =>
      assert !Dangerous(w.copies[id]);
      CopyKeepsGuard(w.base.run, w.copies[id], h, engines);
  }

  lemma FreshIsHarmless(pd: bool)
    ensures !Dangerous(Copy(pd, Delivered))
  {}

  lemma {:induction false} GuardedRun(w: Wide, steps: seq<WideStep>, engines: Engines)
    requires Guarded(w) && AllQuiet(steps) && WidePlay(w, steps, engines).Some?
    ensures var t := WidePlay(w, steps, engines).value;
            && Guarded(t)
            && (w.base.ead.pc == Finished ==> t.base.ead.pc == Finished)
            && (w.base.ead.pc == Finished && Sealed(w.base.run, engines) ==> Sealed(t.base.run, engines))
  {
    hide WideNext, Sealed, Guarded, Quiet;
    if steps != [] {
      var front := steps[..|steps| - 1];
      GuardedRun(w, front, engines);
      GuardedStep(WidePlay(w, front, engines).value, steps[|steps| - 1], engines, WidePlay(w, steps, engines).value);
    }
  }

  // ----- Courses -----

  /** A run so far and where it has led. */
  datatype Course = Course(steps: seq<WideStep>, at: Wide)

  ghost predicate Takes(w: Wide, course: Course, engines: Engines) { WidePlay(w, course.steps, engines) == Some(course.at) }

  lemma NoSteps(w: Wide, engines: Engines)
    ensures Takes(w, Course([], w), engines)
  {}

  lemma Then(w: Wide, course: Course, step: WideStep, engines: Engines) returns (next: Course)
    requires Takes(w, course, engines) && WideNext(course.at, step, engines).Some?
    ensures Takes(w, next, engines) && next.at == WideNext(course.at, step, engines).value
    ensures Quiet(step) && AllQuiet(course.steps) ==> AllQuiet(next.steps)
  {
    hide WideNext, Quiet;
    next := Course(course.steps + [step], WideNext(course.at, step, engines).value);
    assert next.steps[..|course.steps|] == course.steps;
  }

  /** A run of the first instances alone is a run beside any copies. */
  lemma {:induction false} Lift(w: Wide, course: Course, steps: seq<Step>, engines: Engines) returns (next: Course)
    requires Takes(w, course, engines) && Execute(course.at.base, steps, engines).Some?
    ensures Takes(w, next, engines) && next.at == course.at.(base := Execute(course.at.base, steps, engines).value)
  {
    hide Next, Takes;
    if steps == [] {
      next := course;
    } else {
      next := Lift(w, course, steps[..|steps| - 1], engines);
      next := Then(w, next, Base(steps[|steps| - 1]), engines);
    }
  }

  /** A callback past its check runs on to the final update, whatever the header entries say. */
  lemma CallbackCompletes(w: Wide, before: Course, engines: Engines) returns (course: Course)
    requires Takes(w, before, engines) && AllQuiet(before.steps)
    requires before.at.base.ead.pc == Admitted || Working(before.at.base.ead.pc)
    ensures Takes(w, course, engines) && AllQuiet(course.steps) && course.at.base.run.status == Complete
    ensures StageOf(course.at.base.run.progress, Pd) == StageOf(before.at.base.run.progress, Pd)
    ensures StageOf(course.at.base.run.progress, Lgd) == StageOf(before.at.base.run.progress, Lgd)
    decreases WorkStep(before.at.base.ead.pc).1
  {
    hide WidePlay, Takes, EadRun, EadAfter;
    var e := WorkStep(before.at.base.ead.pc).0;
    assert EadNext(before.at.base, e).Some?;
    course := Then(w, before, Base(EadStepOf(e)), engines);
    WorkGoesOn(before.at.base, engines, course.at.base);
    if before.at.base.ead.pc != EadDone {
      course := CallbackCompletes(w, course, engines);
    }
  }

  // ----- When `complete` means four complete entries -----

  /** In every quiet continuation a complete run has four complete entries. */
  ghost predicate CompleteMeansDone(w: Wide, engines: Engines) {
    forall steps: seq<WideStep> | AllQuiet(steps) ::
      WidePlay(w, steps, engines).Some? && WidePlay(w, steps, engines).value.base.run.status == Complete
      ==> AllDone(WidePlay(w, steps, engines).value.base.run.progress)
  }

  /** The callback is on its way to the final update, or can still start. */
  predicate CanComplete(s: State) { (s.ead.pc == Released && s.run.status != Failed) || s.ead.pc == Admitted || Working(s.ead.pc) }

  lemma Admits(w: Wide, engines: Engines) returns (course: Course)
    requires CanComplete(w.base)
    ensures Takes(w, course, engines) && AllQuiet(course.steps) && course.at.copies == w.copies
    ensures course.at.base.run == w.base.run && (course.at.base.ead.pc == Admitted || Working(course.at.base.ead.pc))
  {
    course := Course([], w);
    NoSteps(w, engines);
    hide WidePlay, Takes;
    if w.base.ead.pc == Released {
      course := Then(w, course, Base(EadStepOf(Load)), engines);
    }
  }

  /** A dangerous copy spoils its stage's entry before the callback completes the run. */
  lemma EntrySpoiled(w: Wide, id: nat, engines: Engines) returns (course: Course)
    requires CanComplete(w.base) && id in w.copies && Dangerous(w.copies[id])
    ensures Takes(w, course, engines) && AllQuiet(course.steps)
    ensures course.at.base.run.status == Complete && !HeadersDone(course.at.base.run.progress)
  {
    hide WidePlay, Takes;
    course := Admits(w, engines);
    course := Then(w, course, Move(id, if w.copies[id].pc == Ready then Mark else MarkError), engines);
    course := CallbackCompletes(w, course, engines);
  }

  /**
   * From a callback on its way, `complete` means four complete entries in every continuation that raises nothing exactly
   * when both header entries are complete now and no copy is between its check and its mark or about to mark an error.
   */
  lemma CompleteMeansDoneExactly(w: Wide, engines: Engines)
    requires AtCallback(w.base) && CanComplete(w.base)
    ensures CompleteMeansDone(w, engines) <==> HeadersDone(w.base.run.progress) && !AnyDangerous(w)
  {
    hide WidePlay, CallbackSound;
    if Guarded(w) {
      forall steps: seq<WideStep> | AllQuiet(steps) && WidePlay(w, steps, engines).Some?
                                    && WidePlay(w, steps, engines).value.base.run.status == Complete
        ensures AllDone(WidePlay(w, steps, engines).value.base.run.progress)
      {
        GuardedRun(w, steps, engines);
      }
    } else {
      var course: Course;
      if id :| id in w.copies && Dangerous(w.copies[id]) {
        course := EntrySpoiled(w, id, engines);
      } else {
        course := Admits(w, engines);
        course := CallbackCompletes(w, course, engines);
      }
      assert !AllDone(WidePlay(w, course.steps, engines).value.base.run.progress);
    }
  }

  // ----- When a completed run stays complete -----

  /** Complete, with four complete entries over the engines' own output. */
  predicate Sealed(run: Run, engines: Engines) {
    run.status == Complete && AllDone(run.progress) && run.pdResults == engines.pdOut && run.lgdResults == engines.lgdOut
  }

  ghost predicate StaysSealed(w: Wide, engines: Engines) {
    forall steps: seq<WideStep> | AllQuiet(steps) ::
      WidePlay(w, steps, engines).Some? ==> Sealed(WidePlay(w, steps, engines).value.base.run, engines)
  }

  /**
   * A completed run stays complete, with its four complete entries and its tables, under any redeliveries that raise
   * nothing, exactly when no header copy is between its check and its running mark or about to mark an error.
   */
  lemma CompleteStaysExactly(w: Wide, engines: Engines)
    requires AtCallback(w.base) && w.base.ead.pc == Finished && Sealed(w.base.run, engines)
    ensures StaysSealed(w, engines) <==> !AnyDangerous(w)
  {
    hide WidePlay, CallbackSound;
    if id :| id in w.copies && Dangerous(w.copies[id]) {
      NoSteps(w, engines);
      var course := Then(w, Course([], w), Move(id, if w.copies[id].pc == Ready then Mark else MarkError), engines);
      assert !Sealed(WidePlay(w, course.steps, engines).value.base.run, engines);
    } else {
      forall steps: seq<WideStep> | AllQuiet(steps) && WidePlay(w, steps, engines).Some?
        ensures Sealed(WidePlay(w, steps, engines).value.base.run, engines)
      {
        GuardedRun(w, steps, engines);
      }
    }
  }

  // ----- Both failures happen, from a dispatch -----

  /** A copy that arrives with the dispatch and has passed its check before the first instance starts. */
  lemma CopyReady(s: State, engines: Engines, pd: bool) returns (course: Course)
    requires Start(s)
    ensures Takes(Wide(s, map[]), course, engines) && course.at == Wide(s, map[0 := Copy(pd, Ready)])
  {
    var w := Wide(s, map[]);
    course := Course([], w);
    NoSteps(w, engines);
    hide WidePlay, Takes;
    course := Then(w, course, Arrive(0, pd), engines);
    course := Then(w, course, Move(0, Check), engines);
  }

  /** From any dispatch: the copy marks itself running under the working callback, and the run completes over a running entry. */
  lemma CompleteOverRunning(s: State, engines: Engines, pd: bool) returns (course: Course)
    requires Start(s)
    ensures Takes(Wide(s, map[]), course, engines) && course.at.base.run.status == Complete
    ensures StageOf(course.at.base.run.progress, if pd then Pd else Lgd) == Running
  {
    hide WidePlay, Takes, Execute, Start, Sum;
    course := CopyReady(s, engines, pd);
    var trace := Releases(s, engines);
    trace := InsertOnce(s, trace, engines);
    course := Lift(Wide(s, map[]), course, trace.steps, engines);
    course := Then(Wide(s, map[]), course, Move(0, Mark), engines);
    course := Restart(Wide(s, map[]), course, engines);
  }

  lemma Restart(w: Wide, before: Course, engines: Engines) returns (course: Course)
    requires Takes(w, before, engines) && Working(before.at.base.ead.pc)
    ensures Takes(w, course, engines) && course.at.base.run.status == Complete
    ensures StageOf(course.at.base.run.progress, Pd) == StageOf(before.at.base.run.progress, Pd)
    ensures StageOf(course.at.base.run.progress, Lgd) == StageOf(before.at.base.run.progress, Lgd)
  {
    NoSteps(before.at, engines);
    hide WidePlay, Takes;
    var tail := CallbackCompletes(before.at, Course([], before.at), engines);
    course := Append(w, before, tail, engines);
  }

  lemma {:induction false} Append(w: Wide, course: Course, tail: Course, engines: Engines) returns (next: Course)
    requires Takes(w, course, engines) && Takes(course.at, tail, engines)
    ensures Takes(w, next, engines) && next.at == tail.at
    decreases |tail.steps|
  {
    hide WideNext;
    if tail.steps == [] {
      next := course;
    } else {
      var n := |tail.steps| - 1;
      next := Append(w, course, Course(tail.steps[..n], WidePlay(course.at, tail.steps[..n], engines).value), engines);
      next := Then(w, next, tail.steps[n], engines);
    }
  }

  /** From any dispatch: the run completes with four complete entries while the copy still stands before its mark. */
  lemma SealedBesideCopy(s: State, engines: Engines, pd: bool) returns (course: Course)
    requires Start(s)
    ensures Takes(Wide(s, map[]), course, engines) && Sealed(course.at.base.run, engines)
    ensures course.at.copies == map[0 := Copy(pd, Ready)]
  {
    hide WidePlay, Takes, Execute, Start, Sum;
    course := CopyReady(s, engines, pd);
    var trace := Releases(s, engines);
    trace := InsertOnce(s, trace, engines);
    trace := Completes(s, trace, engines);
    FinishedSealed(s, trace, engines);
    course := Lift(Wide(s, map[]), course, trace.steps, engines);
  }

  lemma FinishedSealed(s: State, trace: Trace, engines: Engines)
    requires Start(s) && Reaches(s, trace, engines) && trace.at.ead.pc == Finished
    ensures Sealed(trace.at.run, engines)
  {
    hide Execute, Start;
    EveryStateSound(s, trace.steps, engines);
  }

  /** A marked copy runs to its return: its entry is complete again, and the status is as its mark left it. */
  lemma CopyReturns(w: Wide, course: Course, id: nat, engines: Engines) returns (next: Course)
    requires Takes(w, course, engines) && id in course.at.copies && course.at.copies[id].pc == Computing
    ensures Takes(w, next, engines)
    ensures var copy := course.at.copies[id];
            next.at.base.run == WithStage(Written(course.at.base.run, copy, Replace, engines), StageOfCopy(copy), Done)
  {
    hide WidePlay, Takes;
    next := Then(w, course, Move(id, Replace), engines);
    next := Then(w, next, Move(id, Finish), engines);
    next := Then(w, next, Move(id, Return), engines);
  }

  /**
   * From any dispatch: the copy marks after the run is complete and finishes undisturbed, nothing puts the status back,
   * and recovery fails a run whose four entries are complete and whose total stands.
   */
  lemma CompletedRunFails(s: State, engines: Engines, pd: bool) returns (course: Course)
    requires Start(s)
    ensures Takes(Wide(s, map[]), course, engines)
    ensures course.at.base.run.status == Failed && AllDone(course.at.base.run.progress)
    ensures course.at.base.run.pdResults == engines.pdOut && course.at.base.run.lgdResults == engines.lgdOut
  {
    hide WidePlay, Takes, Start;
    var w := Wide(s, map[]);
    course := SealedBesideCopy(s, engines, pd);
    course := Then(w, course, Move(0, Mark), engines);
    course := CopyReturns(w, course, 0, engines);
    course := Then(w, course, Base(Tick(46)), engines);
  }
}
