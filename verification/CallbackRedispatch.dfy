/**
 * The EAD table over a second dispatch: callbacks of earlier dispatches may still be alive, or still to be released,
 * when a failed run is dispatched again, and the insert is not preceded by a delete.
 */
module CallbackRedispatch {
  import opened Wrappers
  import opened RunRecord
  import opened RunPipeline

  /** One delivery of the callback: where it stands, and the rows it holds once it has read the stage tables. */
  datatype Delivery = Delivery(pc: EadPc, rows: Table)

  /**
   * The EAD table, what the engine gives on the stage tables in place, the live deliveries, the delivery of the current
   * dispatch, and how many earlier chords can still release their callback.
   */
  datatype EadState = EadState(table: Table, output: Table, tasks: map<nat, Delivery>, current: Option<nat>, waiting: nat)

  datatype EadMove = ReleaseCurrent(id: nat) | ReleaseEarlier(id: nat) | Act(id: nat, e: EadStep) | Lose(id: nat)

  /** The positions up to the insert (compute_tasks.py:545-595); a delivery that finds the run failed is lost instead. */
  function DeliveryNext(pc: EadPc, e: EadStep): Option<EadPc> {
    match e
    case Load => if pc == Released then Some(Admitted) else None
    case MarkEad => if pc == Admitted then Some(Reading) else None
    case ReadTables => if pc == Reading then Some(Holding) else None
    case InsertRows => if pc == Holding then Some(Stored) else None
    case _ => None
  }

  function EadMoved(s: EadState, move: EadMove): Option<EadState> {
    match move
    case ReleaseCurrent(id) =>
      if id in s.tasks || s.current.Some? then None
      else Some(s.(tasks := s.tasks[id := Delivery(Released, [])], current := Some(id)))
    case ReleaseEarlier(id) =>
      if id in s.tasks || s.current == Some(id) || s.waiting == 0 then None
      else Some(s.(tasks := s.tasks[id := Delivery(Released, [])], waiting := s.waiting - 1))
    case Lose(id) => if id in s.tasks then Some(s.(tasks := s.tasks - {id})) else None
    case Act(id, e) =>
      if id !in s.tasks then None
      else
        (match DeliveryNext(s.tasks[id].pc, e)
         case None => None
         case Some(pc) =>
           var rows := if e == ReadTables then s.output else s.tasks[id].rows;
           Some(s.(tasks := s.tasks[id := Delivery(pc, rows)], table := if e == InsertRows then s.table + rows else s.table)))
  }

  function EadPlay(s: EadState, moves: seq<EadMove>): Option<EadState> {
    if moves == [] then Some(s)
    else match EadPlay(s, moves[..|moves| - 1])
      case Some(t) => EadMoved(t, moves[|moves| - 1])
      case None => None
  }

  /** execute_run on a failed run: the table is cleared, and the deliveries of before are those of earlier dispatches. */
  function Redispatched(s: EadState): EadState { s.(table := [], current := None) }

  /** Nothing or exactly one copy, with the current callback delivered once. */
  ghost predicate StaysOnce(s: EadState) {
    forall moves: seq<EadMove> :: EadPlay(s, moves).Some? ==> EadPlay(s, moves).value.table == [] || EadPlay(s, moves).value.table == s.output
  }

  predicate Unread(pc: EadPc) { pc == Released || pc == Admitted || pc == Reading }

  /** A delivery that still has rows to insert. */
  predicate Brings(task: Delivery, output: Table) {
    (Unread(task.pc) && output != []) || (task.pc == Holding && task.rows != [])
  }

  predicate AnyBrings(s: EadState) {
    (s.waiting > 0 && s.output != []) || exists id :: id in s.tasks && Brings(s.tasks[id], s.output)
  }

  // ----- Without an earlier delivery to come, one copy -----

  /** Only the current delivery brings rows, and the table holds them once it has. */
  predicate OnceInv(s: EadState) {
    && (s.waiting > 0 ==> s.output == [])
    && (forall id :: id in s.tasks && s.current != Some(id) ==> !Brings(s.tasks[id], s.output))
    && (s.table == [] || s.table == s.output)
    && (s.current.None? ==> s.table == [])
    && (s.current.Some? && s.current.value in s.tasks ==>
          var task := s.tasks[s.current.value];
          (Unread(task.pc) || task.pc == Holding ==> s.table == []) && (task.pc == Holding ==> task.rows == s.output))
  }

  lemma OnceStep(s: EadState, move: EadMove, t: EadState)
    requires OnceInv(s) && EadMoved(s, move) == Some(t)
    ensures OnceInv(t) && t.output == s.output
  {
    if move.Act? {
      var task := s.tasks[move.id];
      if s.current != Some(move.id) {
        assert !Brings(task, s.output);
        assert move.e == InsertRows ==> s.table + task.rows == s.table;
      } else {
        assert [] + task.rows == task.rows;
      }
    }
  }

  lemma {:induction false} OnceRun(s: EadState, moves: seq<EadMove>)
    requires OnceInv(s) && EadPlay(s, moves).Some?
    ensures OnceInv(EadPlay(s, moves).value) && EadPlay(s, moves).value.output == s.output
  {
    hide EadMoved, OnceInv;
    if moves != [] {
      OnceRun(s, moves[..|moves| - 1]);
      OnceStep(EadPlay(s, moves[..|moves| - 1]).value, moves[|moves| - 1], EadPlay(s, moves).value);
    }
  }

  // ----- With one, a second copy -----

  datatype Way = Way(moves: seq<EadMove>, at: EadState)

  ghost predicate Goes(s: EadState, way: Way) { EadPlay(s, way.moves) == Some(way.at) }

  lemma Stays(s: EadState)
    ensures Goes(s, Way([], s))
  {}

  lemma On(s: EadState, way: Way, move: EadMove) returns (next: Way)
    requires Goes(s, way) && EadMoved(way.at, move).Some?
    ensures Goes(s, next) && next.at == EadMoved(way.at, move).value
  {
    hide EadMoved;
    next := Way(way.moves + [move], EadMoved(way.at, move).value);
    assert next.moves[..|way.moves|] == way.moves;
  }

  /** A delivery that is ahead of its insert goes through it. */
  lemma Inserts(s: EadState, way: Way, id: nat) returns (next: Way)
    requires Goes(s, way) && id in way.at.tasks && (Unread(way.at.tasks[id].pc) || way.at.tasks[id].pc == Holding)
    ensures Goes(s, next) && next.at.output == way.at.output && next.at.current == way.at.current
    ensures next.at.tasks.Keys == way.at.tasks.Keys
    ensures next.at.table
         == way.at.table + if way.at.tasks[id].pc == Holding then way.at.tasks[id].rows else way.at.output
  {
    hide EadPlay, Goes;
    next := way;
    if next.at.tasks[id].pc == Released {
      next := On(s, next, Act(id, Load));
    }
    if next.at.tasks[id].pc == Admitted {
      next := On(s, next, Act(id, MarkEad));
    }
    if next.at.tasks[id].pc == Reading {
      next := On(s, next, Act(id, ReadTables));
    }
    next := On(s, next, Act(id, InsertRows));
  }

  function UpTo(n: nat): (r: set<nat>)
    ensures |r| == n + 1 && forall k :: k in r ==> k <= n
  {
    if n == 0 then {0} else UpTo(n - 1) + {n}
  }

  lemma SubsetCount(a: set<nat>, b: set<nat>)
    requires a <= b
    ensures |a| <= |b|
  {
    assert b == a + (b - a);
  }

  lemma FreshId(tasks: map<nat, Delivery>) returns (id: nat)
    ensures id !in tasks
  {
    var all := UpTo(|tasks.Keys|);
    if all <= tasks.Keys {
      SubsetCount(all, tasks.Keys);
      assert false;
    }
    id :| id in all && id !in tasks.Keys;
  }

  /** An earlier delivery's rows stand beside the current one's. */
  lemma SecondCopy(t: EadState, id: nat) returns (way: Way)
    requires t.table == [] && t.current.None? && id in t.tasks && Brings(t.tasks[id], t.output)
    ensures Goes(t, way) && way.at.table != [] && way.at.table != t.output
  {
    hide EadPlay, Goes;
    Stays(t);
    way := Inserts(t, Way([], t), id);
    var first := way.at.table;
    assert first != [];
    if t.output != [] {
      var n := FreshId(way.at.tasks);
      way := On(t, way, ReleaseCurrent(n));
      way := Inserts(t, way, n);
      assert |way.at.table| == |first| + |t.output|;
    }
  }

  lemma LateRelease(t: EadState) returns (way: Way)
    requires t.table == [] && t.current.None? && t.waiting > 0 && t.output != []
    ensures Goes(t, way) && way.at.table != [] && way.at.table != t.output
  {
    hide EadPlay, Goes;
    Stays(t);
    var m := FreshId(t.tasks);
    way := On(t, Way([], t), ReleaseEarlier(m));
    way := Inserts(t, way, m);
    var n := FreshId(way.at.tasks);
    way := On(t, way, ReleaseCurrent(n));
    way := Inserts(t, way, n);
    assert |way.at.table| == 2 * |t.output|;
  }

  /**
   * After a failed run is dispatched again, and with its callback delivered once, the EAD table holds nothing or exactly
   * one copy of the new output exactly when no earlier delivery has rows still to insert and no earlier chord can still
   * release its callback.
   */
  lemma RedispatchInsertsOnceExactly(s: EadState)
    ensures StaysOnce(Redispatched(s)) <==> !AnyBrings(s)
  {
    hide EadPlay, EadMoved;
    var t := Redispatched(s);
    if id :| id in s.tasks && Brings(s.tasks[id], s.output) {
      var way := SecondCopy(t, id);
      assert EadPlay(t, way.moves).value.table != t.output;
    } else if s.waiting > 0 && s.output != [] {
      var way := LateRelease(t);
      assert EadPlay(t, way.moves).value.table != t.output;
    } else {
      assert OnceInv(t);
      forall moves: seq<EadMove> | EadPlay(t, moves).Some?
        ensures EadPlay(t, moves).value.table == [] || EadPlay(t, moves).value.table == t.output
      {
        OnceRun(t, moves);
      }
    }
  }
}
