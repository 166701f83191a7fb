/** compute_pd from the joined snapshots on: monthly matrices and the segment aggregate. */
module ExposureFlows {
  import opened Wrappers
  import opened RealMath
  import opened TransitionMatrix
  import opened Calendar
  import opened NextMonthJoin

  // ----- Monthly matrices and their sum (pd_engine.py:33-48, 119-131) -----

  const STAGES := [Stage1, Stage2, Stage3]
  const NEXT_STAGES := [In(Stage1), In(Stage2), In(Stage3), Offbooks]

  /** The exposure a joined row adds to the cell (from, to). */
  function CellAmount(from: Stage, to: Staging): Joined -> real {
    (x: Joined) => if x.row.staging == In(from) && x.next == to then x.row.amount else 0.0
  }

  function Cell(rows: seq<Joined>, from: Stage, to: Staging): real { Sum(rows, CellAmount(from, to)) }

  function FlowsFrom(rows: seq<Joined>, from: Stage): Row {
    Row(Cell(rows, from, In(Stage1)), Cell(rows, from, In(Stage2)), Cell(rows, from, In(Stage3)))
  }

  /** The exposure moved between stages by these rows, without the Offbooks column. */
  function Flows(rows: seq<Joined>): Matrix {
    Matrix(FlowsFrom(rows, Stage1), FlowsFrom(rows, Stage2), FlowsFrom(rows, Stage3))
  }

  method BuildMonthlyMatrix(subset: seq<Joined>) returns (matrix: array2<real>)
    ensures fresh(matrix) && matrix.Length0 == 3 && matrix.Length1 == 4
    ensures forall i, j :: 0 <= i < 3 && 0 <= j < 4 ==> matrix[i, j] == Cell(subset, STAGES[i], NEXT_STAGES[j])
  {
    matrix := new real[3, 4]((i, j) => 0.0);
    for row := 0 to 3
      invariant forall i, j :: 0 <= i < row && 0 <= j < 4 ==> matrix[i, j] == Cell(subset, STAGES[i], NEXT_STAGES[j])
      invariant forall i, j :: row <= i < 3 && 0 <= j < 4 ==> matrix[i, j] == 0.0
    {
      if exists x :: x in subset && x.row.staging == In(STAGES[row]) {
        for col := 0 to 4
          invariant forall i, j :: 0 <= i < row && 0 <= j < 4 ==> matrix[i, j] == Cell(subset, STAGES[i], NEXT_STAGES[j])
          invariant forall j :: 0 <= j < col ==> matrix[row, j] == Cell(subset, STAGES[row], NEXT_STAGES[j])
          invariant forall i, j :: row < i < 3 && 0 <= j < 4 ==> matrix[i, j] == 0.0
        {
          matrix[row, col] := Sum(subset, CellAmount(STAGES[row], NEXT_STAGES[col]));
        }
      } else {
        forall j | 0 <= j < 4 ensures Cell(subset, STAGES[row], NEXT_STAGES[j]) == 0.0 {
          SumZero(subset, CellAmount(STAGES[row], NEXT_STAGES[j]));
        }
      }
    }
  }

  function InMonths(months: set<Date>): Joined -> bool { (x: Joined) => x.row.month in months }

  function MonthsOf(rows: seq<Joined>): set<Date> { set x | x in rows :: x.row.month }

  lemma CellsAdd(rows: seq<Joined>, done: set<Date>, month: Date, from: Stage, to: Staging)
    requires month !in done
    ensures Cell(Filter(rows, InMonths(done + {month})), from, to)
         == Cell(Filter(rows, InMonths(done)), from, to) + Cell(Filter(rows, InMonths({month})), from, to)
  {
    SumSplit(rows, InMonths(done), InMonths({month}), InMonths(done + {month}), CellAmount(from, to));
  }

  lemma FlowsAdd(rows: seq<Joined>, done: set<Date>, month: Date)
    requires month !in done
    ensures Flows(Filter(rows, InMonths(done + {month})))
         == Add(Flows(Filter(rows, InMonths(done))), Flows(Filter(rows, InMonths({month}))))
  {
    hide Cell;
    forall from, to ensures Cell(Filter(rows, InMonths(done + {month})), from, to)
                         == Cell(Filter(rows, InMonths(done)), from, to) + Cell(Filter(rows, InMonths({month})), from, to)
    {
      CellsAdd(rows, done, month, from, to);
    }
  }

  function ReadFlows(matrix: array2<real>): Matrix
    requires matrix.Length0 == 3 && matrix.Length1 == 4
    reads matrix
  {
    Matrix(Row(matrix[0, 0], matrix[0, 1], matrix[0, 2]),
           Row(matrix[1, 0], matrix[1, 1], matrix[1, 2]),
           Row(matrix[2, 0], matrix[2, 1], matrix[2, 2]))
  }

  /** The 3x3 part of one month's matrix, with the Offbooks column cut off. */
  method MonthlyFlows(rows: seq<Joined>) returns (flows: Matrix)
    ensures flows == Flows(rows)
  {
    hide Cell;
    var matrix := BuildMonthlyMatrix(rows);
    flows := ReadFlows(matrix);
  }

  lemma NoMonthsNoFlows(rows: seq<Joined>)
    ensures Flows(Filter(rows, InMonths({}))) == ZERO
  {
    FilterNone(rows, InMonths({}));
  }

  lemma AllMonthsAllRows(rows: seq<Joined>)
    ensures Filter(rows, InMonths(MonthsOf(rows))) == rows
  {
    FilterAll(rows, InMonths(MonthsOf(rows)));
  }

  /** The aggregate over a segment's months, taken one month at a time in any order, is its total flow. */
  method AggregateMonths(rows: seq<Joined>) returns (aggregate: Matrix)
    ensures aggregate == Flows(rows)
  {
    hide Flows, Filter, InMonths, Add;
    aggregate := ZERO;
    var months := MonthsOf(rows);
    ghost var done: set<Date> := {};
    NoMonthsNoFlows(rows);
    while months != {}
      invariant done + months == MonthsOf(rows) && done !! months
      invariant aggregate == Flows(Filter(rows, InMonths(done)))
      decreases months
    {
      var month :| month in months;
      var monthly := MonthlyFlows(Filter(rows, InMonths({month})));
      FlowsAdd(rows, done, month);
      aggregate := Add(aggregate, monthly);
      done, months := done + {month}, months - {month};
    }
    assert done == MonthsOf(rows);
    AllMonthsAllRows(rows);
  }

  // ----- Exposure conservation -----

  function Amount(): Snapshot -> real { (r: Snapshot) => r.amount }

  function JoinedAmount(): Joined -> real { (x: Joined) => x.row.amount }

  function StageAmount(from: Stage): Joined -> real {
    (x: Joined) => if x.row.staging == In(from) then x.row.amount else 0.0
  }

  /** The row total of the 3x4 monthly matrix. */
  function Outflow(rows: seq<Joined>, from: Stage): real {
    Cell(rows, from, In(Stage1)) + Cell(rows, from, In(Stage2)) + Cell(rows, from, In(Stage3)) + Cell(rows, from, Offbooks)
  }

  /** The total of the 3x4 monthly matrix. */
  function MatrixTotal(rows: seq<Joined>): real {
    Outflow(rows, Stage1) + Outflow(rows, Stage2) + Outflow(rows, Stage3)
  }

  predicate KnownNext(x: Joined) { x.next.In? || x.next.Offbooks? }

  lemma {:induction false} OutflowConserved(rows: seq<Joined>, from: Stage)
    requires forall x :: x in rows ==> KnownNext(x)
    ensures Outflow(rows, from) == Sum(rows, StageAmount(from))
  {
    if rows != [] {
      OutflowConserved(rows[1..], from);
      forall to ensures Cell(rows, from, to) == CellAmount(from, to)(rows[0]) + Cell(rows[1..], from, to) {}
      assert KnownNext(rows[0]);
      assert rows[0].next.In? ==> rows[0].next.stage.Stage1? || rows[0].next.stage.Stage2? || rows[0].next.stage.Stage3?;
    }
  }

  lemma {:induction false} StagesPartition(rows: seq<Joined>)
    requires forall x :: x in rows ==> x.row.staging.In?
    ensures Sum(rows, StageAmount(Stage1)) + Sum(rows, StageAmount(Stage2)) + Sum(rows, StageAmount(Stage3))
         == Sum(rows, JoinedAmount())
  {
    if rows != [] {
      StagesPartition(rows[1..]);
      forall from ensures Sum(rows, StageAmount(from)) == StageAmount(from)(rows[0]) + Sum(rows[1..], StageAmount(from)) {}
      var stage := rows[0].row.staging.stage;
      assert stage.Stage1? || stage.Stage2? || stage.Stage3?;
    }
  }

  lemma {:induction false} SumJoined(joined: seq<Joined>, rows: seq<Snapshot>, p: Joined -> bool, q: Snapshot -> bool)
    requires |joined| == |rows|
    requires forall i :: 0 <= i < |rows| ==> joined[i].row == rows[i] && p(joined[i]) == q(rows[i])
    ensures Sum(Filter(joined, p), JoinedAmount()) == Sum(Filter(rows, q), Amount())
  {
    if rows != [] {
      SumJoined(joined[1..], rows[1..], p, q);
      SumSelected(joined, p, JoinedAmount());
      SumSelected(rows, q, Amount());
    }
  }

  function InSegmentMonth(segment: string, month: Date): Joined -> bool {
    (x: Joined) => x.row.segment == Some(segment) && x.row.month == month
  }

  function RowInSegmentMonth(segment: string, month: Date): Snapshot -> bool {
    (r: Snapshot) => r.segment == Some(segment) && r.month == month
  }

  /** No exposure is lost or doubled: a month's 3x4 matrix totals the segment's Loan Amount for that month. */
  lemma ExposureConserved(rows: seq<Snapshot>, segment: string, month: Date)
    requires NoneDoubled(rows, rows)
    requires forall r :: r in rows ==> r.staging.In?
    ensures MatrixTotal(Filter(JoinNext(rows, rows), InSegmentMonth(segment, month)))
         == Sum(Filter(rows, RowInSegmentMonth(segment, month)), Amount())
  {
    var joined := JoinNext(rows, rows);
    var p, q := InSegmentMonth(segment, month), RowInSegmentMonth(segment, month);
    assert Sum(Filter(joined, p), JoinedAmount()) == Sum(Filter(rows, q), Amount()) by {
      JoinKeepsRows(rows, rows);
      SumJoined(joined, rows, p, q);
    }
    forall x | x in Filter(joined, p) ensures x.row.staging.In? && KnownNext(x) {
      FilterMembers(joined, p);
      JoinMember(rows, rows, x);
    }
    MatrixConserved(Filter(joined, p));
  }

  lemma MatrixConserved(rows: seq<Joined>)
    requires forall x :: x in rows ==> x.row.staging.In? && KnownNext(x)
    ensures MatrixTotal(rows) == Sum(rows, JoinedAmount())
  {
    hide Outflow;
    OutflowConserved(rows, Stage1);
    OutflowConserved(rows, Stage2);
    OutflowConserved(rows, Stage3);
    StagesPartition(rows);
  }

  lemma {:induction false} MatchesMember(lookup: seq<Snapshot>, r: Snapshot, x: Joined)
    requires x in Matches(lookup, r)
    ensures x.row == r && exists s :: s in lookup && Follows(s, r) && x.next == FillMissing(s.staging)
  {
    if Follows(lookup[0], r) {
      assert lookup[0] in lookup;
    }
    if x !in (if Follows(lookup[0], r) then [Joined(r, FillMissing(lookup[0].staging))] else []) {
      MatchesMember(lookup[1..], r, x);
    }
  }

  lemma {:induction false} JoinMember(lookup: seq<Snapshot>, rows: seq<Snapshot>, x: Joined)
    requires x in JoinNext(lookup, rows)
    ensures x.row in rows
    ensures x.next == Offbooks || exists s :: s in lookup && Follows(s, x.row) && x.next == FillMissing(s.staging)
  {
    if x in NextMonth(lookup, rows[0]) {
      if x in Matches(lookup, rows[0]) {
        MatchesMember(lookup, rows[0], x);
      }
    } else {
      JoinMember(lookup, rows[1..], x);
    }
  }

  lemma {:induction false} OffbooksFlowsNothing(rows: seq<Joined>)
    requires forall x :: x in rows ==> x.next == Offbooks
    ensures Flows(rows) == ZERO
  {
    hide Cell;
    forall from: Stage, to: Stage ensures Cell(rows, from, In(to)) == 0.0 {
      CellOffbooks(rows, from, to);
    }
  }

  lemma CellOffbooks(rows: seq<Joined>, from: Stage, to: Stage)
    requires forall x :: x in rows ==> x.next == Offbooks
    ensures Cell(rows, from, In(to)) == 0.0
  {
    SumZero(rows, CellAmount(from, In(to)));
  }

  /** The latest reporting date has no next month, so it contributes a zero 3x3 matrix in every segment. */
  lemma LatestMonthFlowsNothing(rows: seq<Snapshot>, latest: Date, segment: string)
    requires forall r :: r in rows ==> AtMost(r.month, latest)
    ensures Flows(Filter(JoinNext(rows, rows), InSegmentMonth(segment, latest))) == ZERO
  {
    var joined := JoinNext(rows, rows);
    var p := InSegmentMonth(segment, latest);
    FilterMembers(joined, p);
    forall x | x in Filter(joined, p) ensures x.next == Offbooks {
      JoinMember(rows, rows, x);
      if s :| s in rows && Follows(s, x.row) {
        AddMonthsIncreases(s.month, -1, 0);
        AddMonthsIndex(s.month, 0);
      }
    }
    OffbooksFlowsNothing(Filter(joined, p));
  }

  // ----- Order independence -----

  function InSegment(segment: string): Joined -> bool { (x: Joined) => x.row.segment == Some(segment) }

  /** The aggregate matrix of one segment (pd_engine.py:119-133). */
  function SegmentAggregate(rows: seq<Snapshot>, segment: string): Matrix {
    Flows(Filter(JoinNext(rows, rows), InSegment(segment)))
  }

  function SegmentCell(segment: string, from: Stage, to: Staging): Joined -> real {
    (x: Joined) => if InSegment(segment)(x) then CellAmount(from, to)(x) else 0.0
  }

  function MatchWeight(r: Snapshot, f: Joined -> real): Snapshot -> real {
    (s: Snapshot) => if Follows(s, r) then f(Joined(r, FillMissing(s.staging))) else 0.0
  }

  function Contribution(lookup: seq<Snapshot>, f: Joined -> real): Snapshot -> real {
    (r: Snapshot) => Sum(NextMonth(lookup, r), f)
  }

  lemma {:induction false} MatchesSum(lookup: seq<Snapshot>, r: Snapshot, f: Joined -> real)
    ensures Sum(Matches(lookup, r), f) == Sum(lookup, MatchWeight(r, f))
  {
    if lookup != [] {
      MatchesSum(lookup[1..], r, f);
      var first := if Follows(lookup[0], r) then [Joined(r, FillMissing(lookup[0].staging))] else [];
      SumAppend(first, Matches(lookup[1..], r), f);
    }
  }

  lemma {:induction false} JoinSum(lookup: seq<Snapshot>, rows: seq<Snapshot>, f: Joined -> real)
    ensures Sum(JoinNext(lookup, rows), f) == Sum(rows, Contribution(lookup, f))
  {
    if rows != [] {
      JoinSum(lookup, rows[1..], f);
      SumAppend(NextMonth(lookup, rows[0]), JoinNext(lookup, rows[1..]), f);
    }
  }

  lemma SameMembers(s: seq<Snapshot>, t: seq<Snapshot>)
    requires multiset(s) == multiset(t)
    ensures forall x :: x in s <==> x in t
  {
    forall x ensures x in s <==> x in t {
      assert x in multiset(s) <==> x in multiset(t);
    }
  }

  lemma NextMonthPermutes(lookup: seq<Snapshot>, other: seq<Snapshot>, r: Snapshot, f: Joined -> real)
    requires multiset(lookup) == multiset(other)
    ensures Sum(NextMonth(lookup, r), f) == Sum(NextMonth(other, r), f)
  {
    SameMembers(lookup, other);
    MatchesSum(lookup, r, f);
    MatchesSum(other, r, f);
    SumPermutation(lookup, other, MatchWeight(r, f));
    if s :| s in lookup && Follows(s, r) {
      var k :| 0 <= k < |lookup| && lookup[k] == s;
      var l :| 0 <= l < |other| && other[l] == s;
      MatchesSome(lookup, r, k);
      MatchesSome(other, r, l);
    } else {
      MatchesNone(lookup, r);
      MatchesNone(other, r);
    }
  }

  lemma CellPermutes(rows: seq<Snapshot>, other: seq<Snapshot>, segment: string, from: Stage, to: Staging)
    requires multiset(rows) == multiset(other)
    ensures Cell(Filter(JoinNext(rows, rows), InSegment(segment)), from, to)
         == Cell(Filter(JoinNext(other, other), InSegment(segment)), from, to)
  {
    var f := SegmentCell(segment, from, to);
    SumFilter(JoinNext(rows, rows), InSegment(segment), CellAmount(from, to), f);
    SumFilter(JoinNext(other, other), InSegment(segment), CellAmount(from, to), f);
    JoinSum(rows, rows, f);
    JoinSum(other, other, f);
    forall r | r in rows ensures Contribution(rows, f)(r) == Contribution(other, f)(r) {
      NextMonthPermutes(rows, other, r, f);
    }
    SumEqual(rows, Contribution(rows, f), Contribution(other, f));
    SumPermutation(rows, other, Contribution(other, f));
  }

  lemma AggregatePermutes(rows: seq<Snapshot>, other: seq<Snapshot>, segment: string)
    requires multiset(rows) == multiset(other)
    ensures SegmentAggregate(rows, segment) == SegmentAggregate(other, segment)
  {
    hide Cell;
    forall from, to
      ensures Cell(Filter(JoinNext(rows, rows), InSegment(segment)), from, to)
           == Cell(Filter(JoinNext(other, other), InSegment(segment)), from, to)
    {
      CellPermutes(rows, other, segment, from, to);
    }
  }
}
