/** compute_pd in its own terms: every number of the PD table spelled out from the snapshots, segment by segment. */
module PdMeaning {
  import opened Wrappers
  import opened RealMath
  import opened TransitionMatrix
  import opened MarginalPd
  import opened Calendar
  import opened NextMonthJoin
  import opened ExposureFlows
  import opened PdEngine
  import Text

  // ----- What moved -----

  /** s is the same loan's row in the following month: on the same day, or on a later one when r is on its month's last. */
  predicate NextRow(s: Snapshot, r: Snapshot) {
    && s.loan == r.loan && 12 * s.month.year + s.month.month == 12 * r.month.year + r.month.month + 1
    && (s.month.day == r.month.day || (s.month.day > r.month.day && r.month.day == DaysIn(r.month.year, r.month.month)))
  }

  lemma NextRowFollows(s: Snapshot, r: Snapshot)
    ensures Follows(s, r) <==> NextRow(s, r)
  {
    ShiftBackLandsOn(s.month, r.month);
  }

  /** How many of the rows are r's next row and in the stage. */
  function NextIn(rows: seq<Snapshot>, r: Snapshot, to: Stage): nat {
    if rows == [] then 0
    else (if NextRow(rows[0], r) && rows[0].staging == In(to) then 1 else 0) + NextIn(rows[1..], r, to)
  }

  function MovedFrom(rows: seq<Snapshot>, segment: string, from: Stage, to: Stage): Snapshot -> real {
    (r: Snapshot) => if r.segment == Some(segment) && r.staging == In(from) then r.amount * NextIn(rows, r, to) as real else 0.0
  }

  /** The Loan Amount of the segment's rows in one stage whose next row is in the other (once per next row). */
  function Moved(rows: seq<Snapshot>, segment: string, from: Stage, to: Stage): real {
    Sum(rows, MovedFrom(rows, segment, from, to))
  }

  lemma CellOf(segment: string, from: Stage, to: Stage, x: Joined)
    ensures SegmentCell(segment, from, In(to))(x)
         == if x.row.segment == Some(segment) && x.row.staging == In(from) && x.next == In(to) then x.row.amount else 0.0
  {
    assert InSegment(segment)(x) <==> x.row.segment == Some(segment);
  }

  lemma WeightOf(s: Snapshot, r: Snapshot, segment: string, from: Stage, to: Stage)
    ensures MatchWeight(r, SegmentCell(segment, from, In(to)))(s)
         == if r.segment == Some(segment) && r.staging == In(from) && NextRow(s, r) && s.staging == In(to) then r.amount else 0.0
  {
    NextRowFollows(s, r);
    CellOf(segment, from, to, Joined(r, FillMissing(s.staging)));
  }

  lemma OneMore(a: real, n: nat)
    ensures a * (1 + n) as real == a + a * n as real
  {}

  lemma {:induction false} WeightsCount(lookup: seq<Snapshot>, r: Snapshot, segment: string, from: Stage, to: Stage)
    ensures Sum(lookup, MatchWeight(r, SegmentCell(segment, from, In(to))))
         == if r.segment == Some(segment) && r.staging == In(from) then r.amount * NextIn(lookup, r, to) as real else 0.0
  {
    hide NextRow, MatchWeight;
    if lookup == [] {
      assert r.amount * 0.0 == 0.0;
    } else {
      WeightsCount(lookup[1..], r, segment, from, to);
      WeightOf(lookup[0], r, segment, from, to);
      OneMore(r.amount, NextIn(lookup[1..], r, to));
    }
  }

  lemma ContributionIs(rows: seq<Snapshot>, r: Snapshot, segment: string, from: Stage, to: Stage)
    ensures Contribution(rows, SegmentCell(segment, from, In(to)))(r) == MovedFrom(rows, segment, from, to)(r)
  {
    hide SegmentCell, MatchWeight, NextIn, Matches;
    var f := SegmentCell(segment, from, In(to));
    MatchesSum(rows, r, f);
    WeightsCount(rows, r, segment, from, to);
    assert Contribution(rows, f)(r) == Sum(NextMonth(rows, r), f);
    assert MovedFrom(rows, segment, from, to)(r) == Sum(rows, MatchWeight(r, f));
    if Matches(rows, r) == [] {
      CellOf(segment, from, to, Joined(r, Offbooks));
      SumCons(Joined(r, Offbooks), [], f);
      assert [Joined(r, Offbooks)] + [] == [Joined(r, Offbooks)];
      assert Sum(Matches(rows, r), f) == 0.0;
      assert NextMonth(rows, r) == [Joined(r, Offbooks)];
      assert Sum(NextMonth(rows, r), f) == 0.0;
    }
  }

  /** The aggregate matrix of a segment holds exactly what moved between the stages in that segment. */
  lemma AggregateMeans(rows: seq<Snapshot>, segment: string, from: Stage, to: Stage)
    ensures SegmentAggregate(rows, segment).At(from).At(to) == Moved(rows, segment, from, to)
  {
    hide Sum, Filter, JoinNext, Contribution;
    var joined, f := JoinNext(rows, rows), SegmentCell(segment, from, In(to));
    var selected := Filter(joined, InSegment(segment));
    assert SegmentAggregate(rows, segment).At(from).At(to) == Cell(selected, from, In(to));
    SumFilter(joined, InSegment(segment), CellAmount(from, In(to)), f);
    JoinSum(rows, rows, f);
    forall r | r in rows ensures Contribution(rows, f)(r) == MovedFrom(rows, segment, from, to)(r) {
      ContributionIs(rows, r, segment, from, to);
    }
    SumEqual(rows, Contribution(rows, f), MovedFrom(rows, segment, from, to));
  }

  // ----- The first month -----

  /** What of a stage's exposure was still on the books a month later. */
  function OnBooks(rows: seq<Snapshot>, segment: string, from: Stage): real {
    Moved(rows, segment, from, Stage1) + Moved(rows, segment, from, Stage2) + Moved(rows, segment, from, Stage3)
  }

  /** x as a share of what stayed on the books, 0 where nothing did. */
  function ShareOf(x: real, total: real): real { if total > 0.0 then x / total else 0.0 }

  /**
   * One transition: Stage 3 stays, Stage 2 moves as its exposure did, and Stage 1 moves as its exposure did except that
   * what defaulted within the month is taken to have moved to Stage 2.
   */
  function OneMonth(rows: seq<Snapshot>, segment: string, from: Stage, to: Stage): real {
    var total := OnBooks(rows, segment, from);
    match (from, to)
    case (Stage3, Stage3) => 1.0
    case (Stage3, _) => 0.0
    case (Stage1, Stage3) => 0.0
    case (Stage1, Stage2) => ShareOf(Moved(rows, segment, Stage1, Stage2), total) + ShareOf(Moved(rows, segment, Stage1, Stage3), total)
    case (_, _) => ShareOf(Moved(rows, segment, from, to), total)
  }

  lemma SegmentMatrixMeans(rows: seq<Snapshot>, segment: string, from: Stage, to: Stage)
    ensures SegmentMatrix(rows, segment).At(from).At(to) == OneMonth(rows, segment, from, to)
    ensures SegmentCure(rows, segment)
         == ShareOf(Moved(rows, segment, Stage3, Stage1), OnBooks(rows, segment, Stage3))
          + ShareOf(Moved(rows, segment, Stage3, Stage2), OnBooks(rows, segment, Stage3))
  {
    hide Moved, SegmentAggregate;
    forall a: Stage, b: Stage ensures SegmentAggregate(rows, segment).At(a).At(b) == Moved(rows, segment, a, b) {
      AggregateMeans(rows, segment, a, b);
    }
    MatrixMeans(rows, segment, SegmentAggregate(rows, segment), from, to);
  }

  lemma MatrixMeans(rows: seq<Snapshot>, segment: string, m: Matrix, from: Stage, to: Stage)
    requires forall a: Stage, b: Stage :: m.At(a).At(b) == Moved(rows, segment, a, b)
    ensures Normalise(Proportions(m)).At(from).At(to) == OneMonth(rows, segment, from, to)
    ensures CureRate(Proportions(m))
         == ShareOf(Moved(rows, segment, Stage3, Stage1), OnBooks(rows, segment, Stage3))
          + ShareOf(Moved(rows, segment, Stage3, Stage2), OnBooks(rows, segment, Stage3))
  {
    hide Moved;
    forall a: Stage ensures m.At(a).Total() == OnBooks(rows, segment, a) {
      assert m.At(a).At(Stage1) == Moved(rows, segment, a, Stage1);
      assert m.At(a).At(Stage2) == Moved(rows, segment, a, Stage2);
      assert m.At(a).At(Stage3) == Moved(rows, segment, a, Stage3);
    }
    forall a: Stage, b: Stage ensures RowShare(m.At(a)).At(b) == ShareOf(Moved(rows, segment, a, b), OnBooks(rows, segment, a)) {
      assert m.At(a).At(b) == Moved(rows, segment, a, b);
    }
  }

  // ----- The table -----

  /** A row of the table is the one its key determines. */
  lemma RowOfTable(input: seq<Snapshot>, x: PdRow)
    requires x in PdTable(input)
    ensures 1 <= x.month <= MAX_PD_MONTH && x.segment in SegmentNames(Dedupe(input))
    ensures x == TableRow(x.segment, SegmentMatrix(Dedupe(input), x.segment), SegmentCure(Dedupe(input), x.segment), x.transition, x.month)
  {
    hide PdTable, TableRow, SegmentMatrix, SegmentCure, SegmentNames;
    FilterMembers(PdTable(input), HasKey(x.segment, x.month, x.transition));
    assert HasKey(x.segment, x.month, x.transition)(x);
    PdTableLookup(input, x.segment, x.month, x.transition);
  }

  lemma NamedInSegment(rows: seq<Snapshot>, segment: string)
    ensures segment in SegmentNames(rows) <==> exists r :: r in rows && r.segment == Some(segment)
  {
    NamedSegmentsMembers(rows);
    Text.SortedDistinctSpec(NamedSegments(rows));
  }

  predicate SameLine(x: PdRow, y: PdRow) { x.segment == y.segment && x.month == y.month && x.transition == y.transition }

  /** The table's keys: one row for each segment of the deduplicated history, month from 1 to 299 and stage, and no other row. */
  lemma PdTableKeys(input: seq<Snapshot>, segment: string, month: int, stage: Stage)
    ensures (exists x :: x in PdTable(input) && x.segment == segment && x.month == month && x.transition == stage)
       <==> 1 <= month <= 299 && exists r :: r in Dedupe(input) && r.segment == Some(segment)
    ensures forall x, y :: x in PdTable(input) && y in PdTable(input) && SameLine(x, y) ==> x == y
  {
    hide PdTable, SegmentMatrix, SegmentCure, SegmentNames, Dedupe, Power;
    NamedInSegment(Dedupe(input), segment);
    PdTableLookup(input, segment, month, stage);
    FilterMembers(PdTable(input), HasKey(segment, month, stage));
    if segment in SegmentNames(Dedupe(input)) && 1 <= month <= MAX_PD_MONTH {
      var x := TableRow(segment, SegmentMatrix(Dedupe(input), segment), SegmentCure(Dedupe(input), segment), stage, month);
      assert x in Filter(PdTable(input), HasKey(segment, month, stage));
    }
    forall x, y | x in PdTable(input) && y in PdTable(input) && SameLine(x, y) ensures x == y
    {
      RowOfTable(input, x);
      RowOfTable(input, y);
    }
    if x :| x in PdTable(input) && x.segment == segment && x.month == month && x.transition == stage {
      RowOfTable(input, x);
    }
  }

  lemma FirstPower(m: Matrix)
    ensures Power(m, 1) == m
  {
    assert Power(m, 0) == IDENTITY;
  }

  /** The first month's rows are the segment's one-month transition, and every row carries the segment's cure rate. */
  lemma PdFirstMonthMeans(input: seq<Snapshot>, x: PdRow)
    requires x in PdTable(input)
    ensures x.month == 1 ==>
              && x.s1 == OneMonth(Dedupe(input), x.segment, x.transition, Stage1)
              && x.s2 == OneMonth(Dedupe(input), x.segment, x.transition, Stage2)
              && x.s3 == OneMonth(Dedupe(input), x.segment, x.transition, Stage3)
              && x.marginalPd == x.s3
    ensures x.cureRate == ShareOf(Moved(Dedupe(input), x.segment, Stage3, Stage1), OnBooks(Dedupe(input), x.segment, Stage3))
                        + ShareOf(Moved(Dedupe(input), x.segment, Stage3, Stage2), OnBooks(Dedupe(input), x.segment, Stage3))
  {
    hide PdTable, SegmentMatrix, SegmentCure, SegmentNames, Dedupe, Power, OneMonth, Moved, OnBooks;
    RowOfTable(input, x);
    var rows := Dedupe(input);
    SegmentMatrixMeans(rows, x.segment, x.transition, Stage1);
    SegmentMatrixMeans(rows, x.segment, x.transition, Stage2);
    SegmentMatrixMeans(rows, x.segment, x.transition, Stage3);
    FirstPower(SegmentMatrix(rows, x.segment));
  }

  lemma PowerForward(m: Matrix, n: nat, stage: Stage)
    ensures Power(m, n + 1).At(stage) == Times(Power(m, n).At(stage), m)
  {
    hide Power, Times;
    PowerAdd(m, n, 1);
    FirstPower(m);
  }

  /**
   * Each later month follows from the month before by one more transition, and its marginal PD is the step of the
   * Stage 3 probability over what had survived, 0 once at most 10^-15 had.
   */
  lemma PdMonthFollows(input: seq<Snapshot>, x: PdRow, y: PdRow)
    requires x in PdTable(input) && y in PdTable(input)
    requires x.segment == y.segment && x.transition == y.transition && x.month == y.month + 1
    ensures x.s1 == y.s1 * OneMonth(Dedupe(input), x.segment, Stage1, Stage1) + y.s2 * OneMonth(Dedupe(input), x.segment, Stage2, Stage1)
                  + y.s3 * OneMonth(Dedupe(input), x.segment, Stage3, Stage1)
    ensures x.s2 == y.s1 * OneMonth(Dedupe(input), x.segment, Stage1, Stage2) + y.s2 * OneMonth(Dedupe(input), x.segment, Stage2, Stage2)
                  + y.s3 * OneMonth(Dedupe(input), x.segment, Stage3, Stage2)
    ensures x.s3 == y.s1 * OneMonth(Dedupe(input), x.segment, Stage1, Stage3) + y.s2 * OneMonth(Dedupe(input), x.segment, Stage2, Stage3)
                  + y.s3 * OneMonth(Dedupe(input), x.segment, Stage3, Stage3)
    ensures x.marginalPd == if 1.0 - y.s3 <= 0.000000000000001 then 0.0 else (x.s3 - y.s3) / (1.0 - y.s3)
  {
    hide PdTable, SegmentMatrix, SegmentCure, SegmentNames, Dedupe, Power, OneMonth;
    RowOfTable(input, x);
    RowOfTable(input, y);
    var rows := Dedupe(input);
    var m := SegmentMatrix(rows, x.segment);
    PowerForward(m, y.month, x.transition);
    forall a: Stage, b: Stage ensures m.At(a).At(b) == OneMonth(rows, x.segment, a, b) {
      SegmentMatrixMeans(rows, x.segment, a, b);
    }
    MonthStep(m, Power(m, y.month).At(x.transition), Power(m, x.month).At(x.transition), rows, x.segment);
    assert Stage3Curve(m, x.transition)[y.month - 1] == y.s3 && Stage3Curve(m, x.transition)[x.month - 1] == x.s3;
  }

  lemma MonthStep(m: Matrix, before: Row, after: Row, rows: seq<Snapshot>, segment: string)
    requires after == Times(before, m)
    requires forall a: Stage, b: Stage :: m.At(a).At(b) == OneMonth(rows, segment, a, b)
    ensures forall b: Stage :: after.At(b) == before.s1 * OneMonth(rows, segment, Stage1, b) + before.s2 * OneMonth(rows, segment, Stage2, b)
                                            + before.s3 * OneMonth(rows, segment, Stage3, b)
  {
    hide OneMonth;
    forall b: Stage
      ensures after.At(b) == before.s1 * OneMonth(rows, segment, Stage1, b) + before.s2 * OneMonth(rows, segment, Stage2, b)
                           + before.s3 * OneMonth(rows, segment, Stage3, b)
    {
      assert m.At(Stage1).At(b) == OneMonth(rows, segment, Stage1, b);
      assert m.At(Stage2).At(b) == OneMonth(rows, segment, Stage2, b);
      assert m.At(Stage3).At(b) == OneMonth(rows, segment, Stage3, b);
    }
  }
}
