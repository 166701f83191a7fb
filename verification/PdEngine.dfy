/** compute_pd as a whole: its long-form table, keyed by (segment, month, starting stage). */
module PdEngine {
  import opened Wrappers
  import opened RealMath
  import opened TransitionMatrix
  import opened MarginalPd
  import opened NextMonthJoin
  import opened ExposureFlows
  import Text

  datatype PdRow = PdRow(segment: string, month: int, transition: Stage,
                         s1: real, s2: real, s3: real, marginalPd: real, cureRate: real)

  function NamedSegments(rows: seq<Snapshot>): seq<string> {
    if rows == [] then []
    else (if rows[0].segment.Some? then [rows[0].segment.value] else []) + NamedSegments(rows[1..])
  }

  function SegmentNames(rows: seq<Snapshot>): seq<string> { Text.SortedDistinct(NamedSegments(rows)) }

  /** One line of the table, from the normalised matrix of its segment. */
  function TableRow(segment: string, normalized: Matrix, cure: real, stage: Stage, month: int): PdRow
    requires 1 <= month <= MAX_PD_MONTH
  {
    var p := Power(normalized, month).At(stage);
    PdRow(segment, month, stage, p.s1, p.s2, p.s3, MarginalPdAt(normalized, stage, month), cure)
  }

  /** One (segment, transition) group in month order. */
  function GroupRows(segment: string, normalized: Matrix, cure: real, stage: Stage): (g: seq<PdRow>)
    ensures |g| == MAX_PD_MONTH
  {
    seq(MAX_PD_MONTH, i requires 0 <= i < MAX_PD_MONTH => TableRow(segment, normalized, cure, stage, i + 1))
  }

  function SegmentTable(segment: string, proportions: Matrix): seq<PdRow> {
    var normalized, cure := Normalise(proportions), CureRate(proportions);
    GroupRows(segment, normalized, cure, Stage1)
    + GroupRows(segment, normalized, cure, Stage2)
    + GroupRows(segment, normalized, cure, Stage3)
  }

  function SegmentLines(rows: seq<Snapshot>): string -> seq<PdRow> {
    (segment: string) => SegmentTable(segment, Proportions(SegmentAggregate(rows, segment)))
  }

  /** The table compute_pd returns, sorted by segment, transition and month. */
  function PdTable(input: seq<Snapshot>): seq<PdRow> {
    var rows := Dedupe(input);
    Flatten(SegmentNames(rows), SegmentLines(rows))
  }

  method BuildGroup(segment: string, normalized: Matrix, cure: real, stage: Stage) returns (group: seq<PdRow>)
    ensures group == GroupRows(segment, normalized, cure, stage)
  {
    hide Power;
    var s3: seq<real> := [];
    for month := 1 to MAX_PD_MONTH + 1
      invariant s3 == Stage3Curve(normalized, stage)[..month - 1]
    {
      var powered := MatrixPower(normalized, month);
      s3 := s3 + [powered.At(stage).s3];
    }
    assert s3 == Stage3Curve(normalized, stage);
    var hazards := ComputeMarginalPd(s3);
    var marginal := hazards[..];
    group := [];
    for month := 1 to MAX_PD_MONTH + 1
      invariant group == GroupRows(segment, normalized, cure, stage)[..month - 1]
    {
      var powered := MatrixPower(normalized, month);
      var p := powered.At(stage);
      assert marginal[month - 1] == MarginalPdAt(normalized, stage, month);
      assert GroupRows(segment, normalized, cure, stage)[month - 1] == TableRow(segment, normalized, cure, stage, month);
      group := group + [PdRow(segment, month, stage, p.s1, p.s2, p.s3, marginal[month - 1], cure)];
    }
  }

  method BuildSegment(rows: seq<Snapshot>, joined: seq<Joined>, segment: string) returns (lines: seq<PdRow>, cure: real)
    requires joined == JoinNext(rows, rows)
    ensures lines == SegmentLines(rows)(segment)
    ensures cure == SegmentCure(rows, segment)
  {
    hide Proportions, Normalise, CureRate, Flows, GroupRows;
    var aggregate := AggregateMonths(Filter(joined, InSegment(segment)));
    var normalized;
    normalized, cure := NormaliseAggregate(aggregate);
    var g1 := BuildGroup(segment, normalized, cure, Stage1);
    var g2 := BuildGroup(segment, normalized, cure, Stage2);
    var g3 := BuildGroup(segment, normalized, cure, Stage3);
    lines := g1 + g2 + g3;
  }

  method ComputePd(input: seq<Snapshot>) returns (table: seq<PdRow>, cureRates: map<string, real>)
    ensures table == PdTable(input)
    ensures cureRates.Keys == set name | name in SegmentNames(Dedupe(input))
    ensures forall name :: name in cureRates ==> cureRates[name] == SegmentCure(Dedupe(input), name)
  {
    hide Flatten, SegmentCure, JoinNext, SegmentNames, SegmentLines;
    var rows := Dedupe(input);
    var joined := JoinNext(rows, rows);
    var segments := SegmentNames(rows);
    table, cureRates := [], map[];
    EmptyTable(rows, segments);
    for s := 0 to |segments|
      invariant table == Flatten(segments[..s], SegmentLines(rows))
      invariant cureRates.Keys == set name | name in segments[..s]
      invariant forall name :: name in cureRates ==> cureRates[name] == SegmentCure(rows, name)
    {
      var lines, cure := BuildSegment(rows, joined, segments[s]);
      FlattenSnoc(segments, s, SegmentLines(rows));
      table, cureRates := table + lines, cureRates[segments[s] := cure];
    }
    assert segments[..|segments|] == segments;
  }

  lemma EmptyTable(rows: seq<Snapshot>, names: seq<string>)
    ensures Flatten(names[..0], SegmentLines(rows)) == []
  {}

  // ----- The table is a function of (segment, month, stage) -----

  function HasKey(segment: string, month: int, stage: Stage): PdRow -> bool {
    (r: PdRow) => r.segment == segment && r.month == month && r.transition == stage
  }

  lemma GroupLookup(segment: string, normalized: Matrix, cure: real, stage: Stage, month: int)
    ensures Filter(GroupRows(segment, normalized, cure, stage), HasKey(segment, month, stage))
         == if 1 <= month <= MAX_PD_MONTH then [TableRow(segment, normalized, cure, stage, month)] else []
  {
    hide TableRow;
    var group, key := GroupRows(segment, normalized, cure, stage), HasKey(segment, month, stage);
    forall i | 0 <= i < |group| ensures key(group[i]) <==> i + 1 == month {
      TableRowKey(segment, normalized, cure, stage, i + 1);
    }
    if 1 <= month <= MAX_PD_MONTH {
      FilterOne(group, key, month - 1);
    } else {
      FilterNone(group, key);
    }
  }

  lemma TableRowKey(segment: string, normalized: Matrix, cure: real, stage: Stage, month: int)
    requires 1 <= month <= MAX_PD_MONTH
    ensures var r := TableRow(segment, normalized, cure, stage, month);
            r.segment == segment && r.month == month && r.transition == stage
  {}

  lemma GroupMisses(segment: string, normalized: Matrix, cure: real, stage: Stage, name: string, month: int, other: Stage)
    requires name != segment || other != stage
    ensures Filter(GroupRows(segment, normalized, cure, stage), HasKey(name, month, other)) == []
  {
    hide TableRow;
    forall i | 0 <= i < MAX_PD_MONTH
      ensures !HasKey(name, month, other)(GroupRows(segment, normalized, cure, stage)[i])
    {
      TableRowKey(segment, normalized, cure, stage, i + 1);
    }
    FilterNone(GroupRows(segment, normalized, cure, stage), HasKey(name, month, other));
  }

  lemma SegmentLookup(segment: string, proportions: Matrix, name: string, month: int, stage: Stage)
    ensures Filter(SegmentTable(segment, proportions), HasKey(name, month, stage))
         == if name == segment && 1 <= month <= MAX_PD_MONTH
            then [TableRow(segment, Normalise(proportions), CureRate(proportions), stage, month)] else []
  {
    hide GroupRows, TableRow, Normalise, CureRate;
    var normalized, cure, key := Normalise(proportions), CureRate(proportions), HasKey(name, month, stage);
    var g1 := GroupRows(segment, normalized, cure, Stage1);
    var g2 := GroupRows(segment, normalized, cure, Stage2);
    var g3 := GroupRows(segment, normalized, cure, Stage3);
    FilterAppend(g1 + g2, g3, key);
    FilterAppend(g1, g2, key);
    forall s: Stage
      ensures Filter(GroupRows(segment, normalized, cure, s), key)
           == if s == stage && name == segment && 1 <= month <= MAX_PD_MONTH
              then [TableRow(segment, normalized, cure, stage, month)] else []
    {
      if s == stage && name == segment {
        GroupLookup(segment, normalized, cure, stage, month);
      } else {
        GroupMisses(segment, normalized, cure, s, name, month, stage);
      }
    }
    assert stage.Stage1? || stage.Stage2? || stage.Stage3?;
  }

  lemma {:induction false} TableLookup(rows: seq<Snapshot>, names: seq<string>, name: string, month: int, stage: Stage)
    requires Text.Ascending(names)
    ensures Filter(Flatten(names, SegmentLines(rows)), HasKey(name, month, stage))
         == if name in names && 1 <= month <= MAX_PD_MONTH
            then [TableRow(name, SegmentMatrix(rows, name), SegmentCure(rows, name), stage, month)] else []
  {
    hide SegmentTable, TableRow, Normalise, CureRate, Proportions, SegmentAggregate;
    if names != [] {
      var proportions := Proportions(SegmentAggregate(rows, names[0]));
      SegmentLookup(names[0], proportions, name, month, stage);
      TableLookup(rows, names[1..], name, month, stage);
      FilterAppend(SegmentTable(names[0], proportions), Flatten(names[1..], SegmentLines(rows)), HasKey(name, month, stage));
      Text.LessTotal(names[0], names[0]);
      assert names == [names[0]] + names[1..];
    }
  }

  /** The normalised transition matrix of a segment. */
  function SegmentMatrix(rows: seq<Snapshot>, segment: string): Matrix {
    Normalise(Proportions(SegmentAggregate(rows, segment)))
  }

  function SegmentCure(rows: seq<Snapshot>, segment: string): real {
    CureRate(Proportions(SegmentAggregate(rows, segment)))
  }

  /** The PD table has exactly one row for each (segment, month 1..299, stage) and no other row. */
  lemma PdTableLookup(input: seq<Snapshot>, name: string, month: int, stage: Stage)
    ensures Filter(PdTable(input), HasKey(name, month, stage))
         == if name in SegmentNames(Dedupe(input)) && 1 <= month <= MAX_PD_MONTH
            then [TableRow(name, SegmentMatrix(Dedupe(input), name), SegmentCure(Dedupe(input), name), stage, month)]
            else []
  {
    hide Flatten, TableRow;
    var rows := Dedupe(input);
    Text.SortedDistinctSpec(NamedSegments(rows));
    TableLookup(rows, SegmentNames(rows), name, month, stage);
  }

  // ----- Order independence of the whole table -----

  lemma {:induction false} NamedSegmentsMembers(rows: seq<Snapshot>)
    ensures forall name :: name in NamedSegments(rows) <==> exists r :: r in rows && r.segment == Some(name)
  {
    if rows != [] {
      NamedSegmentsMembers(rows[1..]);
      assert rows == [rows[0]] + rows[1..];
      assert rows[0] in rows;
    }
  }

  lemma {:induction false} TablePermutes(rows: seq<Snapshot>, other: seq<Snapshot>, names: seq<string>)
    requires multiset(rows) == multiset(other)
    ensures Flatten(names, SegmentLines(rows)) == Flatten(names, SegmentLines(other))
  {
    hide SegmentTable, Proportions, SegmentAggregate;
    if names != [] {
      AggregatePermutes(rows, other, names[0]);
      TablePermutes(rows, other, names[1..]);
    }
  }

  /** Two positions of a sequence are two occurrences in any permutation of it. */
  lemma TwoPositions(s: seq<Snapshot>, t: seq<Snapshot>, i: nat, j: nat) returns (a: nat, b: nat)
    requires multiset(s) == multiset(t) && i < j < |t|
    ensures a < |s| && b < |s| && a != b && s[a] == t[i] && s[b] == t[j]
  {
    a := IndexOf(t[i], t, s);
    assert t == t[..j] + [t[j]] + t[j + 1..];
    assert t[..j][i] == t[i] && t[i] in multiset(t[..j]);
    assert t[j] in multiset(t) - multiset{t[i]};
    b := OtherIndex(s, a, t[j]);
  }

  lemma OtherIndex(s: seq<Snapshot>, a: nat, y: Snapshot) returns (b: nat)
    requires a < |s| && y in multiset(s) - multiset{s[a]}
    ensures b < |s| && b != a && s[b] == y
  {
    RemoveAt(s, a);
    var rest := s[..a] + s[a + 1..];
    assert y in multiset(rest);
    var c :| 0 <= c < |rest| && rest[c] == y;
    b := if c < a then c else c + 1;
  }

  lemma UniqueKeysPermute(input: seq<Snapshot>, other: seq<Snapshot>)
    requires multiset(input) == multiset(other) && UniqueKeys(input)
    ensures UniqueKeys(other)
  {
    forall i, j | 0 <= i < j < |other| ensures !SameKey(other[i], other[j]) {
      var a, b := TwoPositions(input, other, i, j);
    }
  }

  /** With no duplicate (Loan ID, date) keys, every permutation of the input rows gives the same PD table. */
  lemma PdTablePermutes(input: seq<Snapshot>, other: seq<Snapshot>)
    requires multiset(input) == multiset(other) && UniqueKeys(input)
    ensures PdTable(input) == PdTable(other)
  {
    hide Flatten;
    UniqueKeysPermute(input, other);
    DedupeUnique(input);
    DedupeUnique(other);
    SameMembers(input, other);
    NamedSegmentsMembers(input);
    NamedSegmentsMembers(other);
    Text.SortedDistinctSpec(NamedSegments(input));
    Text.SortedDistinctSpec(NamedSegments(other));
    Text.AscendingUnique(SegmentNames(input), SegmentNames(other));
    TablePermutes(input, other, SegmentNames(input));
  }

  // ----- What the table's numbers are, for every portfolio -----

  predicate NonNegativeAmounts(rows: seq<Snapshot>) {
    forall r :: r in rows ==> r.amount >= 0.0
  }

  lemma FlowsNonNegative(rows: seq<Joined>)
    requires forall x :: x in rows ==> x.row.amount >= 0.0
    ensures Flows(rows).NonNegative()
  {
    hide Cell;
    forall from, to ensures Cell(rows, from, to) >= 0.0 {
      CellNonNegative(rows, from, to);
    }
  }

  lemma CellNonNegative(rows: seq<Joined>, from: Stage, to: Staging)
    requires forall x :: x in rows ==> x.row.amount >= 0.0
    ensures Cell(rows, from, to) >= 0.0
  {
    SumNonNegative(rows, CellAmount(from, to));
  }

  lemma SegmentMatrixNormal(rows: seq<Snapshot>, segment: string)
    requires NonNegativeAmounts(rows)
    ensures NormalForm(SegmentMatrix(rows, segment),
                       SegmentAggregate(rows, segment).r1.Total() > 0.0, SegmentAggregate(rows, segment).r2.Total() > 0.0)
    ensures IsProbability(SegmentCure(rows, segment))
  {
    hide NormalForm, Proportions, Normalise, CureRate, Flows;
    var joined := JoinNext(rows, rows);
    FilterMembers(joined, InSegment(segment));
    var selected := Filter(joined, InSegment(segment));
    forall x | x in selected ensures x.row.amount >= 0.0 {
      JoinMember(rows, rows, x);
    }
    FlowsNonNegative(selected);
    NormaliseProportions(Flows(selected));
  }

  /** Every power of a segment's matrix is a table of probabilities, with full rows when Stage 1 and Stage 2 saw exposure. */
  lemma SegmentPowersSound(rows: seq<Snapshot>, segment: string, n: nat)
    requires NonNegativeAmounts(rows)
    ensures Substochastic(Power(SegmentMatrix(rows, segment), n))
    ensures SegmentAggregate(rows, segment).r1.Total() > 0.0 && SegmentAggregate(rows, segment).r2.Total() > 0.0
            ==> Power(SegmentMatrix(rows, segment), n).r1.Total() == 1.0 && Power(SegmentMatrix(rows, segment), n).r2.Total() == 1.0
  {
    hide SegmentMatrix, Power, SegmentAggregate;
    SegmentMatrixNormal(rows, segment);
    PowerSubstochastic(SegmentMatrix(rows, segment), n);
  }

  /** What holds of a segment's curves in month n. */
  ghost predicate SoundCurves(m: Matrix, stage: Stage, n: nat)
    requires 1 <= n <= MAX_PD_MONTH
  {
    && 0.0 <= CumulativePd(m, stage, n) <= CumulativePd(m, stage, n + 1) <= 1.0
    && CumulativePd(m, Stage1, n) <= CumulativePd(m, Stage2, n) <= CumulativePd(m, Stage3, n) == 1.0
    && CumulativePd(m, Stage1, n + 1) <= CumulativePd(m, Stage2, n)
    && IsProbability(MarginalPdAt(m, stage, n))
    && 1.0 - CumulativePd(m, stage, n) <= Survival(Stage3Curve(m, stage), n)
         <= 1.0 - CumulativePd(m, stage, n) + DENOM_EPS
  }

  lemma NormalisedCurvesSound(m: Matrix, stage: Stage, n: nat)
    requires Normalised(m) && 1 <= n <= MAX_PD_MONTH
    ensures SoundCurves(m, stage, n)
  {
    hide CumulativePd, Survival, Hazard, Curve;
    CumulativeGrows(m, stage, n);
    CumulativeOrder(m, n);
    Stage3CurveIsCurve(m, stage);
    SurvivalIdentity(Stage3Curve(m, stage), n);
  }

  /**
   * For every portfolio with non-negative amounts and every month 1..299: cumulative PDs are
   * ordered by stage, never fall, and the marginal PDs survive to what the cumulative PD leaves.
   */
  lemma PdCurvesSound(rows: seq<Snapshot>, segment: string, stage: Stage, n: nat)
    requires NonNegativeAmounts(rows) && 1 <= n <= MAX_PD_MONTH
    ensures SoundCurves(SegmentMatrix(rows, segment), stage, n)
  {
    hide SegmentMatrix, SoundCurves, Normalised;
    SegmentMatrixNormal(rows, segment);
    NormalisedCurvesSound(SegmentMatrix(rows, segment), stage, n);
  }
}
