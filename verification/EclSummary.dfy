/** build_ecl_aggregates: loan groups, and the segment, stage and portfolio totals taken from them. */
module EclSummary {
  import opened RealMath
  import opened TransitionMatrix
  import opened NextMonthJoin
  import opened PdEngine
  import opened Snapshots
  import opened Collateral
  import opened EadEngine
  import opened EclLoss
  import opened EadMeaning

  /** The columns ecl_by_loan groups on. */
  datatype LoanKey = LoanKey(id: string, customer: string, segment: string, staging: Staging)

  datatype LoanEcl = LoanEcl(key: LoanKey, total: real)

  function KeyOfLoan(loan: Loan): LoanKey { LoanKey(loan.id, loan.customer, loan.segment, loan.staging) }

  function KeyOf(r: EclRow): LoanKey { KeyOfLoan(r.walk.loan) }

  function HasKeyOf(key: LoanKey): EclRow -> bool { (r: EclRow) => KeyOf(r) == key }

  /** The distinct keys, in order of first appearance. */
  function Keys(rows: seq<EclRow>): seq<LoanKey> {
    if rows == [] then []
    else
      var before := Keys(rows[..|rows| - 1]);
      var key := KeyOf(rows[|rows| - 1]);
      if key in before then before else before + [key]
  }

  function GroupOf(rows: seq<EclRow>): LoanKey -> LoanEcl {
    (key: LoanKey) => LoanEcl(key, Sum(Filter(rows, HasKeyOf(key)), DiscountedEcl()))
  }

  /** One line per key with the sum of its rows. */
  function Lines(rows: seq<EclRow>, keys: seq<LoanKey>): seq<LoanEcl> {
    seq(|keys|, i requires 0 <= i < |keys| => GroupOf(rows)(keys[i]))
  }

  /** ecl_by_loan: a line for every key of the rows. */
  function EclByLoan(rows: seq<EclRow>): seq<LoanEcl> { Lines(rows, Keys(rows)) }

  function LineTotal(): LoanEcl -> real { (g: LoanEcl) => g.total }

  function LineSelected(p: LoanKey -> bool): LoanEcl -> bool { (g: LoanEcl) => p(g.key) }

  function RowSelected(p: LoanKey -> bool): EclRow -> bool { (r: EclRow) => p(KeyOf(r)) }

  /** A total over the loan lines whose key satisfies p: a segment's, a stage's, or everything. */
  function TotalOver(lines: seq<LoanEcl>, p: LoanKey -> bool): real { Sum(Filter(lines, LineSelected(p)), LineTotal()) }

  lemma {:induction false} KeysDistinct(rows: seq<EclRow>)
    ensures forall i, j :: 0 <= i < j < |Keys(rows)| ==> Keys(rows)[i] != Keys(rows)[j]
    ensures forall r :: r in rows ==> KeyOf(r) in Keys(rows)
  {
    if rows != [] {
      var front := rows[..|rows| - 1];
      KeysDistinct(front);
      assert rows == front + [rows[|rows| - 1]];
    }
  }

  /** The rows whose key is among the given ones and satisfies p. */
  function KeyIn(keys: seq<LoanKey>, p: LoanKey -> bool): EclRow -> bool { (r: EclRow) => KeyOf(r) in keys && p(KeyOf(r)) }

  /** Summing group lines over distinct keys is summing the rows that carry those keys. */
  lemma {:induction false} LinesTotal(rows: seq<EclRow>, keys: seq<LoanKey>, p: LoanKey -> bool)
    requires forall i, j :: 0 <= i < j < |keys| ==> keys[i] != keys[j]
    ensures TotalOver(Lines(rows, keys), p) == Sum(Filter(rows, KeyIn(keys, p)), DiscountedEcl())
  {
    hide DiscountedEcl, Sum, Filter;
    if keys == [] {
      NoKeys(rows, p);
    } else {
      var front, key := keys[..|keys| - 1], keys[|keys| - 1];
      LinesTotal(rows, front, p);
      var line := GroupOf(rows)(key);
      assert Lines(rows, keys) == Lines(rows, front) + [line];
      assert keys == front + [key];
      FilterSnoc(Lines(rows, front), line, LineSelected(p));
      if p(key) {
        SumLast(Filter(Lines(rows, front), LineSelected(p)), line, LineTotal());
        SumSplit(rows, KeyIn(front, p), HasKeyOf(key), KeyIn(keys, p), DiscountedEcl());
      } else {
        FilterSame(rows, KeyIn(front, p), KeyIn(keys, p));
      }
    }
  }

  lemma NoKeys(rows: seq<EclRow>, p: LoanKey -> bool)
    ensures TotalOver(Lines(rows, []), p) == Sum(Filter(rows, KeyIn([], p)), DiscountedEcl())
  {
    FilterNone(rows, KeyIn([], p));
  }

  lemma {:induction false} FilterSame<T>(s: seq<T>, p: T -> bool, q: T -> bool)
    requires forall x :: x in s ==> p(x) == q(x)
    ensures Filter(s, p) == Filter(s, q)
  {
    if s != [] {
      FilterSame(s[1..], p, q);
    }
  }

  /** The two-level grouping loses nothing: a total over loan lines is the total over the underlying rows. */
  lemma GroupingConserves(rows: seq<EclRow>, p: LoanKey -> bool)
    ensures TotalOver(EclByLoan(rows), p) == Sum(Filter(rows, RowSelected(p)), DiscountedEcl())
  {
    hide DiscountedEcl, Sum, Filter;
    KeysDistinct(rows);
    LinesTotal(rows, Keys(rows), p);
    FilterSame(rows, KeyIn(Keys(rows), p), RowSelected(p));
  }

  function Anything(): LoanKey -> bool { (key: LoanKey) => true }

  function InSegmentKey(segment: string): LoanKey -> bool { (key: LoanKey) => key.segment == segment }

  function InSegmentsKey(segments: seq<string>): LoanKey -> bool { (key: LoanKey) => key.segment in segments }

  function SegmentEcl(lines: seq<LoanEcl>): string -> real { (segment: string) => TotalOver(lines, InSegmentKey(segment)) }

  lemma {:induction false} SegmentsSum(lines: seq<LoanEcl>, segments: seq<string>)
    requires forall i, j :: 0 <= i < j < |segments| ==> segments[i] != segments[j]
    ensures Sum(segments, SegmentEcl(lines)) == TotalOver(lines, InSegmentsKey(segments))
  {
    hide Filter;
    if segments == [] {
      FilterNone(lines, LineSelected(InSegmentsKey(segments)));
    } else {
      SegmentsSum(lines, segments[1..]);
      assert segments == [segments[0]] + segments[1..];
      SumSplit(lines, LineSelected(InSegmentKey(segments[0])), LineSelected(InSegmentsKey(segments[1..])),
               LineSelected(InSegmentsKey(segments)), LineTotal());
    }
  }

  /** The segment totals add up to the portfolio's Total ECL, which is the sum of every row's Discounted ECL. */
  lemma SegmentTotalsAddUp(rows: seq<EclRow>, segments: seq<string>)
    requires forall i, j :: 0 <= i < j < |segments| ==> segments[i] != segments[j]
    requires forall r :: r in rows ==> r.walk.loan.segment in segments
    ensures Sum(segments, SegmentEcl(EclByLoan(rows))) == TotalOver(EclByLoan(rows), Anything()) == Sum(rows, DiscountedEcl())
  {
    hide DiscountedEcl, Sum, Filter, EclByLoan, TotalOver;
    SegmentsSum(EclByLoan(rows), segments);
    GroupingConserves(rows, InSegmentsKey(segments));
    GroupingConserves(rows, Anything());
    forall r | r in rows ensures RowSelected(InSegmentsKey(segments))(r) {
      assert KeyOf(r).segment == r.walk.loan.segment;
    }
    FilterAll(rows, RowSelected(InSegmentsKey(segments)));
    FilterAll(rows, RowSelected(Anything()));
  }

  function InStageKey(stage: Stage): LoanKey -> bool { (key: LoanKey) => key.staging == In(stage) }

  lemma JoinedHazard(pd: seq<PdRow>, w: WalkRow, r: EclRow)
    requires r in JoinPd(pd)(w) && !w.loan.staging.In?
    ensures r.walk == w && r.marginalPd == 0.0
  {}

  /** Whatever PD table it is joined with, a row without a stage carries no hazard. */
  lemma {:induction false} NoStageNoHazard(pd: seq<PdRow>, walks: seq<WalkRow>, r: EclRow)
    requires r in Flatten(walks, JoinPd(pd)) && !r.walk.loan.staging.In?
    ensures r.marginalPd == 0.0
  {
    hide JoinPd;
    if r in JoinPd(pd)(walks[0]) {
      JoinedWalk(pd, walks[0], r);
      JoinedHazard(pd, walks[0], r);
    } else {
      NoStageNoHazard(pd, walks[1..], r);
    }
  }

  /** The three stage totals of the engine's rows already make the whole: a row without a stage has no PD entry and so no loss. */
  lemma StageTotalsAddUp(loans: seq<Loan>, pd: seq<PdRow>, lgd: seq<LgdResult>)
    requires ValidLoans(loans) && ValidLgd(lgd)
    ensures var lines := EclByLoan(EclRows(loans, pd, lgd));
            TotalOver(lines, Anything())
            == TotalOver(lines, InStageKey(Stage1)) + TotalOver(lines, InStageKey(Stage2)) + TotalOver(lines, InStageKey(Stage3))
  {
    hide DiscountedEcl, Sum, Filter, EclByLoan, TotalOver, Walks, Flatten, JoinPd, Merge;
    MergeValid(loans, lgd);
    var rows := EclRows(loans, pd, lgd);
    forall r | r in rows && !r.walk.loan.staging.In? ensures r.marginalPd == 0.0 {
      NoStageNoHazard(pd, Walks(Merge(loans, lgd), lgd), r);
    }
    GroupingConserves(rows, InStageKey(Stage1));
    GroupingConserves(rows, InStageKey(Stage2));
    GroupingConserves(rows, InStageKey(Stage3));
    GroupingConserves(rows, Anything());
    FilterAll(rows, RowSelected(Anything()));
    StageSums(rows);
  }

  function LoanSelected(p: LoanKey -> bool): Loan -> bool { (loan: Loan) => p(KeyOfLoan(loan)) }

  lemma ReportedIsGroup(rows: seq<EclRow>, p: LoanKey -> bool)
    ensures TotalOver(EclByLoan(rows), p) == GroupEcl(rows, LoanSelected(p))
  {
    hide DiscountedEcl, Sum, Filter, EclByLoan, TotalOver;
    GroupingConserves(rows, p);
    forall r | r in rows ensures RowSelected(p)(r) == OnLoan(LoanSelected(p))(r) {
      assert LoanSelected(p)(r.walk.loan) == p(KeyOf(r));
    }
    FilterSame(rows, RowSelected(p), OnLoan(LoanSelected(p)));
  }

  /**
   * Weaker collateral inputs never lower any total the workbook reports: the line of any loan, and the totals over
   * any segment, stage or the whole portfolio that are taken from those lines.
   */
  lemma ReportedTotalsMonotone(loans: seq<Loan>, history: seq<Snapshot>,
                               rows: seq<LgdRow>, config: seq<CollateralType>,
                               base: seq<LgdRow>, baseConfig: seq<CollateralType>, p: LoanKey -> bool)
    requires ValidLoans(loans) && NonNegativeAmounts(Dedupe(history))
    requires Weaker(rows, base) && Stricter(config, baseConfig) && NonNegativeOutstanding(base) && ValidRate(base)
    ensures ValidRate(rows) && ValidLgd(LgdTable(rows, config)) && ValidLgd(LgdTable(base, baseConfig))
    ensures var a := EadResult(loans, PdTable(history), LgdTable(rows, config));
            var b := EadResult(loans, PdTable(history), LgdTable(base, baseConfig));
            && (a.Success? <==> b.Success?)
            && (a.Success? ==> TotalOver(EclByLoan(a.value), p) >= TotalOver(EclByLoan(b.value), p))
  {
    hide EadResult, LgdTable, DiscountedEcl, GroupEcl, PdTable, Dedupe, ValidLoans, Stricter, EclByLoan, TotalOver, LoanSelected;
    EclMonotoneInCollateral(loans, history, rows, config, base, baseConfig);
    var a := EadResult(loans, PdTable(history), LgdTable(rows, config));
    var b := EadResult(loans, PdTable(history), LgdTable(base, baseConfig));
    if a.Success? {
      ReportedIsGroup(a.value, p);
      ReportedIsGroup(b.value, p);
    }
  }

  lemma NoHazardNoLoss(r: EclRow)
    requires r.marginalPd == 0.0
    ensures DiscountedEcl()(r) == 0.0
  {
    hide Prod, Lgw, DiscountFactor;
    ProdZero(r.walk.balance);
    ProdZero(LossGivenDefault(Lgw(r.walk.balance, r.walk.collateral), r.cureRate));
    if r.walk.loan.eir >= 0.0 {
      ProdZero(DiscountFactor(r.walk.loan.eir, r.walk.discountPeriod));
    }
  }

  function StageSum(rows: seq<EclRow>, stage: Stage): real { Sum(Filter(rows, RowSelected(InStageKey(stage))), DiscountedEcl()) }

  lemma StageStep(rows: seq<EclRow>, stage: Stage)
    requires rows != []
    ensures StageSum(rows, stage)
         == (if rows[0].walk.loan.staging == In(stage) then DiscountedEcl()(rows[0]) else 0.0) + StageSum(rows[1..], stage)
  {
    hide Sum, Filter, DiscountedEcl;
    assert KeyOf(rows[0]).staging == rows[0].walk.loan.staging;
    SumSelected(rows, RowSelected(InStageKey(stage)), DiscountedEcl());
  }

  lemma {:induction false} StageSums(rows: seq<EclRow>)
    requires forall r :: r in rows && !r.walk.loan.staging.In? ==> r.marginalPd == 0.0
    ensures StageSum(rows, Stage1) + StageSum(rows, Stage2) + StageSum(rows, Stage3) == Sum(rows, DiscountedEcl())
  {
    hide DiscountedEcl, StageSum;
    if rows == [] {
      NoStageSums();
    } else {
      StageSums(rows[1..]);
      StageStep(rows, Stage1);
      StageStep(rows, Stage2);
      StageStep(rows, Stage3);
      if rows[0].walk.loan.staging.In? {
        var stage := rows[0].walk.loan.staging.stage;
        assert stage.Stage1? || stage.Stage2? || stage.Stage3?;
      } else {
        NoHazardNoLoss(rows[0]);
      }
    }
  }

  lemma NoStageSums()
    ensures StageSum([], Stage1) == StageSum([], Stage2) == StageSum([], Stage3) == 0.0
  {}

  // ----- The lines and totals in their own terms -----

  /** The row is of the loan, customer, segment and stage of the line. */
  predicate OnLine(line: LoanEcl, r: EclRow) {
    && r.walk.loan.id == line.key.id && r.walk.loan.customer == line.key.customer
    && r.walk.loan.segment == line.key.segment && r.walk.loan.staging == line.key.staging
  }

  function LineAmount(line: LoanEcl): EclRow -> real { (r: EclRow) => if OnLine(line, r) then DiscountedEcl()(r) else 0.0 }

  lemma {:induction false} KeysAre(rows: seq<EclRow>, key: LoanKey)
    ensures key in Keys(rows) <==> exists r :: r in rows && KeyOf(r) == key
  {
    if rows != [] {
      var front, last := rows[..|rows| - 1], rows[|rows| - 1];
      KeysAre(front, key);
      assert rows == front + [last];
      assert last in rows;
    }
  }

  lemma OnLineIsKey(line: LoanEcl, r: EclRow)
    ensures OnLine(line, r) <==> KeyOf(r) == line.key
  {}

  /**
   * ecl_by_loan, spelled out: there is a line for exactly the combinations of loan, customer, segment and stage that occur,
   * one each, and its total is the Discounted ECL of the rows with that combination.
   */
  lemma LinesMean(rows: seq<EclRow>)
    ensures forall r :: r in rows ==> exists i :: 0 <= i < |EclByLoan(rows)| && OnLine(EclByLoan(rows)[i], r)
    ensures forall i, j, r :: 0 <= i < j < |EclByLoan(rows)| ==> !(OnLine(EclByLoan(rows)[i], r) && OnLine(EclByLoan(rows)[j], r))
    ensures forall i :: 0 <= i < |EclByLoan(rows)| ==>
              && (exists r :: r in rows && OnLine(EclByLoan(rows)[i], r))
              && EclByLoan(rows)[i].total == Sum(rows, LineAmount(EclByLoan(rows)[i]))
  {
    hide DiscountedEcl, OnLine, KeyOf, Sum, Filter;
    var keys, lines := Keys(rows), EclByLoan(rows);
    KeysDistinct(rows);
    forall i | 0 <= i < |keys| ensures lines[i].key == keys[i] && lines[i].total == Sum(rows, LineAmount(lines[i])) {
      LineTotalMeans(rows, keys[i], lines[i]);
    }
    forall r | r in rows ensures exists i :: 0 <= i < |lines| && OnLine(lines[i], r) {
      var i :| 0 <= i < |keys| && keys[i] == KeyOf(r);
      OnLineIsKey(lines[i], r);
    }
    forall i | 0 <= i < |lines| ensures exists r :: r in rows && OnLine(lines[i], r) {
      assert keys[i] in keys;
      KeysAre(rows, keys[i]);
      var r :| r in rows && KeyOf(r) == keys[i];
      OnLineIsKey(lines[i], r);
    }
    forall i, j, r | 0 <= i < j < |lines| ensures !(OnLine(lines[i], r) && OnLine(lines[j], r)) {
      OnLineIsKey(lines[i], r);
      OnLineIsKey(lines[j], r);
    }
  }

  lemma LineTotalMeans(rows: seq<EclRow>, key: LoanKey, line: LoanEcl)
    requires line == GroupOf(rows)(key)
    ensures line.key == key && line.total == Sum(rows, LineAmount(line))
  {
    hide DiscountedEcl, OnLine, KeyOf, Sum, Filter;
    forall r | r in rows ensures LineAmount(line)(r) == if HasKeyOf(key)(r) then DiscountedEcl()(r) else 0.0 {
      OnLineIsKey(line, r);
    }
    SumFilter(rows, HasKeyOf(key), DiscountedEcl(), LineAmount(line));
  }

  function SegmentAmount(segment: string): EclRow -> real {
    (r: EclRow) => if r.walk.loan.segment == segment then DiscountedEcl()(r) else 0.0
  }

  function StageAmount(stage: Stage): EclRow -> real {
    (r: EclRow) => if r.walk.loan.staging == In(stage) then DiscountedEcl()(r) else 0.0
  }

  /** A segment's and a stage's reported total is the Discounted ECL of its rows, and the portfolio's that of all rows. */
  lemma TotalsMean(rows: seq<EclRow>, segment: string, stage: Stage)
    ensures TotalOver(EclByLoan(rows), InSegmentKey(segment)) == Sum(rows, SegmentAmount(segment))
    ensures TotalOver(EclByLoan(rows), InStageKey(stage)) == Sum(rows, StageAmount(stage))
    ensures TotalOver(EclByLoan(rows), Anything()) == Sum(rows, DiscountedEcl())
  {
    hide DiscountedEcl, Sum, Filter, TotalOver, EclByLoan;
    GroupingConserves(rows, InSegmentKey(segment));
    GroupingConserves(rows, InStageKey(stage));
    GroupingConserves(rows, Anything());
    forall r ensures RowSelected(InSegmentKey(segment))(r) <==> r.walk.loan.segment == segment {
      assert InSegmentKey(segment)(KeyOf(r)) <==> r.walk.loan.segment == segment;
    }
    forall r ensures RowSelected(InStageKey(stage))(r) <==> r.walk.loan.staging == In(stage) {
      assert InStageKey(stage)(KeyOf(r)) <==> r.walk.loan.staging == In(stage);
    }
    SumFilter(rows, RowSelected(InSegmentKey(segment)), DiscountedEcl(), SegmentAmount(segment));
    SumFilter(rows, RowSelected(InStageKey(stage)), DiscountedEcl(), StageAmount(stage));
    FilterAll(rows, RowSelected(Anything()));
  }
}
