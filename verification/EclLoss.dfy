/** The loss columns of compute_ead and how collateral moves them, from the LGD inputs to the portfolio total. */
module EclLoss {
  import opened RealMath
  import opened TransitionMatrix
  import opened MarginalPd
  import opened NextMonthJoin
  import opened PdEngine
  import opened BalanceWalk
  import opened Snapshots
  import opened Collateral
  import opened EadEngine

  // ----- LGW, LGD, credit loss, discounting (ead_engine.py:368-392) -----

  /** The share of the balance that collateral does not cover. */
  function Lgw(balance: real, collateral: real): real {
    if balance <= 0.0 then 0.0 else Max(1.0 - Ratio(collateral, balance), 0.0)
  }

  function LossGivenDefault(lgw: real, cureRate: real): real { Prod(lgw, 1.0 - cureRate) }

  function CreditLoss(balance: real, marginalPd: real, lgd: real): real { Prod(Prod(balance, marginalPd), lgd) }

  /** (1 + eir/12)^(-period); paragraph B5.5.44 of IFRS 9 discounts at the effective interest rate. */
  function DiscountFactor(eir: real, period: nat): real
    requires eir >= 0.0
  {
    if period > 0 then
      PowGrows(1.0 + eir / 12.0, period, period);
      Ratio(1.0, Pow(1.0 + eir / 12.0, period))
    else 1.0
  }

  function RowLoss(r: EclRow): real {
    CreditLoss(r.walk.balance, r.marginalPd, LossGivenDefault(Lgw(r.walk.balance, r.walk.collateral), r.cureRate))
  }

  /** The Discounted ECL column; rates are non-negative on every row compute_ead emits. */
  function DiscountedEcl(): EclRow -> real {
    (r: EclRow) => if r.walk.loan.eir < 0.0 then 0.0 else Prod(RowLoss(r), DiscountFactor(r.walk.loan.eir, r.walk.discountPeriod))
  }

  predicate SoundRow(r: EclRow) {
    && r.walk.balance >= 0.0 && r.walk.collateral >= 0.0 && r.walk.loan.eir >= 0.0
    && IsProbability(r.marginalPd) && IsProbability(r.cureRate)
  }

  lemma Uncovered(balance: real, collateral: real)
    requires balance > 0.0
    ensures balance * Max(1.0 - Ratio(collateral, balance), 0.0) == Max(balance - collateral, 0.0)
  {
    RatioSpec(collateral, balance);
    var c := Ratio(collateral, balance);
    assert balance * (1.0 - c) == balance - collateral;
    if c <= 1.0 {
      NonNegativeProduct(balance, 1.0 - c);
    } else {
      NonNegativeProduct(balance, c - 1.0);
    }
  }

  lemma LgwUnit(balance: real, collateral: real)
    requires balance >= 0.0 && collateral >= 0.0
    ensures 0.0 <= Lgw(balance, collateral) <= 1.0
    ensures balance * Lgw(balance, collateral) == Max(balance - collateral, 0.0)
  {
    hide Ratio, Max;
    MaxFacts(balance, collateral);
    if balance > 0.0 {
      RatioSpec(collateral, balance);
      Uncovered(balance, collateral);
      MaxFacts(1.0, Ratio(collateral, balance));
    }
  }

  lemma MaxFacts(x: real, y: real)
    requires y >= 0.0 && x >= 0.0
    ensures 0.0 <= Max(x - y, 0.0) <= x
  {}

  lemma Regroup4(balance: real, hazard: real, lgw: real, keep: real, uncovered: real)
    requires balance * lgw == uncovered
    ensures Prod(Prod(balance, hazard), Prod(lgw, keep)) == Prod(Prod(uncovered, hazard), keep)
  {
    calc {
      (balance * hazard) * (lgw * keep);
      ((balance * lgw) * hazard) * keep;
      (uncovered * hazard) * keep;
    }
  }

  /** Credit loss is the uncovered balance times the hazard times the share that does not cure. */
  lemma LossIsUncoveredBalance(r: EclRow)
    requires SoundRow(r)
    ensures RowLoss(r) == Prod(Prod(Max(r.walk.balance - r.walk.collateral, 0.0), r.marginalPd), 1.0 - r.cureRate)
  {
    hide Prod, Lgw, Max;
    LgwUnit(r.walk.balance, r.walk.collateral);
    Regroup4(r.walk.balance, r.marginalPd, Lgw(r.walk.balance, r.walk.collateral), 1.0 - r.cureRate,
             Max(r.walk.balance - r.walk.collateral, 0.0));
  }

  lemma DiscountUnit(eir: real, period: nat)
    requires eir >= 0.0
    ensures 0.0 <= DiscountFactor(eir, period) <= 1.0
  {
    hide Pow, Ratio;
    if period > 0 {
      PowGrows(1.0 + eir / 12.0, period, period);
      RatioUnit(1.0, Pow(1.0 + eir / 12.0, period));
    }
  }

  /** Discounting undoes accrual: compounded back over its period, the Discounted ECL is the credit loss. */
  lemma DiscountingUndoesAccrual(r: EclRow)
    requires r.walk.loan.eir >= 0.0
    ensures Compound(DiscountedEcl()(r), r.walk.loan.eir / 12.0, r.walk.discountPeriod) == RowLoss(r)
  {
    hide RowLoss, Ratio, Pow;
    var rate, n, loss := r.walk.loan.eir / 12.0, r.walk.discountPeriod, RowLoss(r);
    PowGrows(1.0 + rate, n, n);
    if n > 0 {
      RatioSpec(1.0, Pow(1.0 + rate, n));
      Undo(loss, Ratio(1.0, Pow(1.0 + rate, n)), Pow(1.0 + rate, n));
    } else {
      PowZero(1.0 + rate);
    }
  }

  lemma Undo(loss: real, d: real, growth: real)
    requires growth * d == 1.0
    ensures Prod(loss, d) * growth == loss
  {
    assert (loss * d) * growth == loss * (growth * d);
  }

  /** No row's Discounted ECL is negative or above its balance. */
  lemma EclWithinBalance(r: EclRow)
    requires SoundRow(r)
    ensures 0.0 <= DiscountedEcl()(r) <= r.walk.balance
  {
    hide Prod, Lgw, Max, DiscountFactor, RowLoss;
    LossIsUncoveredBalance(r);
    MaxFacts(r.walk.balance, r.walk.collateral);
    var uncovered := Max(r.walk.balance - r.walk.collateral, 0.0);
    ProdUnit(uncovered, r.marginalPd);
    ProdUnit(Prod(uncovered, r.marginalPd), 1.0 - r.cureRate);
    DiscountUnit(r.walk.loan.eir, r.walk.discountPeriod);
    ProdUnit(RowLoss(r), DiscountFactor(r.walk.loan.eir, r.walk.discountPeriod));
  }

  /** The same row with no more collateral. */
  predicate LessCovered(r: EclRow, base: EclRow) {
    r == base.(walk := base.walk.(collateral := r.walk.collateral)) && 0.0 <= r.walk.collateral <= base.walk.collateral
  }

  /** Less collateral on a row never lowers its Discounted ECL. */
  lemma RowEclMonotone(r: EclRow, base: EclRow)
    requires SoundRow(base) && LessCovered(r, base)
    ensures DiscountedEcl()(r) >= DiscountedEcl()(base)
  {
    hide Prod, Lgw, DiscountFactor, RowLoss;
    LossIsUncoveredBalance(r);
    LossIsUncoveredBalance(base);
    var u, v := Max(r.walk.balance - r.walk.collateral, 0.0), Max(base.walk.balance - base.walk.collateral, 0.0);
    ProdGrows(v, u, base.marginalPd, r.marginalPd);
    ProdGrows(Prod(v, base.marginalPd), Prod(u, r.marginalPd), 1.0 - base.cureRate, 1.0 - r.cureRate);
    DiscountUnit(base.walk.loan.eir, base.walk.discountPeriod);
    var d := DiscountFactor(base.walk.loan.eir, base.walk.discountPeriod);
    ProdGrows(RowLoss(base), RowLoss(r), d, d);
  }

  // ----- Every row compute_ead emits is sound -----

  lemma EclRowSound(history: seq<Snapshot>, w: WalkRow)
    requires NonNegativeAmounts(Dedupe(history))
    requires w.balance >= 0.0 && w.collateral >= 0.0 && w.loan.eir >= 0.0
    ensures SoundRow(EclRowOf(history, w))
  {
    hide SegmentMatrix, SegmentCure, MarginalPdAt, Dedupe, SegmentNames, SoundCurves;
    var rows := Dedupe(history);
    if HasPd(history, w) {
      SegmentMatrixNormal(rows, w.loan.segment);
      PdCurvesSound(rows, w.loan.segment, w.loan.staging.stage, w.period);
      CurvesGiveProbability(SegmentMatrix(rows, w.loan.segment), w.loan.staging.stage, w.period);
    }
  }

  lemma CurvesGiveProbability(m: Matrix, stage: Stage, n: nat)
    requires 1 <= n <= MAX_PD_MONTH && SoundCurves(m, stage, n)
    ensures IsProbability(MarginalPdAt(m, stage, n))
  {
    hide CumulativePd, Survival, MarginalPdAt;
  }

  // ----- End-to-end monotonicity in the collateral inputs -----

  /** The same LGD result with no more discounted collateral. */
  predicate LessCoverOf(x: LgdResult, base: LgdResult) {
    x.loan == base.loan && x.eir == base.eir && 0.0 <= x.discounted <= base.discounted
  }

  predicate LessCover(lgd: seq<LgdResult>, base: seq<LgdResult>) {
    |lgd| == |base| && forall i :: 0 <= i < |lgd| ==> LessCoverOf(lgd[i], base[i])
  }

  lemma LgdTableFalls(rows: seq<LgdRow>, config: seq<CollateralType>, base: seq<LgdRow>, baseConfig: seq<CollateralType>)
    requires Weaker(rows, base) && Stricter(config, baseConfig) && NonNegativeOutstanding(base) && ValidRate(base)
    ensures ValidRate(rows)
    ensures LessCover(LgdTable(rows, config), LgdTable(base, baseConfig))
  {
    hide DiscountedSum, Stricter, Arranged, SortBy;
    forall r | r in rows ensures r.eir >= 0.0 {
      var i :| 0 <= i < |rows| && rows[i] == r;
      assert base[i] in base;
    }
    ArrangedHolds(rows);
    ArrangedHolds(base);
    WeakerArranged(rows, base);
    var a, b := Arranged(rows), Arranged(base);
    forall i | 0 <= i < |a| ensures LessCoverOf(ResultsOf(a, config)[i], ResultsOf(b, baseConfig)[i]) {
      DiscountedSumFalls(a, config, b, baseConfig, i);
    }
    SortByPairs(ResultsOf(a, config), ResultsOf(b, baseConfig), ByLoan(), LessCoverOf);
  }

  lemma {:induction false} CollateralFalls(lgd: seq<LgdResult>, base: seq<LgdResult>, id: string)
    requires LessCover(lgd, base)
    ensures 0.0 <= MergeCollateral(lgd, id) <= MergeCollateral(base, id)
  {
    if lgd != [] && lgd[0].loan != id {
      CollateralFalls(lgd[1..], base[1..], id);
    }
  }

  lemma {:induction false} RateStays(lgd: seq<LgdResult>, base: seq<LgdResult>, loan: Loan)
    requires LessCover(lgd, base)
    ensures MergeRate(lgd, loan) == MergeRate(base, loan)
  {
    if lgd != [] && lgd[0].loan != loan.id {
      RateStays(lgd[1..], base[1..], loan);
    }
  }

  /** Pairwise the same rows with no more collateral. */
  predicate AllLessCovered(rows: seq<EclRow>, base: seq<EclRow>) {
    |rows| == |base| && forall i :: 0 <= i < |rows| ==> LessCovered(rows[i], base[i])
  }

  predicate WalkLessCovered(w: WalkRow, base: WalkRow) {
    w == base.(collateral := w.collateral) && 0.0 <= w.collateral <= base.collateral
  }

  predicate WalksLessCovered(walks: seq<WalkRow>, base: seq<WalkRow>) {
    |walks| == |base| && forall i :: 0 <= i < |walks| ==> WalkLessCovered(walks[i], base[i])
  }

  lemma GroupWalkFalls(merged: seq<Loan>, lgd: seq<LgdResult>, base: seq<LgdResult>, id: string)
    requires ValidLoans(merged) && 0.0 <= MergeCollateral(lgd, id) <= MergeCollateral(base, id)
    ensures WalksLessCovered(GroupWalk(merged, lgd, id), GroupWalk(merged, base, id))
  {
    hide Balance, Group, GroupTerms, MergeCollateral;
  }

  lemma {:induction false} WalksFall(merged: seq<Loan>, lgd: seq<LgdResult>, base: seq<LgdResult>, ids: seq<string>)
    requires ValidLoans(merged) && LessCover(lgd, base)
    ensures WalksLessCovered(WalksOver(merged, lgd, ids), WalksOver(merged, base, ids))
  {
    hide GroupWalk, WalkLessCovered, LessCover;
    if ids != [] {
      WalksFall(merged, lgd, base, ids[1..]);
      CollateralFalls(lgd, base, ids[0]);
      GroupWalkFalls(merged, lgd, base, ids[0]);
    }
  }

  lemma MergeSame(loans: seq<Loan>, lgd: seq<LgdResult>, base: seq<LgdResult>)
    requires LessCover(lgd, base)
    ensures Merge(loans, lgd) == Merge(loans, base)
  {
    forall i | 0 <= i < |loans| ensures MergeRate(lgd, loans[i]) == MergeRate(base, loans[i]) {
      RateStays(lgd, base, loans[i]);
    }
  }

  lemma EclRowOfFalls(history: seq<Snapshot>, w: WalkRow, base: WalkRow)
    requires WalkLessCovered(w, base)
    ensures LessCovered(EclRowOf(history, w), EclRowOf(history, base))
  {
    hide SegmentMatrix, SegmentCure, MarginalPdAt, SegmentNames;
  }

  lemma EclRowsFall(loans: seq<Loan>, history: seq<Snapshot>, lgd: seq<LgdResult>, base: seq<LgdResult>)
    requires ValidLoans(loans) && ValidLgd(lgd) && ValidLgd(base) && LessCover(lgd, base)
    ensures AllLessCovered(EclRows(loans, PdTable(history), lgd), EclRows(loans, PdTable(history), base))
  {
    hide Flatten, JoinPd, PdTable, WalksOver, SortedIds, EclRowOf, LessCovered, WalkLessCovered, Merge, ValidLoans, LessCover;
    MergeValid(loans, lgd);
    MergeSame(loans, lgd, base);
    var merged := Merge(loans, lgd);
    WalksFall(merged, lgd, base, SortedIds(merged));
    var walks, baseWalks := Walks(merged, lgd), Walks(merged, base);
    JoinPdAll(history, walks);
    JoinPdAll(history, baseWalks);
    forall i | 0 <= i < |walks| ensures LessCovered(EclRowOf(history, walks[i]), EclRowOf(history, baseWalks[i])) {
      EclRowOfFalls(history, walks[i], baseWalks[i]);
    }
  }

  lemma EclRowsSound(loans: seq<Loan>, history: seq<Snapshot>, lgd: seq<LgdResult>)
    requires ValidLoans(loans) && ValidLgd(lgd) && NonNegativeAmounts(Dedupe(history))
    ensures forall r :: r in EclRows(loans, PdTable(history), lgd) ==> SoundRow(r)
  {
    hide Flatten, JoinPd, PdTable, Walks, EclRowOf, Merge, Dedupe, SoundRow;
    MergeValid(loans, lgd);
    var walks := Walks(Merge(loans, lgd), lgd);
    JoinPdAll(history, walks);
    var rows := EclRows(loans, PdTable(history), lgd);
    forall r | r in rows ensures SoundRow(r) {
      var i :| 0 <= i < |rows| && rows[i] == r;
      assert walks[i] in walks;
      WalkMember(Merge(loans, lgd), lgd, walks[i]);
      CollateralNonNegative(lgd, walks[i].loan.id);
      EclRowSound(history, walks[i]);
    }
  }

  lemma CollateralNonNegative(lgd: seq<LgdResult>, id: string)
    requires ValidLgd(lgd)
    ensures MergeCollateral(lgd, id) >= 0.0
  {
    LookupMember(lgd, id);
  }

  lemma LessCoveredSameFailure(rows: seq<EclRow>, base: seq<EclRow>)
    requires AllLessCovered(rows, base) && SegmentWithoutPd(rows)
    ensures SegmentWithoutPd(base)
  {
    var r :| r in rows && forall s :: s in rows && s.walk.loan.segment == r.walk.loan.segment ==> !s.found;
    var i :| 0 <= i < |rows| && rows[i] == r;
    assert base[i] in base;
    forall s | s in base && s.walk.loan.segment == base[i].walk.loan.segment ensures !s.found {
      var j :| 0 <= j < |base| && base[j] == s;
      assert rows[j] in rows;
    }
  }

  lemma LessCoveredSameFailureBack(rows: seq<EclRow>, base: seq<EclRow>)
    requires AllLessCovered(rows, base) && SegmentWithoutPd(base)
    ensures SegmentWithoutPd(rows)
  {
    var r :| r in base && forall s :: s in base && s.walk.loan.segment == r.walk.loan.segment ==> !s.found;
    var i :| 0 <= i < |base| && base[i] == r;
    assert rows[i] in rows;
    forall s | s in rows && s.walk.loan.segment == rows[i].walk.loan.segment ensures !s.found {
      var j :| 0 <= j < |rows| && rows[j] == s;
      assert base[j] in base;
    }
  }

  /** Rows selected by their loan: one loan, a segment, a stage or the whole portfolio. */
  function OnLoan(p: Loan -> bool): EclRow -> bool { (r: EclRow) => p(r.walk.loan) }

  function GroupEcl(rows: seq<EclRow>, p: Loan -> bool): real { Sum(Filter(rows, OnLoan(p)), DiscountedEcl()) }

  lemma {:induction false} GroupMonotone(rows: seq<EclRow>, base: seq<EclRow>, p: Loan -> bool)
    requires AllLessCovered(rows, base) && forall r :: r in base ==> SoundRow(r)
    ensures GroupEcl(rows, p) >= GroupEcl(base, p)
  {
    hide DiscountedEcl, SoundRow;
    if rows != [] {
      assert base[0] in base && LessCovered(rows[0], base[0]);
      GroupMonotone(rows[1..], base[1..], p);
      RowEclMonotone(rows[0], base[0]);
      SumSelected(rows, OnLoan(p), DiscountedEcl());
      SumSelected(base, OnLoan(p), DiscountedEcl());
    }
  }

  /**
   * Lowering collateral values, deepening haircuts or lengthening the time to realise never lowers
   * the Discounted ECL of any row, nor of any loan, segment, stage or portfolio, and never changes
   * whether the run fails with EC-08.
   */
  lemma EclMonotoneInCollateral(loans: seq<Loan>, history: seq<Snapshot>,
                                rows: seq<LgdRow>, config: seq<CollateralType>,
                                base: seq<LgdRow>, baseConfig: seq<CollateralType>)
    requires ValidLoans(loans) && NonNegativeAmounts(Dedupe(history))
    requires Weaker(rows, base) && Stricter(config, baseConfig) && NonNegativeOutstanding(base) && ValidRate(base)
    ensures ValidRate(rows) && ValidLgd(LgdTable(rows, config)) && ValidLgd(LgdTable(base, baseConfig))
    ensures var a := EadResult(loans, PdTable(history), LgdTable(rows, config));
            var b := EadResult(loans, PdTable(history), LgdTable(base, baseConfig));
            && (a.Failure? <==> b.Failure?)
            && (a.Success? ==>
                 && |a.value| == |b.value|
                 && (forall i :: 0 <= i < |a.value| ==> DiscountedEcl()(a.value[i]) >= DiscountedEcl()(b.value[i]) >= 0.0)
                 && (forall p :: GroupEcl(a.value, p) >= GroupEcl(b.value, p)))
  {
    hide EclRows, LgdTable, SegmentWithoutPd, LessCovered, DiscountedEcl, GroupEcl, SoundRow, PdTable, Dedupe, ValidLoans, Stricter;
    LgdTableFalls(rows, config, base, baseConfig);
    var lgd, baseLgd := LgdTable(rows, config), LgdTable(base, baseConfig);
    CoverValid(rows, config, base, baseConfig);
    var a := EclRows(loans, PdTable(history), lgd);
    var b := EclRows(loans, PdTable(history), baseLgd);
    EclRowsFall(loans, history, lgd, baseLgd);
    EclRowsSound(loans, history, baseLgd);
    if SegmentWithoutPd(a) {
      LessCoveredSameFailure(a, b);
    }
    if SegmentWithoutPd(b) {
      LessCoveredSameFailureBack(a, b);
    }
    forall i | 0 <= i < |a| ensures DiscountedEcl()(a[i]) >= DiscountedEcl()(b[i]) >= 0.0 {
      assert b[i] in b;
      RowEclMonotone(a[i], b[i]);
      EclWithinBalance(b[i]);
    }
    forall p ensures GroupEcl(a, p) >= GroupEcl(b, p) {
      GroupMonotone(a, b, p);
    }
  }

  lemma CoverValid(rows: seq<LgdRow>, config: seq<CollateralType>, base: seq<LgdRow>, baseConfig: seq<CollateralType>)
    requires ValidRate(rows) && ValidRate(base) && LessCover(LgdTable(rows, config), LgdTable(base, baseConfig))
    ensures ValidLgd(LgdTable(rows, config)) && ValidLgd(LgdTable(base, baseConfig))
  {
    hide DiscountedSum, LgdTable, AscendsBy;
    var lgd, baseLgd := LgdTable(rows, config), LgdTable(base, baseConfig);
    LgdTableHolds(base, baseConfig);
    forall x | x in baseLgd ensures x.eir >= 0.0 && x.discounted >= 0.0 {
      var i :| 0 <= i < |baseLgd| && baseLgd[i] == x;
      assert LessCoverOf(lgd[i], x);
    }
    forall x | x in lgd ensures x.eir >= 0.0 && x.discounted >= 0.0 {
      var i :| 0 <= i < |lgd| && lgd[i] == x;
      assert LessCoverOf(x, baseLgd[i]) && baseLgd[i] in baseLgd;
    }
  }
}
