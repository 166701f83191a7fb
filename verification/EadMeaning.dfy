/** compute_ead in its own terms: every column of an emitted row spelled out from the inputs it was joined from. */
module EadMeaning {
  import opened Wrappers
  import opened RealMath
  import opened TransitionMatrix
  import opened Calendar
  import opened PdEngine
  import opened BalanceWalk
  import opened Snapshots
  import opened Collateral
  import opened EadEngine
  import opened EclLoss

  // ----- Where a row comes from -----

  lemma {:induction false} JoinedFrom(pd: seq<PdRow>, walks: seq<WalkRow>, r: EclRow)
    requires r in Flatten(walks, JoinPd(pd))
    ensures r.walk in walks && r in JoinPd(pd)(r.walk)
  {
    hide JoinPd;
    if r in JoinPd(pd)(walks[0]) {
      JoinedWalk(pd, walks[0], r);
    } else {
      JoinedFrom(pd, walks[1..], r);
    }
  }

  lemma JoinedWalk(pd: seq<PdRow>, w: WalkRow, r: EclRow)
    requires r in JoinPd(pd)(w)
    ensures r.walk == w
  {
    hide PdMatches;
  }

  // ----- The LGD join -----

  /** Result k is the first for the Loan ID. */
  predicate FirstResult(lgd: seq<LgdResult>, k: int, id: string) {
    0 <= k < |lgd| && lgd[k].loan == id && forall j :: 0 <= j < k ==> lgd[j].loan != id
  }

  lemma {:induction false} LookupIsFirst(lgd: seq<LgdResult>, id: string)
    ensures forall k :: FirstResult(lgd, k, id) ==> LgdLookup(lgd, id) == Some(lgd[k])
    ensures (forall k :: 0 <= k < |lgd| ==> lgd[k].loan != id) ==> LgdLookup(lgd, id) == None
  {
    if lgd != [] && lgd[0].loan != id {
      LookupIsFirst(lgd[1..], id);
      forall k | FirstResult(lgd, k, id) ensures FirstResult(lgd[1..], k - 1, id) && lgd[1..][k - 1] == lgd[k] {
        assert k > 0;
        forall j | 0 <= j < k - 1 ensures lgd[1..][j].loan != id {
          assert lgd[1..][j] == lgd[j + 1];
        }
      }
    }
  }

  /**
   * Every emitted row is one input row's. Its collateral and its rate are those of the first LGD result with its Loan ID;
   * without one the collateral is 0 and the rate the input's.
   */
  lemma RowInputs(loans: seq<Loan>, pd: seq<PdRow>, lgd: seq<LgdResult>, r: EclRow)
    requires ValidLoans(loans) && ValidLgd(lgd) && r in EclRows(loans, pd, lgd)
    ensures exists i :: 0 <= i < |loans| && r.walk.loan == loans[i].(eir := r.walk.loan.eir)
                        && ((forall k :: 0 <= k < |lgd| ==> lgd[k].loan != loans[i].id) ==> r.walk.collateral == 0.0 && r.walk.loan.eir == loans[i].eir)
    ensures forall k :: FirstResult(lgd, k, r.walk.loan.id) ==> r.walk.collateral == lgd[k].discounted && r.walk.loan.eir == lgd[k].eir
  {
    hide Walks, Flatten, JoinPd, FirstResult;
    MergeValid(loans, lgd);
    var merged := Merge(loans, lgd);
    JoinedFrom(pd, Walks(merged, lgd), r);
    WalkMember(merged, lgd, r.walk);
    var i :| 0 <= i < |merged| && merged[i] == r.walk.loan;
    LookupIsFirst(lgd, loans[i].id);
    assert r.walk.loan == MergeRate(lgd, loans[i]);
    assert r.walk.loan == loans[i].(eir := r.walk.loan.eir);
  }

  // ----- Dates, periods and balances -----

  lemma {:induction false} WalkOf(merged: seq<Loan>, lgd: seq<LgdResult>, ids: seq<string>, w: WalkRow) returns (id: string)
    requires ValidLoans(merged) && w in WalksOver(merged, lgd, ids)
    ensures id in ids && w in GroupWalk(merged, lgd, id)
  {
    hide GroupWalk;
    if w in GroupWalk(merged, lgd, ids[0]) {
      id := ids[0];
    } else {
      id := WalkOf(merged, lgd, ids[1..], w);
    }
  }

  /** The period of every emitted row is the number of calendar months from the first payment date to the snapshot date. */
  lemma RowPeriod(loans: seq<Loan>, pd: seq<PdRow>, lgd: seq<LgdResult>, r: EclRow)
    requires ValidLoans(loans) && ValidLgd(lgd) && r in EclRows(loans, pd, lgd)
    ensures var first, date := r.walk.loan.firstPayment, r.walk.date;
            r.walk.period == 12 * (date.year - first.year) + date.month - first.month
  {
    hide WalksOver, Flatten, JoinPd, Merge, ValidLoans, SortedIds, Balance, Group;
    MergeValid(loans, lgd);
    var merged := Merge(loans, lgd);
    JoinedFrom(pd, Walks(merged, lgd), r);
    var id := WalkOf(merged, lgd, SortedIds(merged), r.walk);
    var i :| 0 <= i < |GroupWalk(merged, lgd, id)| && GroupWalk(merged, lgd, id)[i] == r.walk;
  }

  /**
   * Where one input row alone bears a Loan ID's rows, its rows are in order: row i is its expansion's date i, discounted
   * over i months, with the balance after i + 1 months of the loan's own terms.
   */
  lemma LoanRowsMean(merged: seq<Loan>, lgd: seq<LgdResult>, k: nat, i: nat)
    requires ValidLoans(merged) && k < |merged| && OnlyBearer(merged, k)
    ensures ValidLoan(merged[k]) && |GroupWalk(merged, lgd, merged[k].id)| == |Expansion(merged[k])|
    ensures i < |Expansion(merged[k])| ==>
              var w, loan := GroupWalk(merged, lgd, merged[k].id)[i], merged[k];
              && w.loan == loan && w.date == Expansion(loan)[i].date && w.discountPeriod == i
              && w.balance == Balance(LoanTerms(loan.outstanding, loan.eir,
                                                12 * (loan.adjustedMaturity.year - loan.reporting.year) + loan.adjustedMaturity.month - loan.reporting.month,
                                                loan.freq), i + 1)
  {
    hide Balance, RowCount, GroupWalk, OnlyBearer, PeriodInstalment, SnapAt;
    GroupWalkIsLoanWalk(merged, lgd, k);
    RemainingTermFromReporting(merged[k]);
  }

  /** A month of the walk: interest, then the instalment where one is due, never below zero. */
  lemma BalanceMonth(outstanding: real, eir: real, remaining: int, freq: Frequency, i: nat)
    requires eir >= 0.0
    ensures var t := LoanTerms(outstanding, eir, remaining, freq);
            var after := Balance(t, i) * (1.0 + eir / 12.0) - if freq == Mth || i % 3 == 2 then PeriodInstalment(outstanding, eir, remaining, freq) else 0.0;
            && Balance(t, 0) == outstanding
            && Balance(t, i + 1) == if after < 0.0 then 0.0 else after
  {
    hide PeriodInstalment, Balance;
    BalanceStep(LoanTerms(outstanding, eir, remaining, freq), i);
  }

  // ----- The PD join -----

  /** The PD row is for the segment, period and stage of the walk row. */
  predicate Serves(p: PdRow, w: WalkRow) {
    p.segment == w.loan.segment && p.month == w.period && w.loan.staging == In(p.transition)
  }

  lemma MatchesServe(pd: seq<PdRow>, w: WalkRow)
    ensures forall p :: p in PdMatches(pd, w) <==> p in pd && Serves(p, w)
  {
    if w.loan.staging.In? {
      FilterMembers(pd, HasKey(w.loan.segment, w.period, w.loan.staging.stage));
    }
  }

  /** A row's hazard and cure rate are those of a PD row for its segment, period and stage, or 0 where there is none. */
  lemma RowHazard(loans: seq<Loan>, pd: seq<PdRow>, lgd: seq<LgdResult>, r: EclRow)
    requires ValidLoans(loans) && ValidLgd(lgd) && r in EclRows(loans, pd, lgd)
    ensures r.found <==> exists p :: p in pd && Serves(p, r.walk)
    ensures r.found ==> exists p :: p in pd && Serves(p, r.walk) && r.marginalPd == p.marginalPd && r.cureRate == p.cureRate
    ensures !r.found ==> r.marginalPd == 0.0 && r.cureRate == 0.0
  {
    hide Walks, Flatten, Merge, ValidLoans;
    MergeValid(loans, lgd);
    assert r in Flatten(Walks(Merge(loans, lgd), lgd), JoinPd(pd));
    JoinedFrom(pd, Walks(Merge(loans, lgd), lgd), r);
    HazardOf(pd, r.walk, r);
  }

  lemma HazardOf(pd: seq<PdRow>, w: WalkRow, r: EclRow)
    requires r in JoinPd(pd)(w)
    ensures r.found <==> exists p :: p in pd && Serves(p, w)
    ensures r.found ==> exists p :: p in pd && Serves(p, w) && r.marginalPd == p.marginalPd && r.cureRate == p.cureRate
    ensures !r.found ==> r.marginalPd == 0.0 && r.cureRate == 0.0
  {
    hide Serves, PdMatches;
    MatchesServe(pd, w);
    var matches := PdMatches(pd, w);
    if matches != [] {
      assert matches[0] in matches;
      var i :| 0 <= i < |matches| && r == EclRow(w, true, matches[i].marginalPd, matches[i].cureRate);
      assert matches[i] in matches;
    }
  }

  // ----- The loss -----

  /**
   * The Discounted ECL, spelled out: what the balance exceeds the collateral by, times the hazard, times one minus the cure
   * rate, is the Discounted ECL compounded monthly at the rate over the discount period.
   */
  lemma EclMeans(r: EclRow)
    requires SoundRow(r)
    ensures var uncovered := if r.walk.balance > r.walk.collateral then r.walk.balance - r.walk.collateral else 0.0;
            uncovered * r.marginalPd * (1.0 - r.cureRate)
            == DiscountedEcl()(r) * Pow(1.0 + r.walk.loan.eir / 12.0, r.walk.discountPeriod)
  {
    hide DiscountedEcl, RowLoss, Pow;
    LossIsUncoveredBalance(r);
    DiscountingUndoesAccrual(r);
  }

  /** The loss columns one by one: the uncovered share of a positive balance, 0 for none, then the cure rate, hazard and balance. */
  lemma ColumnsMean(r: EclRow)
    ensures r.walk.balance <= 0.0 ==> Lgw(r.walk.balance, r.walk.collateral) == 0.0
    ensures r.walk.balance > 0.0 ==>
              Lgw(r.walk.balance, r.walk.collateral)
              == if r.walk.collateral < r.walk.balance then 1.0 - r.walk.collateral / r.walk.balance else 0.0
    ensures RowLoss(r) == r.walk.balance * r.marginalPd * (Lgw(r.walk.balance, r.walk.collateral) * (1.0 - r.cureRate))
  {
    if r.walk.balance > 0.0 {
      CoveredShare(r.walk.balance, r.walk.collateral);
    }
  }

  lemma CoveredShare(balance: real, collateral: real)
    requires balance > 0.0
    ensures collateral / balance < 1.0 <==> collateral < balance
  {
    RatioSpec(collateral, balance);
    ShareBelowOne(balance, collateral, Ratio(collateral, balance));
  }

  lemma ShareBelowOne(t: real, x: real, q: real)
    requires t > 0.0 && t * q == x
    ensures q < 1.0 <==> x < t
  {
    if q < 1.0 {
      ScaleLeft(t, q, 1.0);
    } else {
      ScaleLeft(t, 1.0, q);
    }
  }

  lemma PowMeans(x: real, n: nat)
    ensures Pow(x, 0) == 1.0 && Pow(x, n + 1) == x * Pow(x, n)
  {}
}
