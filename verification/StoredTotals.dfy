/**
 * The Total Outstanding a run stores is queried from the walked balances, while the workbook's comes from the
 * input: where the two differ, loan by loan and over the portfolio.
 */
module StoredTotals {
  import opened RealMath
  import opened Annuity
  import opened BalanceWalk
  import opened Snapshots
  import opened Collateral
  import opened PdEngine
  import opened EadEngine
  import opened EclLoss
  import Text

  // ----- MAX(bal_after_missed) of one loan (compute_tasks.py:340-354) -----

  function MaxBalance(walk: seq<WalkRow>): real
    requires walk != []
  {
    var last := walk[|walk| - 1].balance;
    if |walk| == 1 then last else Max(MaxBalance(walk[..|walk| - 1]), last)
  }

  /** MaxBalance is the largest balance of the walk. */
  lemma {:induction false} MaxBalanceSpec(walk: seq<WalkRow>)
    requires walk != []
    ensures forall i :: 0 <= i < |walk| ==> walk[i].balance <= MaxBalance(walk)
    ensures exists i :: 0 <= i < |walk| && walk[i].balance == MaxBalance(walk)
  {
    if |walk| > 1 {
      var front := walk[..|walk| - 1];
      MaxBalanceSpec(front);
      var i :| 0 <= i < |front| && front[i].balance == MaxBalance(front);
      assert walk[i].balance == MaxBalance(front);
      assert forall j :: 0 <= j < |walk| - 1 ==> walk[j] == front[j];
      assert walk[|walk| - 1].balance <= MaxBalance(walk);
    } else {
      assert walk[0].balance == MaxBalance(walk);
    }
  }

  lemma MaxIsFirst(walk: seq<WalkRow>)
    requires walk != [] && forall i :: 0 <= i < |walk| ==> walk[i].balance <= walk[0].balance
    ensures MaxBalance(walk) == walk[0].balance
  {
    hide MaxBalance;
    MaxBalanceSpec(walk);
  }

  /** A monthly loan inside its term, the only kind whose first row already repays. */
  predicate InTerm(loan: Loan) { loan.freq == Mth && RemainingTerm(loan) >= 1 }

  lemma {:induction false} BalancesFall(loan: Loan, k: nat)
    requires InTerm(loan) && loan.outstanding > 0.0 && loan.eir >= 0.0 && k >= 1
    ensures Balance(TermsOf(loan), k) <= Balance(TermsOf(loan), 1) < loan.outstanding
  {
    hide Balance, PeriodInstalment;
    var n := RemainingTerm(loan);
    MonthlyFalls(loan.outstanding, loan.eir, n, 0);
    BalanceStep(TermsOf(loan), 0);
    if k > 1 {
      BalancesFall(loan, k - 1);
      if k <= n {
        MonthlyFalls(loan.outstanding, loan.eir, n, k - 1);
      } else {
        MonthlyAmortises(loan.outstanding, loan.eir, n, k);
      }
    }
  }

  lemma InstalmentNonNegative(loan: Loan)
    requires ValidLoan(loan)
    ensures TermsOf(loan).instalment >= 0.0
  {
    hide LevelPayment, Pmt, Ratio;
    var n := RemainingTerm(loan);
    if loan.freq == Qtr {
      QuarterlyInstalment(loan.outstanding, loan.eir, n);
      LevelPaymentNonNegative(loan.eir / 4.0, QuarterCount(n), loan.outstanding);
    } else if n >= 1 {
      MonthlyInstalment(loan.outstanding, loan.eir, n);
      LevelPaymentNonNegative(loan.eir / 12.0, n, loan.outstanding);
    }
  }

  /** At a zero rate no balance is above the amount it started from. */
  lemma {:induction false} NoRateNoGrowth(t: Terms, k: nat)
    requires t.monthlyRate == 0.0 && t.outstanding >= 0.0 && t.instalment >= 0.0
    ensures 0.0 <= Balance(t, k) <= t.outstanding
  {
    if k != 0 {
      NoRateNoGrowth(t, k - 1);
    }
  }

  /** Off term, the first row accrues a month and repays nothing. */
  lemma FirstRowAccrues(loan: Loan)
    requires ValidLoan(loan) && !InTerm(loan)
    ensures Balance(TermsOf(loan), 1) == Accrue(loan.outstanding, loan.eir / 12.0) >= loan.outstanding
    ensures loan.eir > 0.0 && loan.outstanding > 0.0 ==> Balance(TermsOf(loan), 1) > loan.outstanding
  {
    hide Accrue, Pmt, Ratio, Balance;
    var rate := loan.eir / 12.0;
    BalanceStep(TermsOf(loan), 0);
    AccrueNonNegative(loan.outstanding, rate);
    AccrueRises(loan.outstanding, rate);
  }

  lemma AccrueRises(balance: real, rate: real)
    ensures balance > 0.0 && rate > 0.0 ==> Accrue(balance, rate) > balance
    ensures rate == 0.0 ==> Accrue(balance, rate) == balance
  {
    if balance > 0.0 && rate > 0.0 {
      Scale(1.0, 1.0 + rate, balance);
    }
  }

  /**
   * What the run stores for a loan against its outstanding amount, exactly: below for a monthly loan inside its
   * term, above for any other loan that bears interest, and equal otherwise.
   */
  lemma StoredAgainstOutstanding(loan: Loan, collateral: real)
    requires ValidLoan(loan) && RowCount(loan) >= 1
    ensures var stored := MaxBalance(LoanWalk(loan, collateral));
            && (stored < loan.outstanding <==> InTerm(loan) && loan.outstanding > 0.0)
            && (stored > loan.outstanding <==> !InTerm(loan) && loan.outstanding > 0.0 && loan.eir > 0.0)
            && (InTerm(loan) ==> stored == Balance(TermsOf(loan), 1))
            && stored >= 0.0
  {
    hide Balance, PeriodInstalment, SnapAt, MaxBalance, RowCount, RemainingTerm, Accrue, InTerm;
    var walk, t := LoanWalk(loan, collateral), TermsOf(loan);
    InstalmentNonNegative(loan);
    BalanceStep(t, 0);
    MaxBalanceSpec(walk);
    assert walk[0].balance == Balance(t, 1);
    if loan.outstanding == 0.0 {
      forall i | 0 <= i < |walk| ensures walk[i].balance == 0.0 {
        ZeroPersists(t, 0, i + 1);
      }
    } else if InTerm(loan) {
      forall i | 0 <= i < |walk| ensures walk[i].balance <= walk[0].balance {
        BalancesFall(loan, i + 1);
      }
      BalancesFall(loan, 1);
      MaxIsFirst(walk);
    } else {
      FirstRowAccrues(loan);
      AccrueRises(loan.outstanding, t.monthlyRate);
      if loan.eir == 0.0 {
        forall i | 0 <= i < |walk| ensures walk[i].balance <= walk[0].balance {
          NoRateNoGrowth(t, i + 1);
        }
        MaxIsFirst(walk);
      }
    }
  }

  /** A loan with rows that still owes something after its first one. */
  predicate Keeps(loan: Loan) { loan.outstanding > 0.0 && RowCount(loan) >= 1 && (InTerm(loan) ==> RemainingTerm(loan) >= 2) }

  /** Something is stored for a loan with rows exactly when it owes something and its first row is not its last payment. */
  lemma StoredPositive(loan: Loan, collateral: real)
    requires ValidLoan(loan) && RowCount(loan) >= 1
    ensures MaxBalance(LoanWalk(loan, collateral)) > 0.0 <==> Keeps(loan)
  {
    hide Balance, PeriodInstalment, MaxBalance, RowCount, RemainingTerm, LoanWalk;
    StoredAgainstOutstanding(loan, collateral);
    var n := RemainingTerm(loan);
    if InTerm(loan) && loan.outstanding > 0.0 {
      if n == 1 {
        MonthlyAmortises(loan.outstanding, loan.eir, n, 1);
      } else {
        MonthlyFalls(loan.outstanding, loan.eir, n, 1);
        BalanceStep(TermsOf(loan), 1);
      }
    }
  }

  // ----- The two portfolio totals -----

  function OfWalkId(id: string): WalkRow -> bool { (w: WalkRow) => w.loan.id == id }

  /** The inner query: the largest balance among the rows of a Loan ID. */
  function StoredOf(walks: seq<WalkRow>): string -> real {
    (id: string) => var rows := Filter(walks, OfWalkId(id)); if rows == [] then 0.0 else MaxBalance(rows)
  }

  /** total_outstanding of _compute_run_totals. */
  function StoredOutstanding(merged: seq<Loan>, lgd: seq<LgdResult>): real
    requires ValidLoans(merged)
  {
    Sum(SortedIds(merged), StoredOf(Walks(merged, lgd)))
  }

  /** The outstanding amount of the first input row with a Loan ID (excel_writer.py:346-350). */
  function FirstOutstanding(loans: seq<Loan>): string -> real {
    (id: string) => FirstAmount(loans, id)
  }

  function FirstAmount(loans: seq<Loan>, id: string): real {
    if loans == [] then 0.0 else if loans[0].id == id then loans[0].outstanding else FirstAmount(loans[1..], id)
  }

  /** The outstanding amounts of the input, one per Loan ID. */
  function InputOutstanding(loans: seq<Loan>): real { Sum(SortedIds(loans), FirstOutstanding(loans)) }

  /** total_outstanding of build_ecl_aggregates: the input's, or 0 where no rows were generated (excel_writer.py:308-338, 373). */
  function ReportedOutstanding(loans: seq<Loan>, walks: seq<WalkRow>): real { if walks == [] then 0.0 else InputOutstanding(loans) }

  /** The LGD join changes rates only, so the input total can be read off the merged rows. */
  lemma {:induction false} MergeKeepsAmount(loans: seq<Loan>, lgd: seq<LgdResult>, id: string)
    ensures FirstAmount(Merge(loans, lgd), id) == FirstAmount(loans, id)
  {
    if loans != [] {
      MergeKeepsAmount(loans[1..], lgd, id);
      assert Merge(loans, lgd)[1..] == Merge(loans[1..], lgd);
    }
  }

  lemma MergeKeepsInput(loans: seq<Loan>, lgd: seq<LgdResult>)
    ensures InputOutstanding(Merge(loans, lgd)) == InputOutstanding(loans)
  {
    var merged := Merge(loans, lgd);
    assert Ids(merged) == Ids(loans);
    forall id | id in SortedIds(loans) ensures FirstOutstanding(merged)(id) == FirstOutstanding(loans)(id) {
      MergeKeepsAmount(loans, lgd, id);
    }
    SumEqual(SortedIds(loans), FirstOutstanding(merged), FirstOutstanding(loans));
  }

  /** Every Loan ID is on one input row. */
  predicate UniqueIds(loans: seq<Loan>) {
    forall i, j :: 0 <= i < j < |loans| ==> loans[i].id != loans[j].id
  }

  lemma {:induction false} FirstAmountOf(loans: seq<Loan>, k: nat)
    requires UniqueIds(loans) && k < |loans|
    ensures FirstAmount(loans, loans[k].id) == loans[k].outstanding
  {
    if k > 0 {
      FirstAmountOf(loans[1..], k - 1);
    }
  }

  lemma {:induction false} SumOfIds(loans: seq<Loan>, f: string -> real, g: Loan -> real)
    requires forall loan :: loan in loans ==> f(loan.id) == g(loan)
    ensures Sum(Ids(loans), f) == Sum(loans, g)
  {
    if loans != [] {
      SumOfIds(loans[1..], f, g);
      assert Ids(loans)[1..] == Ids(loans[1..]);
    }
  }

  /** With every Loan ID on one input row, a sum over the sorted Loan IDs is a sum over the input rows. */
  lemma SumOverLoans(loans: seq<Loan>, f: string -> real, g: Loan -> real)
    requires UniqueIds(loans) && forall loan :: loan in loans ==> f(loan.id) == g(loan)
    ensures Sum(SortedIds(loans), f) == Sum(loans, g)
  {
    hide Sum;
    Text.SortedDistinctSpec(Ids(loans));
    Text.AscendingDistinct(SortedIds(loans));
    Text.SameNames(SortedIds(loans), Ids(loans));
    SumPermutation(SortedIds(loans), Ids(loans), f);
    SumOfIds(loans, f, g);
  }

  function OutstandingOf(): Loan -> real { (loan: Loan) => loan.outstanding }

  /** The input total is the outstanding amounts of the input rows. */
  lemma InputMeans(loans: seq<Loan>)
    requires UniqueIds(loans)
    ensures InputOutstanding(loans) == Sum(loans, OutstandingOf())
  {
    hide Sum, UniqueIds;
    forall loan | loan in loans ensures FirstOutstanding(loans)(loan.id) == OutstandingOf()(loan) {
      var k :| 0 <= k < |loans| && loans[k] == loan;
      FirstAmountOf(loans, k);
    }
    SumOverLoans(loans, FirstOutstanding(loans), OutstandingOf());
  }

  lemma GroupWalkIds(merged: seq<Loan>, lgd: seq<LgdResult>, id: string, other: string)
    requires ValidLoans(merged)
    ensures Filter(GroupWalk(merged, lgd, other), OfWalkId(id)) == if other == id then GroupWalk(merged, lgd, id) else []
  {
    hide GroupWalk, Filter;
    forall w | w in GroupWalk(merged, lgd, other) ensures w.loan.id == other {
      WalkRowFacts(merged, lgd, other, w);
    }
    if other == id {
      FilterAll(GroupWalk(merged, lgd, other), OfWalkId(id));
    } else {
      FilterNone(GroupWalk(merged, lgd, other), OfWalkId(id));
    }
  }

  /** The rows of a Loan ID in the whole table are its group's walk. */
  lemma {:induction false} RowsOfId(merged: seq<Loan>, lgd: seq<LgdResult>, ids: seq<string>, id: string)
    requires ValidLoans(merged) && Text.Ascending(ids)
    ensures Filter(WalksOver(merged, lgd, ids), OfWalkId(id)) == if id in ids then GroupWalk(merged, lgd, id) else []
  {
    hide GroupWalk, Filter;
    if ids == [] {
      FilterNone(WalksOver(merged, lgd, ids), OfWalkId(id));
    } else {
      RowsOfId(merged, lgd, ids[1..], id);
      FilterAppend(GroupWalk(merged, lgd, ids[0]), WalksOver(merged, lgd, ids[1..]), OfWalkId(id));
      GroupWalkIds(merged, lgd, id, ids[0]);
      Text.LessTotal(ids[0], ids[0]);
      assert ids == [ids[0]] + ids[1..];
    }
  }

  lemma IdListed(merged: seq<Loan>, k: nat)
    requires k < |merged|
    ensures merged[k].id in SortedIds(merged) && Text.Ascending(SortedIds(merged))
  {
    Text.SortedDistinctSpec(Ids(merged));
    assert Ids(merged)[k] in Ids(merged);
  }

  /** What the query returns for the only input row of a Loan ID. */
  lemma StoredOfLoan(merged: seq<Loan>, lgd: seq<LgdResult>, k: nat)
    requires ValidLoans(merged) && UniqueIds(merged) && k < |merged|
    ensures ValidLoan(merged[k])
    ensures StoredOf(Walks(merged, lgd))(merged[k].id)
         == if RowCount(merged[k]) == 0 then 0.0 else MaxBalance(LoanWalk(merged[k], MergeCollateral(lgd, merged[k].id)))
  {
    hide GroupWalk, Filter, MaxBalance, SortedIds, RowCount, Balance, MergeCollateral;
    IdListed(merged, k);
    RowsOfId(merged, lgd, SortedIds(merged), merged[k].id);
    GroupWalkIsLoanWalk(merged, lgd, k);
  }

  /** The largest balance of a loan's own walk, 0 where it has no rows. */
  function PeakOf(): Loan -> real {
    (loan: Loan) => if RowCount(loan) == 0 || loan.eir < 0.0 then 0.0 else MaxBalance(LoanWalk(loan, 0.0))
  }

  lemma {:induction false} PeakIgnoresCollateral(loan: Loan, a: real, b: real, n: nat)
    requires loan.eir >= 0.0 && 1 <= n <= RowCount(loan)
    ensures MaxBalance(LoanWalk(loan, a)[..n]) == MaxBalance(LoanWalk(loan, b)[..n])
  {
    hide Balance, SnapAt;
    if n > 1 {
      PeakIgnoresCollateral(loan, a, b, n - 1);
      assert LoanWalk(loan, a)[..n][..n - 1] == LoanWalk(loan, a)[..n - 1];
      assert LoanWalk(loan, b)[..n][..n - 1] == LoanWalk(loan, b)[..n - 1];
    }
  }

  /** The stored total is, over the input rows, the largest balance of each loan's walk. */
  lemma StoredMeans(merged: seq<Loan>, lgd: seq<LgdResult>)
    requires ValidLoans(merged) && UniqueIds(merged)
    ensures StoredOutstanding(merged, lgd) == Sum(merged, PeakOf())
  {
    hide Sum, UniqueIds, StoredOf, Walks, MaxBalance, LoanWalk, RowCount;
    forall loan | loan in merged ensures StoredOf(Walks(merged, lgd))(loan.id) == PeakOf()(loan) {
      var k :| 0 <= k < |merged| && merged[k] == loan;
      StoredOfLoan(merged, lgd, k);
      if RowCount(loan) > 0 {
        PeakOfWalk(loan, MergeCollateral(lgd, loan.id));
      }
    }
    SumOverLoans(merged, StoredOf(Walks(merged, lgd)), PeakOf());
  }

  lemma PeakOfWalk(loan: Loan, collateral: real)
    requires loan.eir >= 0.0 && RowCount(loan) > 0
    ensures PeakOf()(loan) == MaxBalance(LoanWalk(loan, collateral))
  {
    hide Balance, SnapAt, MaxBalance, RowCount;
    var n := RowCount(loan);
    PeakIgnoresCollateral(loan, collateral, 0.0, n);
    assert LoanWalk(loan, collateral)[..n] == LoanWalk(loan, collateral) && LoanWalk(loan, 0.0)[..n] == LoanWalk(loan, 0.0);
  }

  /** How far the stored amount of a Loan ID lies below its input amount, and above it. */
  function Fallen(merged: seq<Loan>, walks: seq<WalkRow>): string -> real {
    (id: string) => Max(FirstOutstanding(merged)(id) - StoredOf(walks)(id), 0.0)
  }

  function Risen(merged: seq<Loan>, walks: seq<WalkRow>): string -> real {
    (id: string) => Max(StoredOf(walks)(id) - FirstOutstanding(merged)(id), 0.0)
  }

  /** A loan with something outstanding that has no rows, or whose first row already repays. */
  predicate Falls(loan: Loan) { loan.outstanding > 0.0 && (RowCount(loan) == 0 || InTerm(loan)) }

  /** A loan with rows that bears interest before it repays: quarterly, or past its term. */
  predicate Rises(loan: Loan) { loan.outstanding > 0.0 && loan.eir > 0.0 && RowCount(loan) >= 1 && !InTerm(loan) }

  lemma LoanDifference(merged: seq<Loan>, lgd: seq<LgdResult>, k: nat)
    requires ValidLoans(merged) && UniqueIds(merged) && k < |merged|
    ensures var walks := Walks(merged, lgd);
            && (Fallen(merged, walks)(merged[k].id) > 0.0 <==> Falls(merged[k]))
            && (Risen(merged, walks)(merged[k].id) > 0.0 <==> Rises(merged[k]))
  {
    hide MaxBalance, RowCount, LoanWalk, Walks, InTerm, MergeCollateral, StoredOf;
    assert ValidLoan(merged[k]);
    FirstAmountOf(merged, k);
    StoredOfLoan(merged, lgd, k);
    if RowCount(merged[k]) >= 1 {
      StoredAgainstOutstanding(merged[k], MergeCollateral(lgd, merged[k].id));
    }
  }

  lemma {:induction false} SplitDifference(ids: seq<string>, merged: seq<Loan>, walks: seq<WalkRow>)
    ensures Sum(ids, FirstOutstanding(merged)) - Sum(ids, StoredOf(walks))
         == Sum(ids, Fallen(merged, walks)) - Sum(ids, Risen(merged, walks))
    ensures Sum(ids, Fallen(merged, walks)) >= 0.0 && Sum(ids, Risen(merged, walks)) >= 0.0
  {
    hide StoredOf, FirstOutstanding;
    if ids != [] {
      SplitDifference(ids[1..], merged, walks);
    }
  }

  lemma {:induction false} SumPositive(ids: seq<string>, f: string -> real)
    requires forall id :: id in ids ==> f(id) >= 0.0
    ensures Sum(ids, f) >= 0.0
    ensures Sum(ids, f) > 0.0 <==> exists id :: id in ids && f(id) > 0.0
  {
    if ids != [] {
      SumPositive(ids[1..], f);
      assert ids == [ids[0]] + ids[1..];
    }
  }

  lemma IdOfLoan(merged: seq<Loan>, id: string) returns (k: nat)
    requires id in SortedIds(merged)
    ensures k < |merged| && merged[k].id == id
  {
    Text.SortedDistinctSpec(Ids(merged));
    k :| 0 <= k < |Ids(merged)| && Ids(merged)[k] == id;
  }

  /** Some loan of the portfolio falls, and some rises, exactly when the totals of those parts are positive. */
  lemma PartsExactly(merged: seq<Loan>, lgd: seq<LgdResult>)
    requires ValidLoans(merged) && UniqueIds(merged)
    ensures var ids, walks := SortedIds(merged), Walks(merged, lgd);
            && (Sum(ids, Fallen(merged, walks)) > 0.0 <==> exists loan :: loan in merged && Falls(loan))
            && (Sum(ids, Risen(merged, walks)) > 0.0 <==> exists loan :: loan in merged && Rises(loan))
  {
    hide Sum, Fallen, Risen, Falls, Rises, Walks, SortedIds, UniqueIds, StoredOf, FirstOutstanding;
    var ids, walks := SortedIds(merged), Walks(merged, lgd);
    forall id | id in ids ensures Fallen(merged, walks)(id) >= 0.0 && Risen(merged, walks)(id) >= 0.0 {
      PartsNonNegative(merged, walks, id);
    }
    SumPositive(ids, Fallen(merged, walks));
    SumPositive(ids, Risen(merged, walks));
    forall id | id in ids
      ensures Fallen(merged, walks)(id) > 0.0 ==> exists loan :: loan in merged && Falls(loan)
      ensures Risen(merged, walks)(id) > 0.0 ==> exists loan :: loan in merged && Rises(loan)
    {
      var k := IdOfLoan(merged, id);
      LoanDifference(merged, lgd, k);
      assert merged[k] in merged;
    }
    forall loan | loan in merged
      ensures Falls(loan) ==> exists id :: id in ids && Fallen(merged, walks)(id) > 0.0
      ensures Rises(loan) ==> exists id :: id in ids && Risen(merged, walks)(id) > 0.0
    {
      var k :| 0 <= k < |merged| && merged[k] == loan;
      LoanDifference(merged, lgd, k);
      IdListed(merged, k);
    }
  }

  /**
   * The portfolio difference: the input total exceeds the stored one by what the Loan IDs lose, less what they gain.
   * Where every Loan ID is on one input row, each part is positive exactly when the portfolio holds a falling loan, or
   * a rising one.
   */
  lemma PortfolioDifference(merged: seq<Loan>, lgd: seq<LgdResult>)
    requires ValidLoans(merged)
    ensures var ids, walks := SortedIds(merged), Walks(merged, lgd);
            var fallen, risen := Sum(ids, Fallen(merged, walks)), Sum(ids, Risen(merged, walks));
            && InputOutstanding(merged) - StoredOutstanding(merged, lgd) == fallen - risen
            && fallen >= 0.0 && risen >= 0.0
            && (UniqueIds(merged) ==> (fallen > 0.0 <==> exists loan :: loan in merged && Falls(loan)))
            && (UniqueIds(merged) ==> (risen > 0.0 <==> exists loan :: loan in merged && Rises(loan)))
  {
    hide Sum, Fallen, Risen, Falls, Rises, Walks, SortedIds, UniqueIds, StoredOf, FirstOutstanding;
    SplitDifference(SortedIds(merged), merged, Walks(merged, lgd));
    if UniqueIds(merged) {
      PartsExactly(merged, lgd);
    }
  }

  lemma PartsNonNegative(merged: seq<Loan>, walks: seq<WalkRow>, id: string)
    ensures Fallen(merged, walks)(id) >= 0.0 && Risen(merged, walks)(id) >= 0.0
  {
    hide StoredOf, FirstOutstanding;
    assert Fallen(merged, walks)(id) == Max(FirstOutstanding(merged)(id) - StoredOf(walks)(id), 0.0);
    assert Risen(merged, walks)(id) == Max(StoredOf(walks)(id) - FirstOutstanding(merged)(id), 0.0);
  }

  // ----- The two coverage ratios -----

  /** A coverage ratio, 0 where nothing is outstanding (compute_tasks.py:355, excel_writer.py:374). */
  function Coverage(totalEcl: real, outstanding: real): real {
    if outstanding > 0.0 then Ratio(totalEcl, outstanding) else 0.0
  }

  lemma SmallerDivisor(x: real, s: real, t: real)
    requires x > 0.0 && 0.0 < s < t
    ensures Ratio(x, s) > Ratio(x, t) > 0.0
  {
    hide Ratio;
    RatioSpec(x, s);
    RatioSpec(x, t);
    var p, q := Ratio(x, s), Ratio(x, t);
    PositiveQuotient(x, t, q);
    Scale(s, t, q);
    if p <= q {
      ScaleLeft(s, p, q);
    }
  }

  lemma PositiveQuotient(x: real, t: real, q: real)
    requires x > 0.0 && t > 0.0 && t * q == x
    ensures q > 0.0
  {}

  lemma CoverageOrder(x: real, stored: real, input: real)
    requires x > 0.0 && stored >= 0.0 && input >= 0.0
    ensures Coverage(x, stored) > Coverage(x, input) <==> stored > 0.0 && (stored < input || input == 0.0)
    ensures Coverage(x, stored) < Coverage(x, input) <==> input > 0.0 && (input < stored || stored == 0.0)
  {
    hide Ratio;
    if stored > 0.0 {
      SmallerDivisor(x, stored, stored + 1.0);
    }
    if input > 0.0 {
      SmallerDivisor(x, input, input + 1.0);
    }
    if 0.0 < stored < input {
      SmallerDivisor(x, stored, input);
    }
    if 0.0 < input < stored {
      SmallerDivisor(x, input, stored);
    }
  }

  lemma {:induction false} AmountNonNegative(loans: seq<Loan>, id: string)
    requires ValidLoans(loans)
    ensures FirstAmount(loans, id) >= 0.0
  {
    if loans != [] {
      AmountNonNegative(loans[1..], id);
    }
  }

  lemma StoredNonNegative(merged: seq<Loan>, lgd: seq<LgdResult>, id: string)
    requires ValidLoans(merged)
    ensures StoredOf(Walks(merged, lgd))(id) >= 0.0
  {
    hide Walks, Filter, MaxBalance;
    var rows := Filter(Walks(merged, lgd), OfWalkId(id));
    FilterMembers(Walks(merged, lgd), OfWalkId(id));
    if rows != [] {
      MaxBalanceSpec(rows);
      assert rows[0] in rows;
      WalkMember(merged, lgd, rows[0]);
    }
  }

  lemma TotalsNonNegative(merged: seq<Loan>, lgd: seq<LgdResult>)
    requires ValidLoans(merged)
    ensures InputOutstanding(merged) >= 0.0 && StoredOutstanding(merged, lgd) >= 0.0
  {
    hide Walks, SortedIds, StoredOf, Sum;
    var ids := SortedIds(merged);
    forall id | id in ids ensures FirstOutstanding(merged)(id) >= 0.0 && StoredOf(Walks(merged, lgd))(id) >= 0.0 {
      AmountNonNegative(merged, id);
      StoredNonNegative(merged, lgd, id);
    }
    SumPositive(ids, FirstOutstanding(merged));
    SumPositive(ids, StoredOf(Walks(merged, lgd)));
  }

  lemma InputPositive(merged: seq<Loan>)
    requires ValidLoans(merged) && UniqueIds(merged)
    ensures InputOutstanding(merged) > 0.0 <==> exists loan :: loan in merged && loan.outstanding > 0.0
  {
    hide SortedIds, UniqueIds, Sum;
    var ids := SortedIds(merged);
    forall id | id in ids
      ensures FirstOutstanding(merged)(id) >= 0.0
      ensures FirstOutstanding(merged)(id) > 0.0 ==> exists loan :: loan in merged && loan.outstanding > 0.0
    {
      var k := IdOfLoan(merged, id);
      FirstAmountOf(merged, k);
      assert ValidLoan(merged[k]) && merged[k] in merged;
    }
    forall loan | loan in merged && loan.outstanding > 0.0 ensures exists id :: id in ids && FirstOutstanding(merged)(id) > 0.0 {
      var k :| 0 <= k < |merged| && merged[k] == loan;
      FirstAmountOf(merged, k);
      IdListed(merged, k);
    }
    SumPositive(ids, FirstOutstanding(merged));
  }

  lemma StoredOfPositive(merged: seq<Loan>, lgd: seq<LgdResult>, k: nat)
    requires ValidLoans(merged) && UniqueIds(merged) && k < |merged|
    ensures StoredOf(Walks(merged, lgd))(merged[k].id) > 0.0 <==> Keeps(merged[k])
  {
    hide Walks, StoredOf, MaxBalance, LoanWalk, RowCount, InTerm, RemainingTerm, MergeCollateral;
    assert ValidLoan(merged[k]);
    StoredOfLoan(merged, lgd, k);
    if RowCount(merged[k]) >= 1 {
      StoredPositive(merged[k], MergeCollateral(lgd, merged[k].id));
    }
  }

  lemma TotalStoredPositive(merged: seq<Loan>, lgd: seq<LgdResult>)
    requires ValidLoans(merged) && UniqueIds(merged)
    ensures StoredOutstanding(merged, lgd) > 0.0 <==> exists loan :: loan in merged && Keeps(loan)
  {
    hide SortedIds, UniqueIds, Sum, Walks, StoredOf, Keeps;
    var ids, walks := SortedIds(merged), Walks(merged, lgd);
    forall id | id in ids
      ensures StoredOf(walks)(id) >= 0.0
      ensures StoredOf(walks)(id) > 0.0 ==> exists loan :: loan in merged && Keeps(loan)
    {
      StoredNonNegative(merged, lgd, id);
      var k := IdOfLoan(merged, id);
      StoredOfPositive(merged, lgd, k);
      assert merged[k] in merged;
    }
    forall loan | loan in merged && Keeps(loan) ensures exists id :: id in ids && StoredOf(walks)(id) > 0.0 {
      var k :| 0 <= k < |merged| && merged[k] == loan;
      StoredOfPositive(merged, lgd, k);
      IdListed(merged, k);
    }
    SumPositive(ids, StoredOf(walks));
  }

  /** Some loan of the portfolio, seen at the rate the LGD join left on it. */
  predicate Has(merged: seq<Loan>, p: Loan -> bool) { exists loan :: loan in merged && p(loan) }

  /**
   * The stored total against the input's, decided on the input rows: without a rising loan it is below exactly when some
   * loan falls, without a falling one above exactly when some loan rises, and positive exactly when some loan keeps a balance.
   */
  lemma TotalsAgainstInput(merged: seq<Loan>, lgd: seq<LgdResult>)
    requires ValidLoans(merged) && UniqueIds(merged)
    ensures var stored, input := StoredOutstanding(merged, lgd), InputOutstanding(merged);
            && (!Has(merged, Rises) ==> stored <= input && (stored < input <==> Has(merged, Falls)))
            && (!Has(merged, Falls) ==> stored >= input && (stored > input <==> Has(merged, Rises)))
            && stored >= 0.0 && (stored > 0.0 <==> Has(merged, Keeps))
            && input >= 0.0 && (input > 0.0 <==> exists loan :: loan in merged && loan.outstanding > 0.0)
  {
    hide Sum, Walks, SortedIds, UniqueIds, StoredOutstanding, InputOutstanding, Falls, Rises, Keeps, Fallen, Risen;
    PortfolioDifference(merged, lgd);
    TotalsNonNegative(merged, lgd);
    TotalStoredPositive(merged, lgd);
    InputPositive(merged);
  }

  /** Where no rows were generated both totals are 0. */
  lemma TotalsWithoutRows(merged: seq<Loan>, lgd: seq<LgdResult>)
    requires ValidLoans(merged) && Walks(merged, lgd) == []
    ensures StoredOutstanding(merged, lgd) == 0.0 && ReportedOutstanding(merged, Walks(merged, lgd)) == 0.0
  {
    hide Walks, SortedIds, Sum;
    forall id | id in SortedIds(merged) ensures StoredOf(Walks(merged, lgd))(id) == 0.0 {
      FilterNone(Walks(merged, lgd), OfWalkId(id));
    }
    SumZero(SortedIds(merged), StoredOf(Walks(merged, lgd)));
  }

  lemma MergeUnique(loans: seq<Loan>, lgd: seq<LgdResult>)
    requires UniqueIds(loans)
    ensures UniqueIds(Merge(loans, lgd))
  {
    forall i | 0 <= i < |loans| ensures Merge(loans, lgd)[i].id == loans[i].id {}
  }

  lemma RisesOwes(loan: Loan)
    requires Rises(loan)
    ensures loan.outstanding > 0.0
  {}

  lemma NoWalksNoLoss(loans: seq<Loan>, pd: seq<PdRow>, lgd: seq<LgdResult>)
    requires ValidLoans(loans) && ValidLgd(lgd) && ValidLoans(Merge(loans, lgd)) && Sum(EclRows(loans, pd, lgd), DiscountedEcl()) > 0.0
    ensures Walks(Merge(loans, lgd), lgd) != []
  {
    hide Walks, Merge, JoinPd;
  }

  /**
   * The two coverage ratios of a run with a positive Total ECL, decided on the input rows. Without a rising loan the
   * stored ratio is above the workbook's exactly when some loan falls and some loan keeps a balance, and below exactly
   * when none keeps one; without a falling loan it is never above, and below exactly when some loan rises.
   */
  lemma CoverageByLoans(loans: seq<Loan>, pd: seq<PdRow>, lgd: seq<LgdResult>)
    requires ValidLoans(loans) && ValidLgd(lgd) && UniqueIds(loans)
    requires Sum(EclRows(loans, pd, lgd), DiscountedEcl()) > 0.0
    ensures ValidLoans(Merge(loans, lgd))
    ensures var merged := Merge(loans, lgd);
            var totalEcl := Sum(EclRows(loans, pd, lgd), DiscountedEcl());
            var stored := Coverage(totalEcl, StoredOutstanding(merged, lgd));
            var reported := Coverage(totalEcl, ReportedOutstanding(loans, Walks(merged, lgd)));
            && (!Has(merged, Rises) ==>
                  && (stored > reported <==> Has(merged, Falls) && Has(merged, Keeps))
                  && (stored < reported <==> Has(merged, Falls) && !Has(merged, Keeps)))
            && (!Has(merged, Falls) ==> stored <= reported && (stored < reported <==> Has(merged, Rises)))
  {
    hide Sum, EclRows, Walks, Merge, UniqueIds, StoredOutstanding, InputOutstanding, Falls, Rises, Keeps, Coverage, ValidLoans, DiscountedEcl;
    MergeValid(loans, lgd);
    MergeUnique(loans, lgd);
    MergeKeepsInput(loans, lgd);
    NoWalksNoLoss(loans, pd, lgd);
    var merged := Merge(loans, lgd);
    TotalsAgainstInput(merged, lgd);
    if Has(merged, Rises) {
      var loan :| loan in merged && Rises(loan);
      RisesOwes(loan);
    }
    CoverageOrder(Sum(EclRows(loans, pd, lgd), DiscountedEcl()), StoredOutstanding(merged, lgd), InputOutstanding(merged));
  }
}
