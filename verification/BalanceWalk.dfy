/** The EAD engine's instalment and month-by-month balance walk for one loan. */
module BalanceWalk {
  import opened RealMath
  import opened Annuity

  datatype Frequency = Mth | Qtr

  const MISSED_EPS := 0.000000001

  // ----- _period_instalment (ead_engine.py:37-62) -----

  function QuarterCount(remaining: int): (n: nat)
    ensures n >= 1
  {
    if remaining / 3 >= 1 then remaining / 3 else 1
  }

  function PeriodInstalment(outstanding: real, eir: real, remaining: int, freq: Frequency): real
    requires eir >= 0.0
  {
    if freq == Qtr then
      (if eir / 4.0 == 0.0 then Ratio(outstanding, QuarterCount(remaining) as real)
       else Pmt(eir / 4.0, QuarterCount(remaining), outstanding))
    else if remaining <= 0 then 0.0
    else if eir / 12.0 == 0.0 then Ratio(outstanding, remaining as real)
    else Pmt(eir / 12.0, remaining, outstanding)
  }

  // ----- _walk_loan_balances (ead_engine.py:96-134) -----

  /** The terms a walk reads from the first row of its group. */
  datatype Terms = Terms(outstanding: real, monthlyRate: real, instalment: real, freq: Frequency)

  predicate PaymentRow(freq: Frequency, row: nat) { freq != Qtr || (row + 1) % 3 == 0 }

  function ClampAtZero(x: real): (y: real)
    ensures y >= 0.0 && y >= x
  {
    if x < 0.0 then 0.0 else x
  }

  function Due(t: Terms, row: nat): real { if PaymentRow(t.freq, row) then t.instalment else 0.0 }

  /** The balance with which row k opens; row k closes with Balance(t, k + 1). */
  function Balance(t: Terms, k: nat): real {
    if k == 0 then t.outstanding
    else ClampAtZero(Accrue(Balance(t, k - 1), t.monthlyRate) - Due(t, k - 1))
  }

  function PaymentRows(n: nat): seq<nat> {
    if n == 0 then [] else PaymentRows(n - 1) + (if n % 3 == 0 then [n - 1] else [])
  }

  function Range(lo: nat, hi: nat): seq<nat>
    requires lo <= hi
  {
    seq(hi - lo, i requires 0 <= i => lo + i)
  }

  function LastThree(s: seq<nat>): seq<nat> { if |s| <= 3 then s else s[|s| - 3..] }

  /** The payment events the missed count looks back at from a row. */
  function Lookback(freq: Frequency, row: nat): seq<nat> {
    if freq == Qtr then LastThree(PaymentRows(row))
    else Range(if row <= 3 then 0 else row - 3, row)
  }

  predicate Misses(opening: real, rate: real, instalment: real) {
    Accrue(opening, rate) + MISSED_EPS < instalment
  }

  /** A payment is missed when the balance with a month's interest, give or take 10^-9, does not cover the instalment. */
  lemma MissesMeans(opening: real, rate: real, instalment: real)
    ensures Misses(opening, rate, instalment) <==> opening * (1.0 + rate) + 0.000000001 < instalment
  {}

  /** How many of the listed rows could not cover the instalment. */
  function CountMissed(rows: seq<nat>, opening: seq<real>, rate: real, instalment: real): (missed: nat)
    requires forall i :: 0 <= i < |rows| ==> rows[i] < |opening|
    ensures missed <= |rows|
    ensures missed > 0 ==> exists i :: 0 <= i < |rows| && Misses(opening[rows[i]], rate, instalment)
  {
    if rows == [] then 0
    else
      var rest := CountMissed(rows[..|rows| - 1], opening, rate, instalment);
      if Misses(opening[rows[|rows| - 1]], rate, instalment) then rest + 1 else rest
  }

  lemma {:induction false} PaymentRowsPay(n: nat)
    ensures forall i :: 0 <= i < |PaymentRows(n)| ==> PaymentRows(n)[i] < n && PaymentRow(Qtr, PaymentRows(n)[i])
  {
    if n != 0 {
      PaymentRowsPay(n - 1);
    }
  }

  /** The lookback reaches at most three earlier rows, all of them payment rows. */
  lemma LookbackPays(freq: Frequency, row: nat)
    ensures |Lookback(freq, row)| <= 3
    ensures forall i :: 0 <= i < |Lookback(freq, row)| ==> Lookback(freq, row)[i] < row && PaymentRow(freq, Lookback(freq, row)[i])
  {
    PaymentRowsPay(row);
  }

  function AtMostThree(n: nat): nat { if n <= 3 then n else 3 }

  method LookbackRows(freq: Frequency, row: nat) returns (lookback: seq<nat>)
    ensures lookback == Lookback(freq, row)
  {
    if freq == Qtr {
      var paymentRows: seq<nat> := [];
      for i := 0 to row
        invariant paymentRows == PaymentRows(i)
      {
        if (i + 1) % 3 == 0 {
          paymentRows := paymentRows + [i];
        }
      }
      lookback := LastThree(paymentRows);
    } else {
      lookback := Range(if row <= 3 then 0 else row - 3, row);
    }
  }

  method CountMissedPeriods(row: nat, opening: seq<real>, rate: real, instalment: real, freq: Frequency) returns (missed: nat)
    requires row <= |opening|
    ensures instalment <= 0.0 ==> missed == 0
    ensures forall i :: 0 <= i < |Lookback(freq, row)| ==> Lookback(freq, row)[i] < |opening|
    ensures instalment > 0.0 ==> missed == CountMissed(Lookback(freq, row), opening, rate, instalment)
    ensures missed <= 3
  {
    hide Accrue, Lookback;
    LookbackPays(freq, row);
    if instalment <= 0.0 {
      return 0;
    }
    var lookback := LookbackRows(freq, row);
    missed := 0;
    for i := 0 to |lookback|
      invariant missed == CountMissed(lookback[..i], opening, rate, instalment)
    {
      assert lookback[..i + 1][..i] == lookback[..i];
      if Accrue(opening[lookback[i]], rate) + MISSED_EPS < instalment {
        missed := missed + 1;
      }
    }
    assert lookback[..|lookback|] == lookback;
    missed := AtMostThree(missed);
  }

  // ----- Missed-payment compounding never changes a balance -----

  lemma AccrueZero(rate: real)
    ensures Accrue(0.0, rate) == 0.0
  {}

  /** A cleared balance stays cleared. */
  lemma {:induction false} ZeroPersists(t: Terms, j: nat, k: nat)
    requires t.instalment >= 0.0 && j <= k && Balance(t, j) == 0.0
    ensures Balance(t, k) == 0.0
    decreases k
  {
    hide Accrue;
    if j < k {
      ZeroPersists(t, j, k - 1);
      AccrueZero(t.monthlyRate);
    }
  }

  /** A counted miss means the row clamped to zero, and zero persists, whatever the rate. */
  lemma MissClears(t: Terms, p: nat, row: nat)
    requires t.instalment > 0.0 && p < row && PaymentRow(t.freq, p)
    requires Misses(Balance(t, p), t.monthlyRate, t.instalment)
    ensures Balance(t, row) == 0.0
  {
    hide Accrue;
    ZeroPersists(t, p + 1, row);
  }

  function Compound(balance: real, rate: real, periods: nat): real { balance * Pow(1.0 + rate, periods) }

  lemma ZeroTimes(x: real, y: real)
    requires x == 0.0 || y == 1.0
    ensures x * y == x
  {}

  /** How often the missed count compounds row's balance, from the balances the earlier rows opened with. */
  ghost function MissedCount(t: Terms, row: nat): (missed: nat)
    ensures missed <= 3
  {
    LookbackPays(t.freq, row);
    if t.instalment <= 0.0 then 0
    else CountMissed(Lookback(t.freq, row), seq(row, i requires 0 <= i => Balance(t, i)), t.monthlyRate, t.instalment)
  }

  /** Missed-payment compounding never changes a balance, for any frequency, rate, instalment and row. */
  lemma CompoundingChangesNothing(t: Terms, row: nat)
    ensures Compound(Balance(t, row + 1), t.monthlyRate, MissedCount(t, row)) == Balance(t, row + 1)
  {
    hide Accrue, Pow, Balance;
    var opening := seq(row, i requires 0 <= i => Balance(t, i));
    if MissedCount(t, row) > 0 {
      LookbackPays(t.freq, row);
      var i :| 0 <= i < |Lookback(t.freq, row)| && Misses(opening[Lookback(t.freq, row)[i]], t.monthlyRate, t.instalment);
      MissClears(t, Lookback(t.freq, row)[i], row + 1);
    } else {
      PowZero(1.0 + t.monthlyRate);
    }
    ZeroTimes(Balance(t, row + 1), Pow(1.0 + t.monthlyRate, MissedCount(t, row)));
  }

  lemma {:induction false} CountMissedPrefix(rows: seq<nat>, opening: seq<real>, more: seq<real>, rate: real, instalment: real)
    requires opening <= more
    requires forall i :: 0 <= i < |rows| ==> rows[i] < |opening|
    ensures CountMissed(rows, opening, rate, instalment) == CountMissed(rows, more, rate, instalment)
  {
    if rows != [] {
      CountMissedPrefix(rows[..|rows| - 1], opening, more, rate, instalment);
    }
  }

  /**
   * The walk: Balance After Repayment follows the recurrence, and Balance After Missed
   * Payment is the same column for every frequency, rate and instalment.
   */
  method WalkLoanBalances(rows: nat, outstanding: real, eir: real, instalment: real, freq: Frequency)
    returns (afterRepayment: seq<real>, afterMissed: seq<real>, periods: seq<int>)
    ensures |afterRepayment| == rows && |periods| == rows
    ensures forall i :: 0 <= i < rows ==> afterRepayment[i] == Balance(Terms(outstanding, eir / 12.0, instalment, freq), i + 1)
    ensures afterMissed == afterRepayment
    ensures forall i :: 0 <= i < rows ==> periods[i] == i
  {
    hide Accrue, Compound, Lookback, MissedCount, Balance;
    var monthlyRate := eir / 12.0;
    ghost var t := Terms(outstanding, monthlyRate, instalment, freq);
    var openings: seq<real> := [];
    afterRepayment, afterMissed, periods := [], [], [];
    BalanceStep(t, 0);
    for row := 0 to rows
      invariant |openings| == |afterRepayment| == |afterMissed| == |periods| == row
      invariant forall i :: 0 <= i < row ==> openings[i] == Balance(t, i)
      invariant forall i :: 0 <= i < row ==> afterRepayment[i] == Balance(t, i + 1)
      invariant afterMissed == afterRepayment
      invariant forall i :: 0 <= i < row ==> periods[i] == i
    {
      var opening := if row == 0 then outstanding else afterRepayment[row - 1];
      ghost var before := openings;
      openings := openings + [opening];
      var isPaymentMonth := freq != Qtr || (row + 1) % 3 == 0;
      var effectiveInstalment := if isPaymentMonth then instalment else 0.0;
      var repaid := Accrue(opening, monthlyRate) - effectiveInstalment;
      if repaid < 0.0 {
        repaid := 0.0;
      }
      BalanceStep(t, row);
      assert repaid == Balance(t, row + 1);
      afterRepayment := afterRepayment + [repaid];
      var missedCount := CountMissedPeriods(row, openings, monthlyRate, instalment, freq);
      var missed := Compound(repaid, monthlyRate, missedCount);
      assert missed == repaid by {
        MissedCountIs(t, row, before, openings, missedCount);
        CompoundingChangesNothing(t, row);
      }
      afterMissed := afterMissed + [missed];
      periods := periods + [row];
    }
  }

  lemma BalanceStep(t: Terms, row: nat)
    ensures Balance(t, 0) == t.outstanding
    ensures Balance(t, row + 1) == ClampAtZero(Accrue(Balance(t, row), t.monthlyRate) - Due(t, row))
  {}

  lemma MissedCountIs(t: Terms, row: nat, opening: seq<real>, more: seq<real>, missed: nat)
    requires |opening| == row && opening <= more
    requires forall i :: 0 <= i < row ==> opening[i] == Balance(t, i)
    requires t.instalment <= 0.0 ==> missed == 0
    requires forall i :: 0 <= i < |Lookback(t.freq, row)| ==> Lookback(t.freq, row)[i] < |more|
    requires t.instalment > 0.0 ==> missed == CountMissed(Lookback(t.freq, row), more, t.monthlyRate, t.instalment)
    ensures missed == MissedCount(t, row)
  {
    hide Balance, Lookback;
    LookbackPays(t.freq, row);
    assert opening == seq(row, i requires 0 <= i => Balance(t, i));
    CountMissedPrefix(Lookback(t.freq, row), opening, more, t.monthlyRate, t.instalment);
  }

  // ----- Monthly loans amortise exactly -----

  /** The terms of a walk whose instalment compute_ead derives from the same loan. */
  function LoanTerms(outstanding: real, eir: real, remaining: int, freq: Frequency): Terms
    requires eir >= 0.0
  {
    Terms(outstanding, eir / 12.0, PeriodInstalment(outstanding, eir, remaining, freq), freq)
  }

  lemma MonthlyInstalment(outstanding: real, eir: real, n: nat)
    requires eir >= 0.0 && n >= 1
    ensures PeriodInstalment(outstanding, eir, n, Mth) == LevelPayment(eir / 12.0, n, outstanding)
  {}

  lemma LevelPaymentNonNegative(rate: real, n: nat, pv: real)
    requires rate >= 0.0 && n >= 1 && pv >= 0.0
    ensures LevelPayment(rate, n, pv) >= 0.0
  {
    hide Pmt;
    if rate == 0.0 {
      RatioSpec(pv, n as real);
    } else {
      PmtSpec(rate, n, pv);
    }
  }

  /** The clamp never fires within the term: the walk is the annuity recurrence. */
  lemma {:induction false} MonthlyWalkIsAnnuity(t: Terms, n: nat, k: nat)
    requires t.outstanding >= 0.0 && t.monthlyRate >= 0.0 && t.freq == Mth && 1 <= n && k <= n
    requires t.instalment == LevelPayment(t.monthlyRate, n, t.outstanding)
    ensures Balance(t, k) == Owed(t.outstanding, t.monthlyRate, t.instalment, k)
  {
    hide Accrue, LevelPayment;
    if k != 0 {
      MonthlyWalkIsAnnuity(t, n, k - 1);
      OwedClears(t.outstanding, t.monthlyRate, n, k);
    }
  }

  /**
   * Monthly amortisation: after k payments of n the balance is the closed form, it is cleared
   * exactly with payment n and stays cleared, and the instalments are worth the outstanding amount.
   */
  lemma MonthlyAmortises(outstanding: real, eir: real, n: nat, k: nat)
    requires outstanding >= 0.0 && eir >= 0.0 && n >= 1
    ensures k <= n ==> Balance(LoanTerms(outstanding, eir, n, Mth), k) == ClosedForm(outstanding, eir / 12.0, n, k)
    ensures k >= n ==> Balance(LoanTerms(outstanding, eir, n, Mth), k) == 0.0
    ensures PresentValue(PeriodInstalment(outstanding, eir, n, Mth), eir / 12.0, n) == outstanding
  {
    hide PeriodInstalment, LevelPayment, ClosedForm, PresentValue, Owed, Balance;
    var t := LoanTerms(outstanding, eir, n, Mth);
    MonthlyInstalment(outstanding, eir, n);
    if k <= n {
      MonthlyWalkIsAnnuity(t, n, k);
      OwedClosedForm(outstanding, t.monthlyRate, n, k);
    } else {
      MonthlyWalkIsAnnuity(t, n, n);
      OwedClears(outstanding, t.monthlyRate, n, n);
      LevelPaymentNonNegative(t.monthlyRate, n, outstanding);
      ZeroPersists(t, n, k);
    }
    MonthlyWalkIsAnnuity(t, n, n);
    OwedClears(outstanding, t.monthlyRate, n, n);
    InstalmentsWorthOutstanding(outstanding, t.monthlyRate, n);
  }

  lemma ClosedFormFalls(pv: real, rate: real, n: nat, k: nat)
    requires pv >= 0.0 && rate >= 0.0 && n >= 1 && k < n
    ensures Owed(pv, rate, LevelPayment(rate, n, pv), k + 1) <= Owed(pv, rate, LevelPayment(rate, n, pv), k)
    ensures pv > 0.0 ==> Owed(pv, rate, LevelPayment(rate, n, pv), k + 1) < Owed(pv, rate, LevelPayment(rate, n, pv), k)
  {
    hide Pow, Ratio, Pmt, Owed;
    var payment := LevelPayment(rate, n, pv);
    var now, next := Owed(pv, rate, payment, k), Owed(pv, rate, payment, k + 1);
    if rate == 0.0 {
      OwedZeroRate(pv, n, k);
      OwedZeroRate(pv, n, k + 1);
      var x, y := n as real - k as real, n as real - (k + 1) as real;
      ScaleLeft(pv, y, x);
      Drop(now, next, n as real, pv * x, pv * y);
    } else {
      OwedTimesGrowth(pv, rate, n, k);
      OwedTimesGrowth(pv, rate, n, k + 1);
      PmtSpec(rate, n, pv);
      PowGrows(1.0 + rate, k, k + 1);
      var g := Pow(1.0 + rate, n);
      var x, y := g - Pow(1.0 + rate, k), g - Pow(1.0 + rate, k + 1);
      ScaleLeft(pv, y, x);
      Drop(now, next, g - 1.0, pv * x, pv * y);
    }
  }

  lemma CancelFactor(p: real, q: real, t: real)
    requires t > 0.0 && p * t <= q * t
    ensures p <= q && (p * t < q * t ==> p < q)
  {}

  lemma Drop(now: real, next: real, t: real, a: real, b: real)
    requires t > 0.0 && now * t == a && next * t == b && b <= a
    ensures next <= now && (b < a ==> next < now)
  {
    CancelFactor(next, now, t);
  }

  /** A monthly balance falls strictly with every payment of the term. */
  lemma MonthlyFalls(outstanding: real, eir: real, n: nat, k: nat)
    requires outstanding > 0.0 && eir >= 0.0 && k < n
    ensures Balance(LoanTerms(outstanding, eir, n, Mth), k + 1) < Balance(LoanTerms(outstanding, eir, n, Mth), k)
  {
    hide PeriodInstalment, LevelPayment, Owed, Balance;
    var t := LoanTerms(outstanding, eir, n, Mth);
    MonthlyInstalment(outstanding, eir, n);
    MonthlyWalkIsAnnuity(t, n, k);
    MonthlyWalkIsAnnuity(t, n, k + 1);
    ClosedFormFalls(outstanding, t.monthlyRate, n, k);
  }

  lemma AccrueNonNegative(balance: real, rate: real)
    requires balance >= 0.0 && rate >= 0.0
    ensures Accrue(balance, rate) >= balance
  {
    Scale(1.0, 1.0 + rate, balance);
  }

  lemma CompoundStep(balance: real, rate: real, k: nat)
    ensures Compound(balance, rate, 0) == balance
    ensures Compound(balance, rate, k + 1) == Accrue(Compound(balance, rate, k), rate)
  {
    PowStep(1.0 + rate, k);
    AccruePower(balance, rate, Pow(1.0 + rate, k));
  }

  lemma {:induction false} UnpaidBalanceGrows(t: Terms, k: nat)
    requires t.outstanding >= 0.0 && t.monthlyRate >= 0.0 && t.instalment == 0.0
    ensures Balance(t, k) == Compound(t.outstanding, t.monthlyRate, k) >= 0.0
  {
    hide Compound, Accrue, Balance;
    BalanceStep(t, 0);
    CompoundStep(t.outstanding, t.monthlyRate, 0);
    if k != 0 {
      UnpaidBalanceGrows(t, k - 1);
      CompoundStep(t.outstanding, t.monthlyRate, k - 1);
      AccrueNonNegative(Balance(t, k - 1), t.monthlyRate);
      BalanceStep(t, k - 1);
    }
  }

  /** A monthly loan past its adjusted maturity pays nothing, so its balance compounds without end. */
  lemma PastTermCompounds(outstanding: real, eir: real, remaining: int, k: nat)
    requires outstanding >= 0.0 && eir >= 0.0 && remaining <= 0
    ensures Balance(LoanTerms(outstanding, eir, remaining, Mth), k) == Compound(outstanding, eir / 12.0, k)
  {
    UnpaidBalanceGrows(LoanTerms(outstanding, eir, remaining, Mth), k);
  }

  // ----- Quarterly loans keep a residual -----

  /** Three months of the walk between two quarterly payments. */
  lemma ThreeMonths(t: Terms, q: nat)
    requires t.freq == Qtr && t.monthlyRate >= 0.0 && Balance(t, 3 * q) >= 0.0
    ensures Balance(t, 3 * q + 3) == ClampAtZero(Compound(Balance(t, 3 * q), t.monthlyRate, 3) - t.instalment)
  {
    hide Compound, Accrue, Balance;
    var b := Balance(t, 3 * q);
    BalanceStep(t, 3 * q);
    BalanceStep(t, 3 * q + 1);
    BalanceStep(t, 3 * q + 2);
    AccrueNonNegative(b, t.monthlyRate);
    AccrueNonNegative(Accrue(b, t.monthlyRate), t.monthlyRate);
    CompoundStep(b, t.monthlyRate, 0);
    CompoundStep(b, t.monthlyRate, 1);
    CompoundStep(b, t.monthlyRate, 2);
  }

  /** Three months at e/12 grow a balance at least as much as one quarter at e/4, and more when e and the balance are positive. */
  lemma MonthlyBeatsQuarterly(b: real, eir: real)
    requires b >= 0.0 && eir >= 0.0
    ensures Compound(b, eir / 12.0, 3) >= Accrue(b, eir / 4.0)
    ensures b > 0.0 && eir > 0.0 ==> Compound(b, eir / 12.0, 3) > Accrue(b, eir / 4.0)
  {
    var r := eir / 12.0;
    Cube(r);
    ScaleLeft(b, 1.0 + eir / 4.0, Pow(1.0 + r, 3));
    assert Compound(b, r, 3) == b * Pow(1.0 + r, 3);
    assert Accrue(b, eir / 4.0) == b * (1.0 + eir / 4.0);
  }

  lemma Cube(r: real)
    requires r >= 0.0
    ensures Pow(1.0 + r, 3) >= 1.0 + 3.0 * r
    ensures r > 0.0 ==> Pow(1.0 + r, 3) > 1.0 + 3.0 * r
  {
    hide Pow;
    var x := 1.0 + r;
    PowZero(x);
    PowStep(x, 0);
    PowStep(x, 1);
    PowStep(x, 2);
    CubeExpands(r, Pow(x, 1), Pow(x, 2), Pow(x, 3));
    if r > 0.0 {
      Scale(0.0, r, r);
      Scale(0.0, 3.0 + r, r * r);
    }
  }

  lemma CubeExpands(r: real, p1: real, p2: real, p3: real)
    requires p1 == 1.0 + r && p2 == (1.0 + r) * p1 && p3 == (1.0 + r) * p2
    ensures p3 == 1.0 + 3.0 * r + (3.0 + r) * (r * r)
  {
    assert p2 == 1.0 + 2.0 * r + r * r;
  }

  lemma AccrueMonotone(a: real, b: real, rate: real)
    requires a <= b && rate >= 0.0
    ensures Accrue(a, rate) <= Accrue(b, rate)
    ensures a < b ==> Accrue(a, rate) < Accrue(b, rate)
  {
    Scale(a, b, 1.0 + rate);
  }

  lemma QuarterlyInstalment(outstanding: real, eir: real, remaining: int)
    requires eir >= 0.0
    ensures PeriodInstalment(outstanding, eir, remaining, Qtr) == LevelPayment(eir / 4.0, QuarterCount(remaining), outstanding)
  {}

  lemma {:induction false} QuarterlyWalk(outstanding: real, eir: real, remaining: int, q: nat)
    requires outstanding >= 0.0 && eir >= 0.0 && q <= QuarterCount(remaining)
    ensures var n := QuarterCount(remaining);
            && Balance(LoanTerms(outstanding, eir, remaining, Qtr), 3 * q) >= ClosedForm(outstanding, eir / 4.0, n, q) >= 0.0
            && (q > 0 && outstanding > 0.0 && eir > 0.0
                ==> Balance(LoanTerms(outstanding, eir, remaining, Qtr), 3 * q) > ClosedForm(outstanding, eir / 4.0, n, q))
            && (eir == 0.0 ==> Balance(LoanTerms(outstanding, eir, remaining, Qtr), 3 * q) == ClosedForm(outstanding, eir / 4.0, n, q))
  {
    hide PeriodInstalment, LevelPayment, ClosedForm, Owed, Balance, Accrue, Compound;
    var t, n := LoanTerms(outstanding, eir, remaining, Qtr), QuarterCount(remaining);
    QuarterlyInstalment(outstanding, eir, remaining);
    OwedClosedForm(outstanding, eir / 4.0, n, q);
    OwedClears(outstanding, eir / 4.0, n, q);
    if q == 0 {
      BalanceStep(t, 0);
      OwedStart(outstanding, eir / 4.0, t.instalment);
    } else {
      QuarterlyWalk(outstanding, eir, remaining, q - 1);
      OwedClosedForm(outstanding, eir / 4.0, n, q - 1);
      var before, ideal := Balance(t, 3 * (q - 1)), ClosedForm(outstanding, eir / 4.0, n, q - 1);
      OwedStep(outstanding, eir / 4.0, t.instalment, q - 1);
      ThreeMonths(t, q - 1);
      MonthlyBeatsQuarterly(before, eir);
      AccrueMonotone(ideal, before, eir / 4.0);
      ZeroRateCompound(before, eir);
      if q == 1 {
        BalanceStep(t, 0);
      }
    }
  }

  lemma OwedStart(pv: real, rate: real, payment: real)
    ensures Owed(pv, rate, payment, 0) == pv
  {}

  lemma OwedStep(pv: real, rate: real, payment: real, k: nat)
    ensures Owed(pv, rate, payment, k + 1) == Accrue(Owed(pv, rate, payment, k), rate) - payment
  {}

  lemma ZeroRateCompound(b: real, eir: real)
    ensures eir == 0.0 ==> Compound(b, eir / 12.0, 3) == b == Accrue(b, eir / 4.0)
  {
    PowStep(1.0, 0);
    PowStep(1.0, 1);
    PowStep(1.0, 2);
  }

  lemma ResidualAfterLast(outstanding: real, eir: real, remaining: int)
    requires outstanding >= 0.0 && eir >= 0.0
    ensures Balance(LoanTerms(outstanding, eir, remaining, Qtr), 3 * QuarterCount(remaining)) > 0.0
       <==> outstanding > 0.0 && eir > 0.0
  {
    hide PeriodInstalment, LevelPayment, ClosedForm, Owed, Balance;
    var t, n := LoanTerms(outstanding, eir, remaining, Qtr), QuarterCount(remaining);
    QuarterlyWalk(outstanding, eir, remaining, n);
    OwedClosedForm(outstanding, eir / 4.0, n, n);
    OwedClears(outstanding, eir / 4.0, n, n);
    if outstanding == 0.0 {
      QuarterlyInstalment(outstanding, eir, remaining);
      LevelPaymentNonNegative(eir / 4.0, n, outstanding);
      BalanceStep(t, 0);
      ZeroPersists(t, 0, 3 * n);
    }
  }

  /** n quarterly payments are scheduled over the remaining months: the whole quarters, and at least one. */
  predicate Payments(remaining: int, n: nat) { (n >= 1 && 3 * n <= remaining < 3 * n + 3) || (n == 1 && remaining < 3) }

  /** Whatever the remaining months, some number of payments is scheduled, and only one. */
  lemma PaymentsScheduled(remaining: int, n: nat)
    ensures exists m: nat :: Payments(remaining, m)
    ensures Payments(remaining, n) ==> n >= 1 && forall m: nat :: Payments(remaining, m) ==> m == n
  {
    if remaining >= 3 {
      assert Payments(remaining, remaining / 3);
    } else {
      assert Payments(remaining, 1);
    }
  }

  lemma PaymentsCounted(remaining: int, n: nat)
    requires Payments(remaining, n)
    ensures QuarterCount(remaining) == n
  {}

  /**
   * After every scheduled payment a quarterly loan owes at least the ideal quarterly annuity balance over n payments:
   * strictly more when it bears interest, exactly that when it does not.
   */
  lemma QuarterlyDominates(outstanding: real, eir: real, remaining: int, n: nat, q: nat)
    requires outstanding >= 0.0 && eir >= 0.0 && Payments(remaining, n) && n >= 1 && q <= n
    ensures var owed, ideal := Balance(LoanTerms(outstanding, eir, remaining, Qtr), 3 * q), ClosedForm(outstanding, eir / 4.0, n, q);
            && owed >= ideal >= 0.0
            && (q > 0 && outstanding > 0.0 && eir > 0.0 ==> owed > ideal)
            && (eir == 0.0 ==> owed == ideal)
  {
    hide PeriodInstalment, ClosedForm, Balance;
    PaymentsCounted(remaining, n);
    QuarterlyWalk(outstanding, eir, remaining, q);
  }

  /** After the last of its n scheduled payments a quarterly loan still owes something exactly when it bears interest on a positive amount. */
  lemma QuarterlyResidual(outstanding: real, eir: real, remaining: int, n: nat)
    requires outstanding >= 0.0 && eir >= 0.0 && Payments(remaining, n)
    ensures Balance(LoanTerms(outstanding, eir, remaining, Qtr), 3 * n) > 0.0 <==> outstanding > 0.0 && eir > 0.0
  {
    hide PeriodInstalment, Balance;
    PaymentsCounted(remaining, n);
    ResidualAfterLast(outstanding, eir, remaining);
  }

  /** Without interest a quarterly loan is cleared by the last of its n payments and by no earlier one, and each is outstanding / n. */
  lemma QuarterlyClears(outstanding: real, remaining: int, n: nat, q: nat)
    requires outstanding > 0.0 && Payments(remaining, n) && q <= n
    ensures Balance(LoanTerms(outstanding, 0.0, remaining, Qtr), 3 * q) * n as real == outstanding * (n - q) as real
    ensures Balance(LoanTerms(outstanding, 0.0, remaining, Qtr), 3 * q) > 0.0 <==> q < n
    ensures LoanTerms(outstanding, 0.0, remaining, Qtr).instalment * n as real == outstanding
  {
    hide PeriodInstalment, Balance, Ratio;
    PaymentsCounted(remaining, n);
    QuarterlyWalk(outstanding, 0.0, remaining, q);
    RatioSpec(outstanding * (n - q) as real, n as real);
    QuarterlyInstalment(outstanding, 0.0, remaining);
    RatioSpec(outstanding, n as real);
    PositiveShare(Balance(LoanTerms(outstanding, 0.0, remaining, Qtr), 3 * q), outstanding, (n - q) as real, n as real);
  }

  lemma PositiveShare(b: real, x: real, left: real, n: real)
    requires x > 0.0 && left >= 0.0 && n > 0.0 && n * b == x * left
    ensures b > 0.0 <==> left > 0.0
  {}
}
