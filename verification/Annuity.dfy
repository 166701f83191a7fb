/** The PMT formula and the annuity recurrence it closes. */
module Annuity {
  import opened RealMath

  /** -npf.pmt(rate, nper, pv): pv * temp / ((temp - 1) / rate) with temp = (1 + rate)^nper. */
  function Pmt(rate: real, nper: nat, pv: real): real
    requires rate > 0.0 && nper >= 1
  {
    PowGrows(1.0 + rate, 0, nper);
    var temp := Pow(1.0 + rate, nper);
    RatioPositive(temp - 1.0, rate);
    Ratio(pv * temp, Ratio(temp - 1.0, rate))
  }

  lemma RatioPositive(x: real, t: real)
    requires x > 0.0 && t > 0.0
    ensures Ratio(x, t) > 0.0
  {}

  /** The level payment over n periods, with the zero-rate case the source treats apart. */
  function LevelPayment(rate: real, n: nat, pv: real): real
    requires rate >= 0.0 && n >= 1
  {
    if rate == 0.0 then Ratio(pv, n as real) else Pmt(rate, n, pv)
  }

  /** What is owed after k periods when `payment` is paid at the end of each. */
  function Owed(pv: real, rate: real, payment: real, k: nat): real {
    if k == 0 then pv else Accrue(Owed(pv, rate, payment, k - 1), rate) - payment
  }

  function Accrue(balance: real, rate: real): real { balance * (1.0 + rate) }

  /** The textbook annuity balance after k of n periods. */
  function ClosedForm(pv: real, rate: real, n: nat, k: nat): real
    requires rate >= 0.0 && n >= 1
  {
    if rate == 0.0 then Ratio(pv * (n - k) as real, n as real)
    else
      PowGrows(1.0 + rate, 0, n);
      Ratio(pv * (Pow(1.0 + rate, n) - Pow(1.0 + rate, k)), Pow(1.0 + rate, n) - 1.0)
  }

  lemma PmtSpec(rate: real, n: nat, pv: real)
    requires rate > 0.0 && n >= 1
    ensures Pow(1.0 + rate, n) > 1.0
    ensures Pmt(rate, n, pv) * (Pow(1.0 + rate, n) - 1.0) == pv * rate * Pow(1.0 + rate, n)
    ensures pv >= 0.0 ==> Pmt(rate, n, pv) >= 0.0
  {
    PowGrows(1.0 + rate, 0, n);
    PowZero(1.0 + rate);
    var temp := Pow(1.0 + rate, n);
    RatioPositive(temp - 1.0, rate);
    assert Pmt(rate, n, pv) == Ratio(pv * temp, Ratio(temp - 1.0, rate));
    PmtAlgebra(rate, temp, pv, Pmt(rate, n, pv));
  }

  lemma PmtAlgebra(rate: real, temp: real, pv: real, payment: real)
    requires rate > 0.0 && temp > 1.0
    requires Ratio(temp - 1.0, rate) > 0.0 && payment == Ratio(pv * temp, Ratio(temp - 1.0, rate))
    ensures payment * (temp - 1.0) == pv * rate * temp
    ensures pv >= 0.0 ==> payment >= 0.0
  {
    hide Ratio;
    var fact := Ratio(temp - 1.0, rate);
    RatioSpec(temp - 1.0, rate);
    RatioSpec(pv * temp, fact);
    Reassociate(rate, fact, payment, temp - 1.0, pv * temp);
    Commute(pv, rate, temp);
    if pv >= 0.0 {
      Scale(0.0, pv, temp);
      RatioSpec(pv * temp, fact);
    }
  }

  lemma Reassociate(rate: real, fact: real, payment: real, x: real, y: real)
    requires rate * fact == x && fact * payment == y
    ensures payment * x == rate * y
  {
    assert payment * (rate * fact) == rate * (fact * payment);
  }

  lemma Commute(pv: real, rate: real, temp: real)
    ensures rate * (pv * temp) == pv * rate * temp
  {}

  /** One period of the recurrence, multiplied through by growth - 1. */
  lemma OwedAlgebra(owed: real, pv: real, rate: real, payment: real, growth: real, p: real)
    requires owed * (growth - 1.0) == pv * (growth - p)
    requires payment * (growth - 1.0) == pv * rate * growth
    ensures (Accrue(owed, rate) - payment) * (growth - 1.0) == pv * (growth - (1.0 + rate) * p)
  {
    calc {
      (Accrue(owed, rate) - payment) * (growth - 1.0);
      (1.0 + rate) * (owed * (growth - 1.0)) - payment * (growth - 1.0);
      (1.0 + rate) * (pv * (growth - p)) - pv * rate * growth;
      pv * (growth - (1.0 + rate) * p);
    }
  }

  /** The recurrence with the PMT payment, multiplied through. */
  lemma {:induction false} OwedTimesGrowth(pv: real, rate: real, n: nat, k: nat)
    requires rate > 0.0 && n >= 1
    ensures Owed(pv, rate, Pmt(rate, n, pv), k) * (Pow(1.0 + rate, n) - 1.0)
         == pv * (Pow(1.0 + rate, n) - Pow(1.0 + rate, k))
  {
    hide Pow, Pmt, Accrue;
    PmtSpec(rate, n, pv);
    if k == 0 {
      PowZero(1.0 + rate);
    } else {
      OwedTimesGrowth(pv, rate, n, k - 1);
      PowStep(1.0 + rate, k - 1);
      OwedAlgebra(Owed(pv, rate, Pmt(rate, n, pv), k - 1), pv, rate, Pmt(rate, n, pv),
                  Pow(1.0 + rate, n), Pow(1.0 + rate, k - 1));
    }
  }

  lemma ZeroRateStep(owed: real, pv: real, n: real, k: real)
    requires n > 0.0 && owed * n == pv * (n - k)
    ensures (owed - Ratio(pv, n)) * n == pv * (n - (k + 1.0))
  {
    RatioSpec(pv, n);
  }

  lemma {:induction false} OwedZeroRate(pv: real, n: nat, k: nat)
    requires n >= 1
    ensures Owed(pv, 0.0, Ratio(pv, n as real), k) * (n as real) == pv * (n as real - k as real)
  {
    hide Ratio;
    if k != 0 {
      OwedZeroRate(pv, n, k - 1);
      ZeroRateStep(Owed(pv, 0.0, Ratio(pv, n as real), k - 1), pv, n as real, (k - 1) as real);
    }
  }

  lemma QuotientOf(x: real, t: real, q: real)
    requires t > 0.0 && q * t == x
    ensures q == Ratio(x, t)
  {
    RatioSpec(x, t);
    Cancel(t, q, Ratio(x, t));
  }

  /** What is owed under the level payment is the textbook balance, for every period. */
  lemma OwedClosedForm(pv: real, rate: real, n: nat, k: nat)
    requires rate >= 0.0 && n >= 1
    ensures Owed(pv, rate, LevelPayment(rate, n, pv), k) == ClosedForm(pv, rate, n, k)
  {
    hide Pow, Ratio, Pmt, Owed;
    var owed := Owed(pv, rate, LevelPayment(rate, n, pv), k);
    if rate == 0.0 {
      OwedZeroRate(pv, n, k);
      QuotientOf(pv * (n - k) as real, n as real, owed);
    } else {
      OwedTimesGrowth(pv, rate, n, k);
      PmtSpec(rate, n, pv);
      QuotientOf(pv * (Pow(1.0 + rate, n) - Pow(1.0 + rate, k)), Pow(1.0 + rate, n) - 1.0, owed);
    }
  }

  lemma SignOfFactor(x: real, t: real)
    requires t > 0.0
    ensures x * t >= 0.0 ==> x >= 0.0
    ensures x * t == 0.0 ==> x == 0.0
    ensures x * t > 0.0 ==> x > 0.0
  {}

  /** The level payment keeps the balance non-negative through the term and clears it exactly at its end. */
  lemma OwedClears(pv: real, rate: real, n: nat, k: nat)
    requires pv >= 0.0 && rate >= 0.0 && 1 <= n && k <= n
    ensures Owed(pv, rate, LevelPayment(rate, n, pv), k) >= 0.0
    ensures k == n ==> Owed(pv, rate, LevelPayment(rate, n, pv), k) == 0.0
  {
    hide Pow, Ratio, Pmt, Owed;
    var owed := Owed(pv, rate, LevelPayment(rate, n, pv), k);
    if rate == 0.0 {
      OwedZeroRate(pv, n, k);
      Scale(0.0, n as real - k as real, pv);
      SignOfFactor(owed, n as real);
    } else {
      OwedTimesGrowth(pv, rate, n, k);
      PmtSpec(rate, n, pv);
      PowGrows(1.0 + rate, k, n);
      Scale(0.0, Pow(1.0 + rate, n) - Pow(1.0 + rate, k), pv);
      SignOfFactor(owed, Pow(1.0 + rate, n) - 1.0);
    }
  }

  // ----- Present value -----

  /** The present value of n payments at the ends of periods 1..n. */
  function PresentValue(payment: real, rate: real, n: nat): real
    requires rate >= 0.0
  {
    if n == 0 then 0.0
    else
      PowGrows(1.0 + rate, n, n);
      PresentValue(payment, rate, n - 1) + Ratio(payment, Pow(1.0 + rate, n))
  }

  lemma DiscountStep(value: real, payment: real, rate: real, p: real, before: real, after: real)
    requires p > 0.0 && value * p == before - after
    requires (1.0 + rate) * p > 0.0
    ensures (value + Ratio(payment, (1.0 + rate) * p)) * ((1.0 + rate) * p) == Accrue(before, rate) - (Accrue(after, rate) - payment)
  {
    hide Ratio;
    var q := (1.0 + rate) * p;
    RatioSpec(payment, q);
    calc {
      (value + Ratio(payment, q)) * q;
      value * q + q * Ratio(payment, q);
      (1.0 + rate) * (value * p) + payment;
      (1.0 + rate) * (before - after) + payment;
    }
  }

  /** Discounting conserves value: payments so far are worth the opening balance less what is still owed, accrued. */
  lemma {:induction false} PresentValueConserves(pv: real, payment: real, rate: real, k: nat)
    requires rate >= 0.0
    ensures PresentValue(payment, rate, k) * Pow(1.0 + rate, k)
         == pv * Pow(1.0 + rate, k) - Owed(pv, rate, payment, k)
  {
    hide Pow, Ratio, Accrue;
    if k == 0 {
      PowZero(1.0 + rate);
    } else {
      PresentValueConserves(pv, payment, rate, k - 1);
      PowStep(1.0 + rate, k - 1);
      PowGrows(1.0 + rate, k - 1, k);
      var p := Pow(1.0 + rate, k - 1);
      DiscountStep(PresentValue(payment, rate, k - 1), payment, rate, p, pv * p, Owed(pv, rate, payment, k - 1));
      AccruePower(pv, rate, p);
    }
  }

  lemma AccruePower(pv: real, rate: real, p: real)
    ensures Accrue(pv * p, rate) == pv * ((1.0 + rate) * p)
  {}

  /** The instalments are worth exactly the outstanding amount. */
  lemma InstalmentsWorthOutstanding(pv: real, rate: real, n: nat)
    requires pv >= 0.0 && rate >= 0.0 && n >= 1
    ensures PresentValue(LevelPayment(rate, n, pv), rate, n) == pv
  {
    hide Pow, LevelPayment, Owed, PresentValue;
    var payment := LevelPayment(rate, n, pv);
    PresentValueConserves(pv, payment, rate, n);
    OwedClears(pv, rate, n, n);
    PowGrows(1.0 + rate, n, n);
    Cancel(Pow(1.0 + rate, n), PresentValue(payment, rate, n), pv);
  }
}
