/** Conditional marginal PDs from a cumulative curve, and the survival they stand for. */
module MarginalPd {
  import opened RealMath
  import opened TransitionMatrix

  const MAX_PD_MONTH := 299
  const DENOM_EPS := 0.000000000000001

  /** The conditional PD of entry k: the step of the curve over what had survived before it. */
  function Hazard(s3: seq<real>, k: nat): real
    requires k < |s3|
  {
    if k == 0 then s3[0]
    else if 1.0 - s3[k - 1] <= DENOM_EPS then 0.0
    else Ratio(s3[k] - s3[k - 1], 1.0 - s3[k - 1])
  }

  method ComputeMarginalPd(s3: seq<real>) returns (marginal: array<real>)
    ensures fresh(marginal) && marginal.Length == |s3|
    ensures forall k :: 0 <= k < |s3| ==> marginal[k] == Hazard(s3, k)
  {
    hide Ratio;
    marginal := new real[|s3|](i => 0.0);
    if |s3| == 0 {
      return;
    }
    marginal[0] := s3[0];
    for idx := 1 to |s3|
      invariant forall k :: 0 <= k < idx ==> marginal[k] == Hazard(s3, k)
    {
      var denom := 1.0 - s3[idx - 1];
      if denom <= DENOM_EPS {
        marginal[idx] := 0.0;
      } else {
        marginal[idx] := Ratio(s3[idx] - s3[idx - 1], denom);
      }
    }
  }

  /** A cumulative probability curve: values in [0,1] that never fall. */
  predicate Curve(s3: seq<real>) {
    && (forall k :: 0 <= k < |s3| ==> IsProbability(s3[k]))
    && (forall j, k :: 0 <= j <= k < |s3| ==> s3[j] <= s3[k])
  }

  /** The product of (1 - marginal) over the first n entries. */
  function Survival(s3: seq<real>, n: nat): real
    requires n <= |s3|
  {
    if n == 0 then 1.0 else Keep(Survival(s3, n - 1), Hazard(s3, n - 1))
  }

  /** The share left after a loss at the given hazard. */
  function Keep(share: real, hazard: real): real { share * (1.0 - hazard) }

  /** How many of the first n entries come before the clamp freezes the curve. */
  function LiveEntries(s3: seq<real>, n: nat): (live: nat)
    requires 1 <= n <= |s3|
    ensures 1 <= live <= n
  {
    if n == 1 then 1
    else if 1.0 - s3[n - 2] <= DENOM_EPS then LiveEntries(s3, n - 1)
    else n
  }

  lemma HazardIsProbability(s3: seq<real>, k: nat)
    requires Curve(s3) && k < |s3|
    ensures IsProbability(Hazard(s3, k))
  {
    if k != 0 && 1.0 - s3[k - 1] > DENOM_EPS {
      var step, denom := s3[k] - s3[k - 1], 1.0 - s3[k - 1];
      RatioUnit(step, denom);
    }
  }

  lemma SurvivalStep(before: real, after: real)
    requires before < 1.0
    ensures Keep(1.0 - before, Ratio(after - before, 1.0 - before)) == 1.0 - after
  {}

  lemma KeepUnits(share: real)
    ensures Keep(1.0, share) == 1.0 - share && Keep(share, 0.0) == share
  {}

  /** Survival is exactly what the curve leaves at its last live entry. */
  lemma {:induction false} SurvivalExact(s3: seq<real>, n: nat)
    requires Curve(s3) && 1 <= n <= |s3|
    ensures Survival(s3, n) == 1.0 - s3[LiveEntries(s3, n) - 1]
    ensures LiveEntries(s3, n) < n ==> 1.0 - s3[LiveEntries(s3, n) - 1] <= DENOM_EPS
  {
    hide Ratio, Keep;
    if n == 1 {
      assert Survival(s3, 0) == 1.0;
      KeepUnits(s3[0]);
    } else {
      SurvivalExact(s3, n - 1);
      KeepUnits(Survival(s3, n - 1));
      var before := s3[n - 2];
      var live := LiveEntries(s3, n - 1);
      assert s3[live - 1] <= before;
      if 1.0 - before > DENOM_EPS {
        assert live == n - 1;
        SurvivalStep(before, s3[n - 1]);
      }
    }
  }

  /**
   * Survival identity: every marginal is a probability, and the product of their
   * complements is the survival 1 - cumulative, over by at most DENOM_EPS and only
   * after the clamp has fired.
   */
  lemma SurvivalIdentity(s3: seq<real>, n: nat)
    requires Curve(s3) && 1 <= n <= |s3|
    ensures forall k :: 0 <= k < n ==> IsProbability(Hazard(s3, k))
    ensures 1.0 - s3[n - 1] <= Survival(s3, n) <= 1.0 - s3[n - 1] + DENOM_EPS
    ensures Survival(s3, n) == 1.0 - s3[n - 1] <==> s3[LiveEntries(s3, n) - 1] == s3[n - 1]
    ensures (forall k :: 0 <= k < n - 1 ==> 1.0 - s3[k] > DENOM_EPS) ==> Survival(s3, n) == 1.0 - s3[n - 1]
  {
    forall k | 0 <= k < n ensures IsProbability(Hazard(s3, k)) {
      HazardIsProbability(s3, k);
    }
    SurvivalExact(s3, n);
    var live := LiveEntries(s3, n);
    assert s3[live - 1] <= s3[n - 1] <= 1.0;
  }

  // ----- The curves compute_pd builds from a normalised matrix -----

  /** Stage_3_prob for months 1..299 of one (segment, transition) group, in month order. */
  function Stage3Curve(m: Matrix, stage: Stage): (c: seq<real>)
    ensures |c| == MAX_PD_MONTH
  {
    seq(MAX_PD_MONTH, i requires 0 <= i => CumulativePd(m, stage, i + 1))
  }

  function MarginalPdAt(m: Matrix, stage: Stage, month: int): real
    requires 1 <= month <= MAX_PD_MONTH
  {
    Hazard(Stage3Curve(m, stage), month - 1)
  }

  lemma {:induction false} CumulativeMonotone(m: Matrix, stage: Stage, j: nat, k: nat)
    requires Substochastic(m) && j <= k
    ensures CumulativePd(m, stage, j) <= CumulativePd(m, stage, k)
    decreases k
  {
    hide CumulativePd;
    if j < k {
      CumulativeMonotone(m, stage, j, k - 1);
      CumulativeGrows(m, stage, k - 1);
    }
  }

  lemma Stage3CurveIsCurve(m: Matrix, stage: Stage)
    requires Substochastic(m)
    ensures Curve(Stage3Curve(m, stage))
  {
    hide CumulativePd;
    var c := Stage3Curve(m, stage);
    forall k | 0 <= k < |c| ensures IsProbability(c[k]) {
      CumulativeGrows(m, stage, k + 1);
    }
    forall j, k | 0 <= j <= k < |c| ensures c[j] <= c[k] {
      CumulativeMonotone(m, stage, j + 1, k + 1);
    }
  }

  /** A loan already in Stage 3 defaults in month 1 and never again. */
  lemma Stage3Hazard(m: Matrix, month: int)
    requires m.r3 == Row(0.0, 0.0, 1.0) && 1 <= month <= MAX_PD_MONTH
    ensures MarginalPdAt(m, Stage3, month) == if month == 1 then 1.0 else 0.0
  {
    hide Power;
    PowerIsDefaultWithin(m, 1);
    if month > 1 {
      PowerIsDefaultWithin(m, month - 1);
    }
  }

  /** A performing loan cannot default in its first month: the normalised Stage 1 row has no way into Stage 3. */
  lemma Stage1FirstMonth(m: Matrix)
    requires Normalised(m)
    ensures MarginalPdAt(m, Stage1, 1) == 0.0
  {
    hide Power;
    PowerIsDefaultWithin(m, 1);
    assert DefaultWithin(m, 0) == (0.0, 0.0);
  }
}
