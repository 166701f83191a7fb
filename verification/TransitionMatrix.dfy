/**
 * The 3x3 stage-transition algebra of the PD engine: row proportions, the
 * normalisation that makes Stage 3 absorbing, and the matrix powers.
 */
module TransitionMatrix {
  import opened RealMath

  datatype Stage = Stage1 | Stage2 | Stage3

  /** A Staging cell; Offbooks is also what the PD engine writes when no next month is found. */
  datatype Staging = In(stage: Stage) | Offbooks | Unknown(text: string) | Missing

  /** One row: the weight towards Stage 1, Stage 2 and Stage 3. */
  datatype Row = Row(s1: real, s2: real, s3: real) {
    function Total(): real { s1 + s2 + s3 }

    predicate NonNegative() { s1 >= 0.0 && s2 >= 0.0 && s3 >= 0.0 }

    function At(stage: Stage): real {
      match stage case Stage1 => s1 case Stage2 => s2 case Stage3 => s3
    }
  }

  datatype Matrix = Matrix(r1: Row, r2: Row, r3: Row) {
    function At(stage: Stage): Row {
      match stage case Stage1 => r1 case Stage2 => r2 case Stage3 => r3
    }

    predicate NonNegative() { r1.NonNegative() && r2.NonNegative() && r3.NonNegative() }
  }

  const ZERO := Matrix(Row(0.0, 0.0, 0.0), Row(0.0, 0.0, 0.0), Row(0.0, 0.0, 0.0))
  const IDENTITY := Matrix(Row(1.0, 0.0, 0.0), Row(0.0, 1.0, 0.0), Row(0.0, 0.0, 1.0))

  function AddRow(v: Row, w: Row): Row { Row(v.s1 + w.s1, v.s2 + w.s2, v.s3 + w.s3) }

  function Add(a: Matrix, b: Matrix): Matrix {
    Matrix(AddRow(a.r1, b.r1), AddRow(a.r2, b.r2), AddRow(a.r3, b.r3))
  }

  /** v times the column (x, y, z). */
  function Dot(v: Row, x: real, y: real, z: real): real {
    v.s1 * x + v.s2 * y + v.s3 * z
  }

  /** The row vector v times the matrix m. */
  function Times(v: Row, m: Matrix): Row {
    Row(Dot(v, m.r1.s1, m.r2.s1, m.r3.s1),
        Dot(v, m.r1.s2, m.r2.s2, m.r3.s2),
        Dot(v, m.r1.s3, m.r2.s3, m.r3.s3))
  }

  function Mul(a: Matrix, b: Matrix): Matrix {
    Matrix(Times(a.r1, b), Times(a.r2, b), Times(a.r3, b))
  }

  /** numpy's matrix_power for a non-negative exponent: the iterated product. */
  function Power(m: Matrix, n: nat): Matrix {
    if n == 0 then IDENTITY else Mul(m, Power(m, n - 1))
  }

  // ----- Row proportions and normalisation (pd_engine.py:51-64) -----

  function Divide(v: Row, t: real): Row
    requires t > 0.0
  {
    Row(Ratio(v.s1, t), Ratio(v.s2, t), Ratio(v.s3, t))
  }

  function RowShare(v: Row): Row {
    if v.Total() > 0.0 then Divide(v, v.Total()) else Row(0.0, 0.0, 0.0)
  }

  function Proportions(m: Matrix): Matrix {
    Matrix(RowShare(m.r1), RowShare(m.r2), RowShare(m.r3))
  }

  function Normalise(p: Matrix): Matrix {
    Matrix(Row(p.r1.s1, p.r1.s2 + p.r1.s3, 0.0), p.r2, Row(0.0, 0.0, 1.0))
  }

  /** The share of exposure that leaves Stage 3 for Stage 1 or Stage 2. */
  function CureRate(p: Matrix): real { p.r3.s1 + p.r3.s2 }

  /** What every matrix fed to matrix_power satisfies. */
  predicate Substochastic(m: Matrix) {
    && m.NonNegative()
    && m.r1.Total() <= 1.0
    && m.r2.Total() <= 1.0
    && m.r3 == Row(0.0, 0.0, 1.0)
  }

  predicate Normalised(m: Matrix) {
    Substochastic(m) && m.r1.s3 == 0.0
  }

  predicate Product(t: real, q: real, x: real) { t * q == x }

  lemma Distribute(p: real, q: real, w: real, x: real, y: real, z: real, t: real)
    requires Product(t, p, x) && Product(t, q, y) && Product(t, w, z)
    ensures Product(t, p + q + w, x + y + z)
  {}

  lemma OneIfCancels(share: real, t: real)
    requires t > 0.0 && Product(t, share, t)
    ensures share == 1.0
  {}

  lemma SharesOfTotal(p: real, q: real, w: real, x: real, y: real, z: real, t: real)
    requires t > 0.0 && x + y + z == t
    requires Product(t, p, x) && Product(t, q, y) && Product(t, w, z)
    ensures p + q + w == 1.0
  {
    Distribute(p, q, w, x, y, z, t);
    OneIfCancels(p + q + w, t);
  }

  lemma DivideShares(v: Row, t: real)
    requires v.NonNegative() && t > 0.0 && v.Total() == t
    ensures Divide(v, t).NonNegative() && Divide(v, t).Total() == 1.0
    ensures t * Divide(v, t).s1 == v.s1 && t * Divide(v, t).s2 == v.s2 && t * Divide(v, t).s3 == v.s3
  {
    hide Ratio;
    RatioSpec(v.s1, t);
    RatioSpec(v.s2, t);
    RatioSpec(v.s3, t);
    SharesOfTotal(Ratio(v.s1, t), Ratio(v.s2, t), Ratio(v.s3, t), v.s1, v.s2, v.s3, t);
  }

  predicate Shares(v: Row, nonEmpty: bool) {
    v.NonNegative() && v.Total() == if nonEmpty then 1.0 else 0.0
  }

  /** A row's proportions are shares of its total: they add to 1 exactly when the row is not empty. */
  lemma RowShareIsShare(v: Row)
    requires v.NonNegative()
    ensures Shares(RowShare(v), v.Total() > 0.0)
  {
    if v.Total() > 0.0 {
      DivideShares(v, v.Total());
    }
  }

  /** A normalised matrix whose Stage 1 and Stage 2 rows add to 1 exactly where told. */
  predicate NormalForm(m: Matrix, first: bool, second: bool) {
    && Normalised(m)
    && m.r1.Total() == (if first then 1.0 else 0.0)
    && m.r2.Total() == (if second then 1.0 else 0.0)
  }

  predicate IsProbability(x: real) { 0.0 <= x <= 1.0 }

  lemma NormaliseShares(p: Matrix, first: bool, second: bool, third: bool)
    requires Shares(p.r1, first) && Shares(p.r2, second) && Shares(p.r3, third)
    ensures NormalForm(Normalise(p), first, second)
    ensures IsProbability(CureRate(p))
  {}

  /** The matrix handed to matrix_power is Normalised, with full rows exactly where the aggregate has exposure. */
  lemma NormaliseProportions(aggregate: Matrix)
    requires aggregate.NonNegative()
    ensures NormalForm(Normalise(Proportions(aggregate)), aggregate.r1.Total() > 0.0, aggregate.r2.Total() > 0.0)
    ensures IsProbability(CureRate(Proportions(aggregate)))
  {
    hide RowShare;
    var p := Proportions(aggregate);
    assert Shares(p.r1, aggregate.r1.Total() > 0.0) by { RowShareIsShare(aggregate.r1); }
    assert Shares(p.r2, aggregate.r2.Total() > 0.0) by { RowShareIsShare(aggregate.r2); }
    assert Shares(p.r3, aggregate.r3.Total() > 0.0) by { RowShareIsShare(aggregate.r3); }
    NormaliseShares(p, aggregate.r1.Total() > 0.0, aggregate.r2.Total() > 0.0, aggregate.r3.Total() > 0.0);
  }

  /** The contents of a 3x3 numpy array. */
  function Contents(a: array2<real>): Matrix
    requires a.Length0 == 3 && a.Length1 == 3
    reads a
  {
    Matrix(RowOf(a, 0), RowOf(a, 1), RowOf(a, 2))
  }

  function RowOf(a: array2<real>, i: nat): Row
    requires i < a.Length0 && a.Length1 == 3
    reads a
  {
    Row(a[i, 0], a[i, 1], a[i, 2])
  }

  method ToArray(m: Matrix) returns (a: array2<real>)
    ensures fresh(a) && a.Length0 == 3 && a.Length1 == 3 && Contents(a) == m
  {
    a := new real[3, 3];
    a[0, 0], a[0, 1], a[0, 2] := m.r1.s1, m.r1.s2, m.r1.s3;
    a[1, 0], a[1, 1], a[1, 2] := m.r2.s1, m.r2.s2, m.r2.s3;
    a[2, 0], a[2, 1], a[2, 2] := m.r3.s1, m.r3.s2, m.r3.s3;
  }

  method RowProportions(matrix: array2<real>) returns (proportions: array2<real>)
    requires matrix.Length0 == 3 && matrix.Length1 == 3
    ensures fresh(proportions) && proportions.Length0 == 3 && proportions.Length1 == 3
    ensures Contents(proportions) == Proportions(Contents(matrix))
  {
    hide Ratio;
    proportions := new real[3, 3]((i, j) => 0.0);
    for row := 0 to 3
      invariant 0 < row ==> RowOf(proportions, 0) == RowShare(RowOf(matrix, 0))
      invariant 1 < row ==> RowOf(proportions, 1) == RowShare(RowOf(matrix, 1))
      invariant 2 < row ==> RowOf(proportions, 2) == RowShare(RowOf(matrix, 2))
      invariant forall i, j :: row <= i < 3 && 0 <= j < 3 ==> proportions[i, j] == 0.0
    {
      var weights := RowOf(matrix, row);
      var total := weights.Total();
      if total > 0.0 {
        proportions[row, 0], proportions[row, 1], proportions[row, 2] :=
          Ratio(weights.s1, total), Ratio(weights.s2, total), Ratio(weights.s3, total);
      }
      assert RowOf(proportions, row) == RowShare(weights);
    }
  }

  method NormalizeMatrix(proportions: array2<real>) returns (normalized: array2<real>)
    requires proportions.Length0 == 3 && proportions.Length1 == 3
    ensures fresh(normalized) && normalized.Length0 == 3 && normalized.Length1 == 3
    ensures Contents(normalized) == Normalise(Contents(proportions))
  {
    normalized := new real[3, 3]((i, j) reads proportions requires 0 <= i < 3 && 0 <= j < 3 => proportions[i, j]);
    normalized[0, 0], normalized[0, 1], normalized[0, 2] := proportions[0, 0], proportions[0, 1] + proportions[0, 2], 0.0;
    normalized[2, 0], normalized[2, 1], normalized[2, 2] := 0.0, 0.0, 1.0;
  }

  /** Steps 5 to 7: from the aggregate to the normalised matrix and the cure rate. */
  method NormaliseAggregate(aggregate: Matrix) returns (normalized: Matrix, cure: real)
    ensures normalized == Normalise(Proportions(aggregate)) && cure == CureRate(Proportions(aggregate))
  {
    hide Proportions;
    var flows := ToArray(aggregate);
    var shares := RowProportions(flows);
    cure := shares[2, 0] + shares[2, 1];
    var normal := NormalizeMatrix(shares);
    normalized := Contents(normal);
  }

  // ----- Powers -----

  lemma TimesAssociates(v: Row, a: Matrix, b: Matrix)
    ensures Times(Times(v, a), b) == Times(v, Mul(a, b))
  {
    hide Dot;
    Column(v, a, b.r1.s1, b.r2.s1, b.r3.s1);
    Column(v, a, b.r1.s2, b.r2.s2, b.r3.s2);
    Column(v, a, b.r1.s3, b.r2.s3, b.r3.s3);
  }

  /** One column (x, y, z) of the right-hand factor. */
  lemma Column(v: Row, a: Matrix, x: real, y: real, z: real)
    ensures Dot(Times(v, a), x, y, z) == Dot(v, Dot(a.r1, x, y, z), Dot(a.r2, x, y, z), Dot(a.r3, x, y, z))
  {}

  lemma TimesIdentity(b: Matrix)
    ensures Mul(IDENTITY, b) == b
  {}

  /** P^(m+n) = P^m P^n. */
  lemma {:induction false} PowerAdd(p: Matrix, m: nat, n: nat)
    ensures Power(p, m + n) == Mul(Power(p, m), Power(p, n))
  {
    hide Dot;
    var b := Power(p, n);
    if m == 0 {
      TimesIdentity(b);
    } else {
      var a := Power(p, m - 1);
      PowerAdd(p, m - 1, n);
      assert Power(p, m + n) == Mul(p, Power(p, m - 1 + n));
      TimesAssociates(p.r1, a, b);
      TimesAssociates(p.r2, a, b);
      TimesAssociates(p.r3, a, b);
    }
  }

  /** matrix_power by repeated squaring, which agrees with the iterated product. */
  method MatrixPower(m: Matrix, n: nat) returns (powered: Matrix)
    ensures powered == Power(m, n)
  {
    hide Mul, Power;
    PowerUnits(m);
    var square, exponent := m, n;
    powered := IDENTITY;
    ghost var taken: nat, step: nat := 0, 1;
    while exponent > 0
      invariant powered == Power(m, taken) && square == Power(m, step)
      invariant taken + step * exponent == n
    {
      if exponent % 2 == 1 {
        PowerAdd(m, taken, step);
        powered, taken := Mul(powered, square), taken + step;
      }
      PowerAdd(m, step, step);
      Halve(taken, step, exponent, n);
      square, step, exponent := Mul(square, square), step + step, exponent / 2;
    }
  }

  lemma PowerUnits(m: Matrix)
    ensures Power(m, 0) == IDENTITY && Power(m, 1) == m
  {
    assert Power(m, 1) == Mul(m, Power(m, 0));
  }

  lemma Halve(taken: int, step: int, exponent: int, n: int)
    requires taken + step * (exponent - exponent % 2) == n
    ensures taken + (step + step) * (exponent / 2) == n
  {
    assert exponent - exponent % 2 == 2 * (exponent / 2);
  }

  /** A substochastic step loses no sign and gains no weight. */
  lemma TimesShare(v: Row, m: Matrix)
    requires v.NonNegative() && Substochastic(m)
    ensures Times(v, m).NonNegative()
    ensures Times(v, m).Total() <= v.Total()
    ensures m.r1.Total() == 1.0 && m.r2.Total() == 1.0 ==> Times(v, m).Total() == v.Total()
  {
    hide Dot;
    DotNonNegative(v, m.r1.s1, m.r2.s1, m.r3.s1);
    DotNonNegative(v, m.r1.s2, m.r2.s2, m.r3.s2);
    DotNonNegative(v, m.r1.s3, m.r2.s3, m.r3.s3);
    TimesTotal(v, m);
    DotOnes(v, m.r1.Total(), m.r2.Total(), m.r3.Total());
  }

  lemma DotNonNegative(v: Row, x: real, y: real, z: real)
    requires v.NonNegative() && x >= 0.0 && y >= 0.0 && z >= 0.0
    ensures Dot(v, x, y, z) >= 0.0
  {}

  lemma TimesTotal(v: Row, m: Matrix)
    ensures Times(v, m).Total() == Dot(v, m.r1.Total(), m.r2.Total(), m.r3.Total())
  {}

  lemma DotOnes(v: Row, x: real, y: real, z: real)
    requires v.NonNegative() && x <= 1.0 && y <= 1.0 && z == 1.0
    ensures Dot(v, x, y, z) <= v.Total()
    ensures x == 1.0 && y == 1.0 ==> Dot(v, x, y, z) == v.Total()
  {
    hide Dot, Prod;
    DotParts(v, x, y, z);
    AtMostWhole(v.s1, x);
    AtMostWhole(v.s2, y);
    AtMostWhole(v.s3, z);
  }

  lemma DotParts(v: Row, x: real, y: real, z: real)
    ensures Dot(v, x, y, z) == Prod(v.s1, x) + Prod(v.s2, y) + Prod(v.s3, z)
  {}

  lemma AtMostWhole(a: real, x: real)
    requires a >= 0.0 && x <= 1.0
    ensures Prod(a, x) <= a && (x == 1.0 ==> Prod(a, x) == a)
  {
    Scale(x, 1.0, a);
  }

  lemma TimesAbsorbing(m: Matrix)
    requires m.r3 == Row(0.0, 0.0, 1.0)
    ensures Times(m.r3, m) == m.r3
  {}

  /** Every power has non-negative entries, row sums at most 1 (so entries in [0,1]) and an absorbing Stage 3. */
  lemma {:induction false} PowerSubstochastic(m: Matrix, n: nat)
    requires Substochastic(m)
    ensures Substochastic(Power(m, n))
    ensures m.r1.Total() == 1.0 && m.r2.Total() == 1.0
            ==> Power(m, n).r1.Total() == 1.0 && Power(m, n).r2.Total() == 1.0
  {
    hide Dot;
    if n != 0 {
      PowerSubstochastic(m, n - 1);
      TimesAbsorbing(Power(m, n - 1));
      TimesShare(m.r1, Power(m, n - 1));
      TimesShare(m.r2, Power(m, n - 1));
    }
  }

  // ----- Cumulative default probability -----

  /** The probability that a loan now in `stage` is in Stage 3 after n months. */
  function CumulativePd(m: Matrix, stage: Stage, n: nat): real {
    Power(m, n).At(stage).s3
  }

  /** The expected value of (x, y, 1) after one transition along `row`. */
  function Mix(row: Row, x: real, y: real): real {
    row.s1 * x + row.s2 * y + row.s3
  }

  /** The chances of reaching Stage 3 within n months from Stage 1 and from Stage 2, one transition at a time. */
  function DefaultWithin(m: Matrix, n: nat): (real, real) {
    if n == 0 then (0.0, 0.0)
    else
      var d := DefaultWithin(m, n - 1);
      (Mix(m.r1, d.0, d.1), Mix(m.r2, d.0, d.1))
  }

  /** The last column of the n-th power is the n-step default recursion. */
  lemma {:induction false} PowerIsDefaultWithin(m: Matrix, n: nat)
    requires m.r3 == Row(0.0, 0.0, 1.0)
    ensures CumulativePd(m, Stage1, n) == DefaultWithin(m, n).0
    ensures CumulativePd(m, Stage2, n) == DefaultWithin(m, n).1
    ensures Power(m, n).r3 == Row(0.0, 0.0, 1.0)
  {
    hide Dot, Mix;
    if n != 0 {
      PowerIsDefaultWithin(m, n - 1);
      var p := Power(m, n - 1);
      TimesAbsorbing(p);
      LastColumn(m.r1, p);
      LastColumn(m.r2, p);
    }
  }

  lemma LastColumn(v: Row, p: Matrix)
    requires p.r3 == Row(0.0, 0.0, 1.0)
    ensures Times(v, p).s3 == Mix(v, p.r1.s3, p.r2.s3)
  {}

  lemma MixGrows(row: Row, x: real, y: real, x': real, y': real)
    requires row.NonNegative() && x <= x' && y <= y'
    ensures Mix(row, x, y) <= Mix(row, x', y')
  {
    Scale(x, x', row.s1);
    Scale(y, y', row.s2);
  }

  lemma MixBounds(row: Row, x: real, y: real)
    requires row.NonNegative() && row.Total() <= 1.0 && IsProbability(x) && IsProbability(y)
    ensures IsProbability(Mix(row, x, y))
  {
    MixGrows(row, 0.0, 0.0, x, y);
    MixGrows(row, x, y, 1.0, 1.0);
  }

  lemma {:induction false} DefaultGrows(m: Matrix, n: nat)
    requires Substochastic(m)
    ensures 0.0 <= DefaultWithin(m, n).0 <= DefaultWithin(m, n + 1).0 <= 1.0
    ensures 0.0 <= DefaultWithin(m, n).1 <= DefaultWithin(m, n + 1).1 <= 1.0
  {
    hide Mix;
    var d := DefaultWithin(m, n);
    if n != 0 {
      DefaultGrows(m, n - 1);
      var c := DefaultWithin(m, n - 1);
      MixGrows(m.r1, c.0, c.1, d.0, d.1);
      MixGrows(m.r2, c.0, c.1, d.0, d.1);
    }
    MixBounds(m.r1, d.0, d.1);
    MixBounds(m.r2, d.0, d.1);
  }

  /** Default probability is a probability and never falls from one month to the next. */
  lemma CumulativeGrows(m: Matrix, stage: Stage, n: nat)
    requires Substochastic(m)
    ensures 0.0 <= CumulativePd(m, stage, n) <= CumulativePd(m, stage, n + 1) <= 1.0
  {
    hide Dot, Mix;
    DefaultGrows(m, n);
    PowerIsDefaultWithin(m, n);
    PowerIsDefaultWithin(m, n + 1);
  }

  lemma MixAtMost(row: Row, x: real, y: real)
    requires row.NonNegative() && row.Total() <= 1.0 && row.s3 == 0.0 && x <= y && 0.0 <= y
    ensures Mix(row, x, y) <= y
  {
    AverageAtMost(row.s1, row.s2, x, y);
  }

  lemma AverageAtMost(a: real, b: real, x: real, y: real)
    requires a >= 0.0 && a + b <= 1.0 && x <= y && 0.0 <= y
    ensures a * x + b * y <= y
  {
    Scale(x, y, a);
    Scale(a + b, 1.0, y);
  }

  lemma {:induction false} DefaultOrder(m: Matrix, n: nat)
    requires Normalised(m)
    ensures DefaultWithin(m, n).0 <= DefaultWithin(m, n).1
  {
    hide Mix;
    if n != 0 {
      DefaultOrder(m, n - 1);
      DefaultLag(m, n - 1);
      DefaultGrows(m, n - 1);
    }
  }

  lemma DefaultLag(m: Matrix, n: nat)
    requires Normalised(m)
    requires DefaultWithin(m, n).0 <= DefaultWithin(m, n).1
    ensures DefaultWithin(m, n + 1).0 <= DefaultWithin(m, n).1
  {
    hide Mix;
    DefaultGrows(m, n);
    var d := DefaultWithin(m, n);
    MixAtMost(m.r1, d.0, d.1);
  }

  /** A worse stage never has the smaller default probability, and Stage 1 lags Stage 2 by a month. */
  lemma CumulativeOrder(m: Matrix, n: nat)
    requires Normalised(m)
    ensures CumulativePd(m, Stage1, n) <= CumulativePd(m, Stage2, n) <= CumulativePd(m, Stage3, n) == 1.0
    ensures CumulativePd(m, Stage1, n + 1) <= CumulativePd(m, Stage2, n)
  {
    hide Dot, Mix;
    DefaultOrder(m, n);
    DefaultLag(m, n);
    DefaultGrows(m, n);
    PowerIsDefaultWithin(m, n);
    PowerIsDefaultWithin(m, n + 1);
  }
}
