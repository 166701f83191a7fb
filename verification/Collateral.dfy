/** compute_lgd: a customer's collateral is shared over its loans, cut and discounted. */
module Collateral {
  import opened RealMath
  import Text

  /** One LGD input row; a collateral column that is absent or empty counts as 0. */
  datatype LgdRow = LgdRow(loan: string, customer: string, outstanding: real, eir: real, collateral: map<string, real>) {
    function Value(name: string): real { if name in collateral then collateral[name] else 0.0 }
  }

  datatype CollateralType = CollateralType(name: string, haircut: real, timeToRealise: nat)

  /** What the engine reports per loan. */
  datatype LgdResult = LgdResult(loan: string, eir: real, discounted: real)

  // ----- Customer totals and proportions (lgd_engine.py:37-49) -----

  function OfCustomer(customer: string): LgdRow -> bool { (r: LgdRow) => r.customer == customer }

  function Outstanding(): LgdRow -> real { (r: LgdRow) => r.outstanding }

  function CustomerTotal(rows: seq<LgdRow>, customer: string): real {
    Sum(Filter(rows, OfCustomer(customer)), Outstanding())
  }

  /** outstanding / total, with a zero total giving 0. */
  function Share(outstanding: real, total: real): real {
    if total == 0.0 then 0.0 else Ratio(outstanding, total)
  }

  function Proportion(rows: seq<LgdRow>): LgdRow -> real {
    (r: LgdRow) => Share(r.outstanding, CustomerTotal(rows, r.customer))
  }

  // ----- Allocation, haircut and time discount (lgd_engine.py:53-73) -----

  function Proportional(rows: seq<LgdRow>, name: string): LgdRow -> real {
    (r: LgdRow) => Prod(Proportion(rows)(r), r.Value(name))
  }

  /** (1 - haircut) * (1 + eir)^(-time to realise). */
  function Factor(t: CollateralType, eir: real): real
    requires eir >= 0.0
  {
    PowGrows(1.0 + eir, t.timeToRealise, t.timeToRealise);
    Discounted(1.0 - t.haircut, Pow(1.0 + eir, t.timeToRealise))
  }

  function Discounted(amount: real, growth: real): real
    requires growth >= 1.0
  {
    Ratio(amount, growth)
  }

  function Names(config: seq<CollateralType>): seq<string> {
    if config == [] then [] else [config[0].name] + Names(config[1..])
  }

  /** The dict config_by_name: the last entry of a name wins. */
  function TypeNamed(config: seq<CollateralType>, name: string): CollateralType
    requires config != []
  {
    var last := config[|config| - 1];
    if last.name == name || |config| == 1 then last else TypeNamed(config[..|config| - 1], name)
  }

  /** The discounted amount one collateral name brings to a row. */
  function DiscountedOf(rows: seq<LgdRow>, config: seq<CollateralType>, r: LgdRow): string -> real
    requires r.eir >= 0.0
  {
    (name: string) => if config == [] then 0.0 else Prod(Proportional(rows, name)(r), Factor(TypeNamed(config, name), r.eir))
  }

  /** Sum of Discounted Collaterals per Loan ID. */
  function DiscountedSum(rows: seq<LgdRow>, config: seq<CollateralType>, r: LgdRow): real
    requires r.eir >= 0.0
  {
    Sum(Text.SortedDistinct(Names(config)), DiscountedOf(rows, config, r))
  }

  predicate ValidRate(rows: seq<LgdRow>) { forall r :: r in rows ==> r.eir >= 0.0 }

  /** One result per row, in the order of the rows. */
  function ResultsOf(rows: seq<LgdRow>, config: seq<CollateralType>): (table: seq<LgdResult>)
    requires ValidRate(rows)
    ensures |table| == |rows|
  {
    seq(|rows|, i requires 0 <= i < |rows| => LgdResult(rows[i].loan, rows[i].eir, DiscountedSum(rows, config, rows[i])))
  }

  // ----- The order of the rows (lgd_engine.py:32, 87) -----

  predicate TextAtMost(a: string, b: string) { a == b || Text.Less(a, b) }

  function ByCustomerLoan(): (LgdRow, LgdRow) -> bool {
    (a: LgdRow, b: LgdRow) => if a.customer == b.customer then TextAtMost(a.loan, b.loan) else Text.Less(a.customer, b.customer)
  }

  function ByLoan(): (LgdResult, LgdResult) -> bool { (a: LgdResult, b: LgdResult) => TextAtMost(a.loan, b.loan) }

  function Arranged(rows: seq<LgdRow>): seq<LgdRow> { SortBy(rows, ByCustomerLoan()) }

  lemma ArrangedHolds(rows: seq<LgdRow>)
    ensures multiset(Arranged(rows)) == multiset(rows) && |Arranged(rows)| == |rows|
    ensures forall r :: r in Arranged(rows) <==> r in rows
  {
    hide SortBy;
    SortByHolds(rows, ByCustomerLoan());
    forall r ensures r in Arranged(rows) <==> r in rows {
      assert r in multiset(Arranged(rows)) <==> r in multiset(rows);
    }
  }

  /** What compute_lgd returns: computed over rows by customer and loan, then sorted by loan. */
  function LgdTable(rows: seq<LgdRow>, config: seq<CollateralType>): seq<LgdResult>
    requires ValidRate(rows)
  {
    ArrangedHolds(rows);
    SortBy(ResultsOf(Arranged(rows), config), ByLoan())
  }

  lemma LoansOrdered()
    ensures TotalOrder(ByLoan())
  {
    forall a: LgdResult, b: LgdResult ensures ByLoan()(a, b) || ByLoan()(b, a) {
      Text.LessTotal(a.loan, b.loan);
    }
    forall a: LgdResult, b: LgdResult, c: LgdResult | ByLoan()(a, b) && ByLoan()(b, c) ensures ByLoan()(a, c) {
      if a.loan != b.loan && b.loan != c.loan {
        Text.LessTransitive(a.loan, b.loan, c.loan);
      }
    }
  }

  lemma TotalsPermute(rows: seq<LgdRow>, other: seq<LgdRow>, customer: string)
    requires multiset(rows) == multiset(other)
    ensures CustomerTotal(rows, customer) == CustomerTotal(other, customer)
  {
    hide Filter, Sum;
    FilterCounts(rows, OfCustomer(customer));
    FilterCounts(other, OfCustomer(customer));
    assert multiset(Filter(rows, OfCustomer(customer))) == multiset(Filter(other, OfCustomer(customer)));
    SumPermutation(Filter(rows, OfCustomer(customer)), Filter(other, OfCustomer(customer)), Outstanding());
  }

  /** A row's sum does not depend on the order the rows come in. */
  lemma DiscountedSumPermutes(rows: seq<LgdRow>, other: seq<LgdRow>, config: seq<CollateralType>, r: LgdRow)
    requires multiset(rows) == multiset(other) && r.eir >= 0.0
    ensures DiscountedSum(rows, config, r) == DiscountedSum(other, config, r)
  {
    hide Sum, Factor, TypeNamed, Share, CustomerTotal, Prod;
    TotalsPermute(rows, other, r.customer);
    var names := Text.SortedDistinct(Names(config));
    assert Proportion(rows)(r) == Proportion(other)(r);
    forall name | name in names ensures DiscountedOf(rows, config, r)(name) == DiscountedOf(other, config, r)(name) {
      assert Proportional(rows, name)(r) == Proportional(other, name)(r);
    }
    SumEqual(names, DiscountedOf(rows, config, r), DiscountedOf(other, config, r));
  }

  /** The table is sorted by Loan ID and holds, for each input row and nothing else, the sum computed over the input. */
  lemma LgdTableHolds(rows: seq<LgdRow>, config: seq<CollateralType>)
    requires ValidRate(rows)
    ensures |LgdTable(rows, config)| == |rows| && AscendsBy(LgdTable(rows, config), ByLoan())
    ensures forall x :: x in LgdTable(rows, config)
              <==> exists r :: r in rows && x == LgdResult(r.loan, r.eir, DiscountedSum(rows, config, r))
  {
    hide SortBy, DiscountedSum, AscendsBy, TotalOrder, Arranged;
    ArrangedHolds(rows);
    var arranged := Arranged(rows);
    var results := ResultsOf(arranged, config);
    LoansOrdered();
    SortByAscends(results, ByLoan());
    SortByHolds(results, ByLoan());
    forall r | r in rows ensures DiscountedSum(rows, config, r) == DiscountedSum(arranged, config, r) {
      DiscountedSumPermutes(rows, arranged, config, r);
    }
    forall x ensures x in LgdTable(rows, config) <==> exists r :: r in rows && x == LgdResult(r.loan, r.eir, DiscountedSum(rows, config, r)) {
      assert x in multiset(LgdTable(rows, config)) <==> x in multiset(results);
      ResultMember(rows, config, x);
    }
  }

  lemma ResultMember(rows: seq<LgdRow>, config: seq<CollateralType>, x: LgdResult)
    requires ValidRate(rows) && ValidRate(Arranged(rows))
    requires forall r :: r in Arranged(rows) <==> r in rows
    requires forall r :: r in rows ==> DiscountedSum(rows, config, r) == DiscountedSum(Arranged(rows), config, r)
    ensures x in ResultsOf(Arranged(rows), config)
       <==> exists r :: r in rows && x == LgdResult(r.loan, r.eir, DiscountedSum(rows, config, r))
  {
    hide DiscountedSum, Arranged;
    var arranged := Arranged(rows);
    if x in ResultsOf(arranged, config) {
      var i :| 0 <= i < |arranged| && ResultsOf(arranged, config)[i] == x;
      assert arranged[i] in rows;
    }
    if r :| r in rows && x == LgdResult(r.loan, r.eir, DiscountedSum(rows, config, r)) {
      assert r in arranged;
      var i :| 0 <= i < |arranged| && arranged[i] == r;
      assert ResultsOf(arranged, config)[i] == x;
    }
  }

  lemma ConfigNonEmpty(config: seq<CollateralType>)
    requires Text.SortedDistinct(Names(config)) != []
    ensures config != []
  {}

  lemma DiscountedStep(rows: seq<LgdRow>, config: seq<CollateralType>, r: LgdRow, names: seq<string>, n: nat)
    requires n < |names| && config != [] && r.eir >= 0.0
    ensures Sum(names[..n + 1], DiscountedOf(rows, config, r))
         == Sum(names[..n], DiscountedOf(rows, config, r))
          + Prod(Prod(Proportion(rows)(r), r.Value(names[n])), Factor(TypeNamed(config, names[n]), r.eir))
  {
    hide Sum;
    assert DiscountedOf(rows, config, r)(names[n])
        == Prod(Proportional(rows, names[n])(r), Factor(TypeNamed(config, names[n]), r.eir));
    assert names[..n + 1] == names[..n] + [names[n]];
    SumLast(names[..n], names[n], DiscountedOf(rows, config, r));
  }

  /** The loop body for one collateral name: its discounted amount is added to every row's sum. */
  method AddCollateral(rows: seq<LgdRow>, config: seq<CollateralType>, names: seq<string>, n: nat, discountedSum: array<real>)
    requires n < |names| && config != [] && ValidRate(rows) && discountedSum.Length == |rows|
    requires forall i :: 0 <= i < |rows| ==> discountedSum[i] == Sum(names[..n], DiscountedOf(rows, config, rows[i]))
    modifies discountedSum
    ensures forall i :: 0 <= i < |rows| ==> discountedSum[i] == Sum(names[..n + 1], DiscountedOf(rows, config, rows[i]))
  {
    hide Factor, Proportion, TypeNamed, Sum, Prod, DiscountedOf;
    var cfg := TypeNamed(config, names[n]);
    for i := 0 to |rows|
      invariant forall k :: 0 <= k < i ==> discountedSum[k] == Sum(names[..n + 1], DiscountedOf(rows, config, rows[k]))
      invariant forall k :: i <= k < |rows| ==> discountedSum[k] == old(discountedSum[k])
    {
      DiscountedStep(rows, config, rows[i], names, n);
      var proportional := Prod(Proportion(rows)(rows[i]), rows[i].Value(names[n]));
      discountedSum[i] := discountedSum[i] + Prod(proportional, Factor(cfg, rows[i].eir));
    }
  }

  method ComputeLgd(rows: seq<LgdRow>, config: seq<CollateralType>) returns (table: seq<LgdResult>)
    requires ValidRate(rows)
    ensures table == LgdTable(rows, config)
  {
    hide Sum, DiscountedOf, SortBy;
    ArrangedHolds(rows);
    var working := Arranged(rows);
    var names := Text.SortedDistinct(Names(config));
    var discountedSum := new real[|working|](i => 0.0);
    SumEmpty();
    for n := 0 to |names|
      invariant forall i :: 0 <= i < |working| ==> discountedSum[i] == Sum(names[..n], DiscountedOf(working, config, working[i]))
    {
      ConfigNonEmpty(config);
      AddCollateral(working, config, names, n, discountedSum);
    }
    assert names[..|names|] == names;
    var results := seq(|working|, i requires 0 <= i < |working| reads discountedSum =>
      LgdResult(working[i].loan, working[i].eir, discountedSum[i]));
    assert results == ResultsOf(working, config);
    table := SortBy(results, ByLoan());
  }

  lemma SumEmpty()
    ensures forall f: string -> real :: Sum([], f) == 0.0
  {}

  // ----- Conservation of the allocation -----

  lemma {:induction false} SumScaled<T>(s: seq<T>, k: real, f: T -> real, g: T -> real)
    requires forall x :: x in s ==> k * f(x) == g(x)
    ensures k * Sum(s, f) == Sum(s, g)
  {
    if s != [] {
      SumScaled(s[1..], k, f, g);
    }
  }

  /** Each customer's proportions add to 1, or are all 0 when nothing is outstanding in total. */
  lemma ProportionsAddUp(rows: seq<LgdRow>, customer: string)
    ensures Sum(Filter(rows, OfCustomer(customer)), Proportion(rows))
         == if CustomerTotal(rows, customer) == 0.0 then 0.0 else 1.0
  {
    hide Sum, Filter, Ratio;
    var own, total := Filter(rows, OfCustomer(customer)), CustomerTotal(rows, customer);
    FilterMembers(rows, OfCustomer(customer));
    if total == 0.0 {
      SumZero(own, Proportion(rows));
    } else {
      forall r | r in own ensures total * Proportion(rows)(r) == Outstanding()(r) {
        RatioSpec(r.outstanding, total);
      }
      SumScaled(own, total, Proportion(rows), Outstanding());
      Cancel(total, Sum(own, Proportion(rows)), 1.0);
    }
  }

  function WeightedValue(name: string): LgdRow -> real { (r: LgdRow) => r.outstanding * r.Value(name) }

  /** What a customer is allocated of one collateral type is the outstanding-weighted average of its rows. */
  lemma AllocationIsAverage(rows: seq<LgdRow>, customer: string, name: string)
    ensures CustomerTotal(rows, customer) != 0.0 ==>
              CustomerTotal(rows, customer) * Sum(Filter(rows, OfCustomer(customer)), Proportional(rows, name))
              == Sum(Filter(rows, OfCustomer(customer)), WeightedValue(name))
    ensures CustomerTotal(rows, customer) == 0.0 ==> Sum(Filter(rows, OfCustomer(customer)), Proportional(rows, name)) == 0.0
  {
    hide Sum, Filter, Ratio;
    var own, total := Filter(rows, OfCustomer(customer)), CustomerTotal(rows, customer);
    FilterMembers(rows, OfCustomer(customer));
    if total == 0.0 {
      forall r | r in own ensures Proportional(rows, name)(r) == 0.0 {
        ProdZero(r.Value(name));
        assert Proportion(rows)(r) == 0.0;
      }
      SumZero(own, Proportional(rows, name));
    } else {
      forall r | r in own ensures total * Proportional(rows, name)(r) == WeightedValue(name)(r) {
        RatioSpec(r.outstanding, total);
        Regroup(total, Proportion(rows)(r), r.Value(name), r.outstanding);
      }
      SumScaled(own, total, Proportional(rows, name), WeightedValue(name));
    }
  }

  lemma Regroup(t: real, p: real, v: real, o: real)
    requires t * p == o
    ensures t * Prod(p, v) == o * v
  {
    assert t * (p * v) == (t * p) * v;
  }

  predicate NonNegativeOutstanding(rows: seq<LgdRow>) { forall r :: r in rows ==> r.outstanding >= 0.0 }

  lemma TotalNonNegative(rows: seq<LgdRow>, customer: string)
    requires NonNegativeOutstanding(rows)
    ensures CustomerTotal(rows, customer) >= 0.0
  {
    FilterMembers(rows, OfCustomer(customer));
    SumNonNegative(Filter(rows, OfCustomer(customer)), Outstanding());
  }

  lemma ProportionNonNegative(rows: seq<LgdRow>, r: LgdRow)
    requires NonNegativeOutstanding(rows) && r.outstanding >= 0.0
    ensures Proportion(rows)(r) >= 0.0
  {
    hide Ratio;
    TotalNonNegative(rows, r.customer);
    if CustomerTotal(rows, r.customer) != 0.0 {
      RatioSpec(r.outstanding, CustomerTotal(rows, r.customer));
    }
  }

  function Scaled(f: LgdRow -> real, k: real): LgdRow -> real { (r: LgdRow) => f(r) * k }

  /** No customer is allocated more of a type than its largest row states, and a repeated pool is allocated exactly. */
  lemma AllocationWithinPool(rows: seq<LgdRow>, customer: string, name: string, pool: real)
    requires NonNegativeOutstanding(rows) && pool >= 0.0
    requires forall r :: r in rows && r.customer == customer ==> r.Value(name) <= pool
    ensures Sum(Filter(rows, OfCustomer(customer)), Proportional(rows, name)) <= pool
    ensures (forall r :: r in rows && r.customer == customer ==> r.Value(name) == pool) && CustomerTotal(rows, customer) > 0.0
            ==> Sum(Filter(rows, OfCustomer(customer)), Proportional(rows, name)) == pool
  {
    hide Sum, Filter, Proportion;
    var own, total := Filter(rows, OfCustomer(customer)), CustomerTotal(rows, customer);
    FilterMembers(rows, OfCustomer(customer));
    var atPool := Scaled(Proportion(rows), pool);
    forall r | r in own ensures Proportional(rows, name)(r) <= atPool(r)
                             && (r.Value(name) == pool ==> Proportional(rows, name)(r) == atPool(r)) {
      ProportionNonNegative(rows, r);
      Scale(r.Value(name), pool, Proportion(rows)(r));
    }
    SumAtMost(own, Proportional(rows, name), atPool);
    forall r | r in own ensures pool * Proportion(rows)(r) == atPool(r) {}
    SumScaled(own, pool, Proportion(rows), atPool);
    ProportionsAddUp(rows, customer);
    if forall r :: r in rows && r.customer == customer ==> r.Value(name) == pool {
      SumEqual(own, Proportional(rows, name), atPool);
    }
  }

  // ----- Haircut and time discount only ever reduce -----

  predicate ValidType(t: CollateralType) { 0.0 <= t.haircut <= 1.0 }

  lemma DiscountedBounds(amount: real, growth: real)
    requires amount >= 0.0 && growth >= 1.0
    ensures 0.0 <= Discounted(amount, growth) <= amount
  {
    RatioSpec(amount, growth);
    var q := Ratio(amount, growth);
    Scale(1.0, growth, q);
  }

  lemma FactorBounds(t: CollateralType, eir: real)
    requires ValidType(t) && eir >= 0.0
    ensures 0.0 <= Factor(t, eir) <= 1.0
  {
    hide Pow, Discounted;
    PowGrows(1.0 + eir, t.timeToRealise, t.timeToRealise);
    DiscountedBounds(1.0 - t.haircut, Pow(1.0 + eir, t.timeToRealise));
  }

  /** The factor accrued back over the time to realise is what the haircut leaves. */
  lemma FactorAccruesBack(t: CollateralType, eir: real)
    requires eir >= 0.0
    ensures Pow(1.0 + eir, t.timeToRealise) * Factor(t, eir) == 1.0 - t.haircut
  {
    hide Pow, Ratio;
    PowGrows(1.0 + eir, t.timeToRealise, t.timeToRealise);
    RatioSpec(1.0 - t.haircut, Pow(1.0 + eir, t.timeToRealise));
  }

  lemma ShareAtMostOne(outstanding: real, total: real)
    requires 0.0 <= outstanding <= total
    ensures 0.0 <= Share(outstanding, total) <= 1.0
  {
    hide Ratio;
    if total != 0.0 {
      RatioUnit(outstanding, total);
    }
  }

  lemma {:induction false} MemberAtMostSum(s: seq<LgdRow>, r: LgdRow)
    requires r in s && forall x :: x in s ==> x.outstanding >= 0.0
    ensures r.outstanding <= Sum(s, Outstanding())
  {
    if s[0] == r {
      SumNonNegative(s[1..], Outstanding());
    } else {
      MemberAtMostSum(s[1..], r);
    }
  }

  /** discounted <= proportional <= stated value, for every row and type. */
  lemma DiscountedWithinStated(rows: seq<LgdRow>, r: LgdRow, name: string, t: CollateralType)
    requires NonNegativeOutstanding(rows) && r in rows && r.Value(name) >= 0.0 && ValidType(t) && r.eir >= 0.0
    ensures 0.0 <= Prod(Proportional(rows, name)(r), Factor(t, r.eir)) <= Proportional(rows, name)(r) <= r.Value(name)
  {
    hide Factor, Sum, Filter, Share, Prod;
    FilterMembers(rows, OfCustomer(r.customer));
    MemberAtMostSum(Filter(rows, OfCustomer(r.customer)), r);
    ShareAtMostOne(r.outstanding, CustomerTotal(rows, r.customer));
    ProdUnit(r.Value(name), Proportion(rows)(r));
    FactorBounds(t, r.eir);
    ProdUnit(Proportional(rows, name)(r), Factor(t, r.eir));
  }

  // ----- Less collateral, deeper haircuts or slower realisation never add cover -----

  /** The same loan with no more collateral of any name. */
  ghost predicate WeakerRow(r: LgdRow, base: LgdRow) {
    && r.loan == base.loan && r.customer == base.customer && r.outstanding == base.outstanding && r.eir == base.eir
    && forall name :: 0.0 <= r.Value(name) <= base.Value(name)
  }

  ghost predicate Weaker(rows: seq<LgdRow>, base: seq<LgdRow>) {
    |rows| == |base| && forall i :: 0 <= i < |rows| ==> WeakerRow(rows[i], base[i])
  }

  /** Arranging compares loans and customers only, so it keeps the pairs together. */
  lemma WeakerArranged(rows: seq<LgdRow>, base: seq<LgdRow>)
    requires Weaker(rows, base)
    ensures Weaker(Arranged(rows), Arranged(base))
  {
    hide SortBy;
    SortByPairs(rows, base, ByCustomerLoan(), (a, b) => WeakerRow(a, b));
  }

  /** The same collateral types with no smaller haircut and no shorter time to realise. */
  predicate Stricter(config: seq<CollateralType>, base: seq<CollateralType>) {
    && |config| == |base|
    && forall i :: 0 <= i < |config| ==> StricterType(config[i], base[i])
  }

  predicate StricterType(t: CollateralType, base: CollateralType) {
    && t.name == base.name
    && 0.0 <= base.haircut <= t.haircut <= 1.0
    && base.timeToRealise <= t.timeToRealise
  }

  lemma DiscountedFalls(amount: real, growth: real, base: real, baseGrowth: real)
    requires 0.0 <= amount <= base && 1.0 <= baseGrowth <= growth
    ensures 0.0 <= Discounted(amount, growth) <= Discounted(base, baseGrowth)
  {
    hide Ratio;
    RatioSpec(amount, growth);
    RatioSpec(base, baseGrowth);
    var q, p := Ratio(amount, growth), Ratio(base, baseGrowth);
    Scale(baseGrowth, growth, q);
    QuotientOrder(q, p, baseGrowth, amount, base);
  }

  lemma QuotientOrder(q: real, p: real, t: real, x: real, y: real)
    requires t > 0.0 && t * q <= x && x <= y && t * p == y
    ensures q <= p
  {
    if q > p {
      ScaleLeft(t, p, q);
    }
  }

  lemma FactorFalls(t: CollateralType, base: CollateralType, eir: real)
    requires StricterType(t, base) && eir >= 0.0
    ensures 0.0 <= Factor(t, eir) <= Factor(base, eir)
  {
    hide Pow, Discounted;
    PowGrows(1.0 + eir, base.timeToRealise, t.timeToRealise);
    DiscountedFalls(1.0 - t.haircut, Pow(1.0 + eir, t.timeToRealise), 1.0 - base.haircut, Pow(1.0 + eir, base.timeToRealise));
  }

  lemma {:induction false} TypeNamedStricter(config: seq<CollateralType>, base: seq<CollateralType>, name: string)
    requires Stricter(config, base) && config != []
    ensures StricterType(TypeNamed(config, name), TypeNamed(base, name))
  {
    var n := |config|;
    assert StricterType(config[n - 1], base[n - 1]);
    if n > 1 {
      TypeNamedStricter(config[..n - 1], base[..n - 1], name);
    }
  }

  lemma {:induction false} NamesSame(config: seq<CollateralType>, base: seq<CollateralType>)
    requires Stricter(config, base)
    ensures Names(config) == Names(base)
  {
    if config != [] {
      assert StricterType(config[0], base[0]);
      NamesSame(config[1..], base[1..]);
    }
  }

  lemma {:induction false} TotalsSame(rows: seq<LgdRow>, base: seq<LgdRow>, customer: string)
    requires |rows| == |base|
    requires forall i :: 0 <= i < |rows| ==> rows[i].customer == base[i].customer && rows[i].outstanding == base[i].outstanding
    ensures CustomerTotal(rows, customer) == CustomerTotal(base, customer)
  {
    if rows != [] {
      TotalsSame(rows[1..], base[1..], customer);
      SumSelected(rows, OfCustomer(customer), Outstanding());
      SumSelected(base, OfCustomer(customer), Outstanding());
    }
  }

  /** The discounted collateral of a loan never rises when collateral is worth less, cut deeper or realised later. */
  lemma DiscountedSumFalls(rows: seq<LgdRow>, config: seq<CollateralType>,
                           base: seq<LgdRow>, baseConfig: seq<CollateralType>, i: nat)
    requires i < |rows| && Weaker(rows, base) && Stricter(config, baseConfig)
    requires NonNegativeOutstanding(base) && ValidRate(base)
    ensures rows[i].eir >= 0.0
    ensures 0.0 <= DiscountedSum(rows, config, rows[i]) <= DiscountedSum(base, baseConfig, base[i])
  {
    hide Sum, Factor, TypeNamed, Share, CustomerTotal, Prod;
    NamesSame(config, baseConfig);
    TotalsSame(rows, base, rows[i].customer);
    var names := Text.SortedDistinct(Names(config));
    var r, b := rows[i], base[i];
    assert b in base;
    forall name | name in names
      ensures 0.0 <= DiscountedOf(rows, config, r)(name) <= DiscountedOf(base, baseConfig, b)(name)
    {
      if config != [] {
        DiscountedOfFalls(rows, config, base, baseConfig, i, name);
      }
    }
    SumNonNegative(names, DiscountedOf(rows, config, r));
    SumAtMost(names, DiscountedOf(rows, config, r), DiscountedOf(base, baseConfig, b));
  }

  lemma DiscountedOfFalls(rows: seq<LgdRow>, config: seq<CollateralType>,
                          base: seq<LgdRow>, baseConfig: seq<CollateralType>, i: nat, name: string)
    requires i < |rows| && Weaker(rows, base) && Stricter(config, baseConfig) && config != []
    requires NonNegativeOutstanding(base) && rows[i].eir >= 0.0
    ensures 0.0 <= DiscountedOf(rows, config, rows[i])(name) <= DiscountedOf(base, baseConfig, base[i])(name)
  {
    hide Sum, Filter, TypeNamed;
    var r, b := rows[i], base[i];
    assert b in base;
    TotalsSame(rows, base, r.customer);
    ProportionNonNegative(base, b);
    TypeNamedStricter(config, baseConfig, name);
    FactorFalls(TypeNamed(config, name), TypeNamed(baseConfig, name), r.eir);
    ProdGrows(Proportion(rows)(r), Proportion(base)(b), r.Value(name), b.Value(name));
    ProdGrows(Proportional(rows, name)(r), Proportional(base, name)(b),
              Factor(TypeNamed(config, name), r.eir), Factor(TypeNamed(baseConfig, name), b.eir));
  }
}
