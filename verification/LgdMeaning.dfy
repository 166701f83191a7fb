/** compute_lgd in its own terms: every amount in the result table spelled out from the input rows and the configuration. */
module LgdMeaning {
  import opened RealMath
  import opened Collateral
  import Text

  // ----- The customer's total and the share of one row -----

  function OwnAmount(customer: string): LgdRow -> real {
    (x: LgdRow) => if x.customer == customer then x.outstanding else 0.0
  }

  /** The row's part of what its customer owes over all rows, 0 where the customer owes nothing in total. */
  function ShareOf(rows: seq<LgdRow>, r: LgdRow): real {
    var total := Sum(rows, OwnAmount(r.customer));
    if total == 0.0 then 0.0 else r.outstanding / total
  }

  lemma ProportionIsShare(rows: seq<LgdRow>, r: LgdRow)
    ensures Proportion(rows)(r) == ShareOf(rows, r)
  {
    SumFilter(rows, OfCustomer(r.customer), Outstanding(), OwnAmount(r.customer));
  }

  // ----- The configuration entries that count -----

  /** Entry i is the last of its name, the one config_by_name keeps. */
  predicate LastOfName(config: seq<CollateralType>, i: int) {
    0 <= i < |config| && forall j :: i < j < |config| ==> config[j].name != config[i].name
  }

  /** The positions below n of the entries that are the last of their name. */
  function Counting(config: seq<CollateralType>, n: nat): seq<nat>
    requires n <= |config|
  {
    if n == 0 then [] else Counting(config, n - 1) + if LastOfName(config, n - 1) then [n - 1] else []
  }

  /** share * stated value * (1 - haircut) / (1 + eir)^(time to realise), for the entry at a position. */
  function Worth(rows: seq<LgdRow>, config: seq<CollateralType>, r: LgdRow): nat -> real
    requires r.eir >= 0.0
  {
    (i: nat) =>
      if i >= |config| then 0.0
      else
        var value := if config[i].name in r.collateral then r.collateral[config[i].name] else 0.0;
        PowGrows(1.0 + r.eir, config[i].timeToRealise, config[i].timeToRealise);
        ShareOf(rows, r) * value * ((1.0 - config[i].haircut) / Pow(1.0 + r.eir, config[i].timeToRealise))
  }

  lemma {:induction false} TypeNamedIsLast(config: seq<CollateralType>, i: nat)
    requires LastOfName(config, i)
    ensures TypeNamed(config, config[i].name) == config[i]
  {
    var n := |config| - 1;
    if i < n {
      assert config[..n][i] == config[i];
      TypeNamedIsLast(config[..n], i);
    }
  }

  lemma EntryWorth(rows: seq<LgdRow>, config: seq<CollateralType>, r: LgdRow, i: nat)
    requires r.eir >= 0.0 && LastOfName(config, i)
    ensures DiscountedOf(rows, config, r)(config[i].name) == Worth(rows, config, r)(i)
  {
    hide ShareOf, Proportion, Pow, TypeNamed;
    TypeNamedIsLast(config, i);
    ProportionIsShare(rows, r);
    var name := config[i].name;
    assert Proportional(rows, name)(r) == Prod(Proportion(rows)(r), r.Value(name));
    assert DiscountedOf(rows, config, r)(name) == Prod(Proportional(rows, name)(r), Factor(TypeNamed(config, name), r.eir));
  }

  // ----- The sum over names is the sum over those entries -----

  function NameAt(config: seq<CollateralType>, positions: seq<nat>): seq<string>
    requires forall k :: 0 <= k < |positions| ==> positions[k] < |config|
  {
    seq(|positions|, k requires 0 <= k < |positions| => config[positions[k]].name)
  }

  lemma {:induction false} CountingIs(config: seq<CollateralType>, n: nat)
    requires n <= |config|
    ensures forall k :: 0 <= k < |Counting(config, n)| ==> Counting(config, n)[k] < n && LastOfName(config, Counting(config, n)[k])
    ensures forall j, k :: 0 <= j < k < |Counting(config, n)| ==> Counting(config, n)[j] < Counting(config, n)[k]
    ensures forall i :: 0 <= i < n && LastOfName(config, i) ==> i in Counting(config, n)
  {
    if n != 0 {
      CountingIs(config, n - 1);
    }
  }

  lemma {:induction false} NamesAre(config: seq<CollateralType>, name: string)
    ensures name in Names(config) <==> exists i :: 0 <= i < |config| && config[i].name == name
  {
    if config != [] {
      NamesAre(config[1..], name);
      assert config == [config[0]] + config[1..];
    }
  }

  /** Every configured name has a last entry. */
  lemma {:induction false} LastExists(config: seq<CollateralType>, i: nat) returns (k: nat)
    requires i < |config|
    ensures LastOfName(config, k) && config[k].name == config[i].name
    decreases |config| - i
  {
    if LastOfName(config, i) {
      k := i;
    } else {
      var j :| i < j < |config| && config[j].name == config[i].name;
      k := LastExists(config, j);
    }
  }

  lemma {:induction false} SumByName(config: seq<CollateralType>, positions: seq<nat>, f: string -> real, g: nat -> real)
    requires forall k :: 0 <= k < |positions| ==> positions[k] < |config| && f(config[positions[k]].name) == g(positions[k])
    ensures Sum(NameAt(config, positions), f) == Sum(positions, g)
  {
    if positions != [] {
      SumByName(config, positions[1..], f, g);
      assert NameAt(config, positions)[1..] == NameAt(config, positions[1..]);
    }
  }

  lemma CountingNames(config: seq<CollateralType>)
    ensures forall k :: 0 <= k < |Counting(config, |config|)| ==> Counting(config, |config|)[k] < |config|
    ensures multiset(NameAt(config, Counting(config, |config|))) == multiset(Text.SortedDistinct(Names(config)))
  {
    var positions := Counting(config, |config|);
    CountingIs(config, |config|);
    var s, t := NameAt(config, positions), Text.SortedDistinct(Names(config));
    Text.SortedDistinctSpec(Names(config));
    Text.AscendingDistinct(t);
    forall x ensures x in s <==> x in t {
      NamesAre(config, x);
      if x in t {
        var i :| 0 <= i < |config| && config[i].name == x;
        var k := LastExists(config, i);
        assert k in positions;
        var p :| 0 <= p < |positions| && positions[p] == k;
        assert s[p] == x;
      }
    }
    Text.SameNames(s, t);
  }

  /**
   * A row's discounted sum, spelled out: over exactly the configuration entries that are the last of their name, its
   * share of the customer's total, times the stated value, times what the haircut leaves, discounted at its rate over
   * the entry's time to realise.
   */
  lemma DiscountedSumMeans(rows: seq<LgdRow>, config: seq<CollateralType>, r: LgdRow)
    requires r.eir >= 0.0
    ensures DiscountedSum(rows, config, r) == Sum(Counting(config, |config|), Worth(rows, config, r))
  {
    hide Sum, DiscountedOf, Worth, Counting;
    var positions := Counting(config, |config|);
    CountingNames(config);
    CountingIs(config, |config|);
    forall k | 0 <= k < |positions|
      ensures DiscountedOf(rows, config, r)(config[positions[k]].name) == Worth(rows, config, r)(positions[k])
    {
      EntryWorth(rows, config, r, positions[k]);
    }
    SumByName(config, positions, DiscountedOf(rows, config, r), Worth(rows, config, r));
    SumPermutation(NameAt(config, positions), Text.SortedDistinct(Names(config)), DiscountedOf(rows, config, r));
  }

  /** Every line of the result table is one input row's, with its Loan ID, its rate and that sum; every input row has its line. */
  lemma LgdTableMeans(rows: seq<LgdRow>, config: seq<CollateralType>, x: LgdResult)
    requires ValidRate(rows)
    ensures x in LgdTable(rows, config)
       <==> exists r :: r in rows && x.loan == r.loan && x.eir == r.eir
                        && x.discounted == Sum(Counting(config, |config|), Worth(rows, config, r))
  {
    hide LgdTable, DiscountedSum, Sum, Worth, Counting, AscendsBy;
    LgdTableHolds(rows, config);
    forall r | r in rows ensures DiscountedSum(rows, config, r) == Sum(Counting(config, |config|), Worth(rows, config, r)) {
      DiscountedSumMeans(rows, config, r);
    }
    if x in LgdTable(rows, config) {
      var r :| r in rows && x == LgdResult(r.loan, r.eir, DiscountedSum(rows, config, r));
    }
    if r :| r in rows && x.loan == r.loan && x.eir == r.eir && x.discounted == Sum(Counting(config, |config|), Worth(rows, config, r)) {
      assert x == LgdResult(r.loan, r.eir, DiscountedSum(rows, config, r));
    }
  }

  // ----- Which row stands first for a Loan ID on several rows -----

  lemma RowsOrdered()
    ensures TotalOrder(ByCustomerLoan())
  {
    forall a: LgdRow, b: LgdRow ensures ByCustomerLoan()(a, b) || ByCustomerLoan()(b, a) {
      Text.LessTotal(a.loan, b.loan);
      Text.LessTotal(a.customer, b.customer);
    }
    forall a: LgdRow, b: LgdRow, c: LgdRow | ByCustomerLoan()(a, b) && ByCustomerLoan()(b, c) ensures ByCustomerLoan()(a, c) {
      Text.LessTotal(a.customer, b.customer);
      if a.customer == b.customer == c.customer {
        if a.loan != b.loan && b.loan != c.loan {
          Text.LessTransitive(a.loan, b.loan, c.loan);
        }
      } else if a.customer != b.customer && b.customer != c.customer {
        Text.LessTransitive(a.customer, b.customer, c.customer);
        Text.LessTotal(a.customer, c.customer);
      }
    }
  }

  /** The working order: by Customer ID, then by Loan ID. */
  lemma ArrangedOrder(rows: seq<LgdRow>, i: nat, j: nat)
    requires i < j < |Arranged(rows)|
    ensures var a, b := Arranged(rows)[i], Arranged(rows)[j];
            Text.Less(a.customer, b.customer) || (a.customer == b.customer && (a.loan == b.loan || Text.Less(a.loan, b.loan)))
  {
    hide SortBy, TotalOrder;
    RowsOrdered();
    SortByAscends(rows, ByCustomerLoan());
  }

  function WithLoan(id: string): LgdRow -> bool { (r: LgdRow) => r.loan == id }

  function ForLoan(id: string): LgdResult -> bool { (x: LgdResult) => x.loan == id }

  function WithKey(id: string, customer: string): LgdRow -> bool { (r: LgdRow) => r.loan == id && r.customer == customer }

  lemma {:induction false} FirstSelected<T>(s: seq<T>, p: T -> bool, k: nat)
    requires k < |s| && p(s[k]) && forall j :: 0 <= j < k ==> !p(s[j])
    ensures Filter(s, p) != [] && Filter(s, p)[0] == s[k]
  {
    if k > 0 {
      FirstSelected(s[1..], p, k - 1);
    }
  }

  lemma {:induction false} SelectedFirst<T>(s: seq<T>, p: T -> bool) returns (k: nat)
    requires Filter(s, p) != []
    ensures k < |s| && p(s[k]) && Filter(s, p)[0] == s[k] && forall j :: 0 <= j < k ==> !p(s[j])
  {
    if p(s[0]) {
      k := 0;
    } else {
      k := SelectedFirst(s[1..], p);
      k := k + 1;
    }
  }

  lemma LoansAlike(id: string)
    ensures forall x: LgdResult, y: LgdResult :: ForLoan(id)(x) && ForLoan(id)(y) ==> ByLoan()(x, y)
  {}

  lemma KeysAlike(id: string, customer: string)
    ensures forall x: LgdRow, y: LgdRow :: WithKey(id, customer)(x) && WithKey(id, customer)(y) ==> ByCustomerLoan()(x, y)
  {}

  /**
   * The first result of a Loan ID, the one compute_ead takes, is that of the input row whose Customer ID is least among the
   * rows of the loan, and of these the earliest.
   */
  lemma FirstResultOf(rows: seq<LgdRow>, config: seq<CollateralType>, k: nat)
    requires ValidRate(rows) && k < |LgdTable(rows, config)|
    requires forall j :: 0 <= j < k ==> LgdTable(rows, config)[j].loan != LgdTable(rows, config)[k].loan
    ensures exists n :: 0 <= n < |rows| && rows[n].loan == LgdTable(rows, config)[k].loan && rows[n].eir == LgdTable(rows, config)[k].eir
              && LgdTable(rows, config)[k].discounted == Sum(Counting(config, |config|), Worth(rows, config, rows[n]))
              && (forall m :: 0 <= m < |rows| && rows[m].loan == rows[n].loan ==>
                    Text.Less(rows[n].customer, rows[m].customer) || (rows[m].customer == rows[n].customer && n <= m))
  {
    hide SortBy, Sum, Worth, Counting, Filter, DiscountedSum, Arranged;
    var table, arranged := LgdTable(rows, config), Arranged(rows);
    var x := table[k];
    var id := x.loan;
    ArrangedHolds(rows);
    FirstSelected(table, ForLoan(id), k);
    LoansAlike(id);
    SortByStable(ResultsOf(arranged, config), ByLoan(), ForLoan(id));
    var i := SelectedFirst(ResultsOf(arranged, config), ForLoan(id));
    assert x == ResultsOf(arranged, config)[i];
    var a := arranged[i];
    assert forall j :: 0 <= j < i ==> arranged[j].loan != id by {
      forall j | 0 <= j < i ensures arranged[j].loan != id {
        assert !ForLoan(id)(ResultsOf(arranged, config)[j]);
      }
    }
    var n := EarliestRow(rows, arranged, i);
    DiscountedSumPermutes(rows, arranged, config, a);
    DiscountedSumMeans(rows, config, a);
  }

  lemma EarliestRow(rows: seq<LgdRow>, arranged: seq<LgdRow>, i: nat) returns (n: nat)
    requires arranged == Arranged(rows) && i < |arranged| && forall j :: 0 <= j < i ==> arranged[j].loan != arranged[i].loan
    ensures n < |rows| && rows[n] == arranged[i]
    ensures forall m :: 0 <= m < |rows| && rows[m].loan == rows[n].loan ==>
              Text.Less(rows[n].customer, rows[m].customer) || (rows[m].customer == rows[n].customer && n <= m)
  {
    hide SortBy, Filter, Arranged;
    var a := arranged[i];
    ArrangedHolds(rows);
    var p := WithKey(a.loan, a.customer);
    KeysAlike(a.loan, a.customer);
    assert Filter(arranged, p) == Filter(rows, p) by { ArrangedStable(rows, p); }
    FirstSelected(arranged, p, i);
    n := SelectedFirst(rows, p);
    forall m | 0 <= m < |rows| && rows[m].loan == a.loan
      ensures Text.Less(a.customer, rows[m].customer) || (rows[m].customer == a.customer && n <= m)
    {
      assert rows[m] in arranged;
      var j :| 0 <= j < |arranged| && arranged[j] == rows[m];
      if j > i {
        ArrangedOrder(rows, i, j);
      }
      if rows[m].customer == a.customer {
        assert p(rows[m]);
      }
    }
  }

  lemma ArrangedStable(rows: seq<LgdRow>, p: LgdRow -> bool)
    requires forall x, y :: p(x) && p(y) ==> ByCustomerLoan()(x, y)
    ensures Filter(Arranged(rows), p) == Filter(rows, p)
  {
    SortByStable(rows, ByCustomerLoan(), p);
  }
}
