/** Snapshot expansion: the months of each loan the ECL is measured over. */
module Snapshots {
  import opened RealMath
  import opened Calendar
  import opened TransitionMatrix
  import opened BalanceWalk

  /** One EAD input row, with the rate the LGD join left on it. */
  datatype Loan = Loan(id: string, customer: string, segment: string, staging: Staging,
                       reporting: Date, maturity: Date, adjustedMaturity: Date, firstPayment: Date,
                       outstanding: real, eir: real, freq: Frequency)

  datatype Snap = Snap(loan: Loan, date: Date)

  /** IFRS 9, paragraph 5.5.5: Stage 1 is measured over twelve months, so offsets 0 to 12. */
  const STAGE1_OFFSETS := 13

  function SnapAt(loan: Loan, offset: nat): Snap { Snap(loan, AddMonths(loan.reporting, offset)) }

  function Offsets(n: nat): seq<nat> { seq(n, i requires 0 <= i => i) }

  predicate InStage(loan: Loan, stage: Stage) { loan.staging == In(stage) }

  function InStageOf(stage: Stage): Loan -> bool { (loan: Loan) => InStage(loan, stage) }

  function NoStage(): Loan -> bool { (loan: Loan) => !loan.staging.In? }

  function WithinMaturity(): Snap -> bool { (s: Snap) => AtMost(s.date, s.loan.maturity) }

  function Single(): Loan -> seq<Snap> { (loan: Loan) => [Snap(loan, loan.reporting)] }

  /** One frame of the Stage 1 part: every loan moved by the same offset. */
  function Frame(offset: nat): Loan -> seq<Snap> { (loan: Loan) => [SnapAt(loan, offset)] }

  function Frames(loans: seq<Loan>): nat -> seq<Snap> { (offset: nat) => Flatten(loans, Frame(offset)) }

  /** max(0, months between) + 1, the number of offsets generated for a Stage 2 loan. */
  function Stage2Length(loan: Loan): (n: nat)
    ensures n >= 1
  {
    var months := MonthsBetween(loan.reporting, loan.maturity);
    if months >= 0 then months + 1 else 1
  }

  function Repeat(loan: Loan, n: nat): seq<Snap> { seq(n, i requires 0 <= i => SnapAt(loan, i)) }

  function Lifetime(): Loan -> seq<Snap> { (loan: Loan) => Repeat(loan, Stage2Length(loan)) }

  // The four parts, in the order the source concatenates them.
  function Stage3Part(merged: seq<Loan>): seq<Snap> { Flatten(Filter(merged, InStageOf(Stage3)), Single()) }

  function Stage1Part(merged: seq<Loan>): seq<Snap> {
    Filter(Flatten(Offsets(STAGE1_OFFSETS), Frames(Filter(merged, InStageOf(Stage1)))), WithinMaturity())
  }

  function Stage2Part(merged: seq<Loan>): seq<Snap> {
    Filter(Flatten(Filter(merged, InStageOf(Stage2)), Lifetime()), WithinMaturity())
  }

  function OtherPart(merged: seq<Loan>): seq<Snap> { Flatten(Filter(merged, NoStage()), Single()) }

  function Snaps(merged: seq<Loan>): seq<Snap> {
    Stage3Part(merged) + Stage1Part(merged) + Stage2Part(merged) + OtherPart(merged)
  }

  method Stage1Frames(s1: seq<Loan>) returns (frames: seq<Snap>)
    ensures frames == Flatten(Offsets(STAGE1_OFFSETS), Frames(s1))
  {
    hide Flatten, SnapAt;
    var offsets := Offsets(STAGE1_OFFSETS);
    frames := [];
    FlattenEmpty(Frames(s1));
    for offset := 0 to STAGE1_OFFSETS
      invariant frames == Flatten(offsets[..offset], Frames(s1))
    {
      FlattenSnoc(offsets, offset, Frames(s1));
      frames := frames + Flatten(s1, Frame(offset));
    }
    assert offsets[..STAGE1_OFFSETS] == offsets;
  }

  lemma FlattenEmpty<T, U>(f: T -> seq<U>)
    ensures Flatten([], f) == []
  {}

  lemma NoFrames(s1: seq<Loan>)
    requires s1 == []
    ensures Flatten(Offsets(STAGE1_OFFSETS), Frames(s1)) == []
  {
    FlattenNone(Offsets(STAGE1_OFFSETS), Frames(s1));
  }

  lemma FilterEmpty(p: Snap -> bool)
    ensures Filter([], p) == []
  {}

  method ExpandSnapshots(merged: seq<Loan>) returns (result: seq<Snap>)
    ensures result == Snaps(merged)
  {
    hide Flatten, Filter, Frames, Offsets, Single, Lifetime, WithinMaturity, InStageOf, NoStage;
    FlattenEmpty(Single());
    FlattenEmpty(Lifetime());
    FilterEmpty(WithinMaturity());
    result := [];
    var s3 := Filter(merged, InStageOf(Stage3));
    if s3 != [] {
      result := result + Flatten(s3, Single());
    }
    var s1 := Filter(merged, InStageOf(Stage1));
    if s1 != [] {
      var frames := Stage1Frames(s1);
      result := result + Filter(frames, WithinMaturity());
    } else {
      NoFrames(s1);
    }
    var s2 := Filter(merged, InStageOf(Stage2));
    if s2 != [] {
      result := result + Filter(Flatten(s2, Lifetime()), WithinMaturity());
    }
    var other := Filter(merged, NoStage());
    if other != [] {
      result := result + Flatten(other, Single());
    }
  }

  // ----- The expansion of one loan -----

  /** How many of the offsets below `limit` come before the maturity is passed. */
  function Leading(loan: Loan, limit: nat): (n: nat)
    ensures n <= limit
  {
    if limit == 0 then 0
    else if AtMost(AddMonths(loan.reporting, limit - 1), loan.maturity) then limit
    else Leading(loan, limit - 1)
  }

  /** The number of rows a loan's walk has. */
  function RowCount(loan: Loan): nat {
    match loan.staging
    case In(Stage1) => Leading(loan, STAGE1_OFFSETS)
    case In(Stage2) => Leading(loan, Stage2Length(loan))
    case _ => 1
  }

  function Expansion(loan: Loan): seq<Snap> { Repeat(loan, RowCount(loan)) }

  lemma {:induction false} LeadingExact(loan: Loan, limit: nat, i: nat)
    ensures i < Leading(loan, limit) <==> i < limit && AtMost(AddMonths(loan.reporting, i), loan.maturity)
  {
    hide AddMonths, AtMost;
    if limit != 0 {
      LeadingExact(loan, limit - 1, i);
      if i < limit - 1 && AtMost(AddMonths(loan.reporting, limit - 1), loan.maturity) {
        EarlierAtMost(loan.reporting, i, limit - 1, loan.maturity);
      }
    }
  }

  lemma BeyondLifetime(loan: Loan, i: nat)
    requires i >= Stage2Length(loan)
    ensures !AtMost(AddMonths(loan.reporting, i), loan.maturity)
  {
    AddMonthsIndex(loan.reporting, i);
    MonthsBetweenAdds(loan.reporting, loan.maturity, loan.maturity);
    BeforeByIndex(loan.maturity, AddMonths(loan.reporting, i));
  }

  lemma KeptByDate(loan: Loan, i: nat)
    ensures InStage(loan, Stage2) ==> (i < RowCount(loan) <==> AtMost(AddMonths(loan.reporting, i), loan.maturity))
    ensures InStage(loan, Stage1) ==> (i < RowCount(loan) <==> i <= 12 && AtMost(AddMonths(loan.reporting, i), loan.maturity))
    ensures !InStage(loan, Stage1) && !InStage(loan, Stage2) ==> (i < RowCount(loan) <==> i == 0)
    ensures i < RowCount(loan) ==> Expansion(loan)[i] == SnapAt(loan, i)
  {
    LeadingExact(loan, STAGE1_OFFSETS, i);
    LeadingExact(loan, Stage2Length(loan), i);
    if i >= Stage2Length(loan) {
      BeyondLifetime(loan, i);
    }
  }

  /** A count of calendar months. */
  function MonthNumber(d: Date): int { 12 * d.year + d.month }

  /** i months after the reporting date is no later than maturity, by month and by the clamped day. */
  predicate Within(loan: Loan, i: nat) {
    var m := loan.maturity;
    || MonthNumber(loan.reporting) + i < MonthNumber(m)
    || (MonthNumber(loan.reporting) + i == MonthNumber(m) && (loan.reporting.day <= m.day || m.day == DaysIn(m.year, m.month)))
  }

  lemma WithinMeans(loan: Loan, i: nat)
    ensures AtMost(AddMonths(loan.reporting, i), loan.maturity) <==> Within(loan, i)
  {
    hide AddMonths;
    AddMonthsExact(loan.reporting, i);
  }

  /**
   * Snapshot expansion is exact: a Stage 2 loan is measured at the offsets not after its maturity, a Stage 1 loan at those
   * up to 12, any other at offset 0 only, and offset i falls i months on, on the reporting day or the month's last.
   */
  lemma ExpansionExact(loan: Loan, i: nat)
    ensures loan.staging == In(Stage2) ==> (i < |Expansion(loan)| <==> Within(loan, i))
    ensures loan.staging == In(Stage1) ==> (i < |Expansion(loan)| <==> i <= 12 && Within(loan, i))
    ensures loan.staging != In(Stage1) && loan.staging != In(Stage2) ==> |Expansion(loan)| == 1
    ensures i < |Expansion(loan)| ==>
              var x, d := Expansion(loan)[i], loan.reporting;
              && x.loan == loan && 12 * x.date.year + x.date.month == 12 * d.year + d.month + i
              && x.date.day == if d.day <= DaysIn(x.date.year, x.date.month) then d.day else DaysIn(x.date.year, x.date.month)
  {
    hide AddMonths, AtMost, Within;
    KeptByDate(loan, i);
    KeptByDate(loan, 0);
    KeptByDate(loan, 1);
    WithinMeans(loan, i);
    AddMonthsExact(loan.reporting, i);
  }

  /** Row i of a loan is i months after the reporting date: its dates rise, and every period counts from there. */
  lemma RowIsOffset(loan: Loan, i: nat)
    requires i < RowCount(loan)
    ensures forall j :: 0 <= j < i ==> Before(Expansion(loan)[j].date, Expansion(loan)[i].date)
    ensures MonthsBetween(loan.firstPayment, Expansion(loan)[i].date) == MonthsBetween(loan.firstPayment, loan.reporting) + i
    ensures MonthsBetween(loan.reporting, Expansion(loan)[i].date) == i
  {
    forall j | 0 <= j < i ensures Before(Expansion(loan)[j].date, Expansion(loan)[i].date) {
      AddMonthsIncreases(loan.reporting, j, i);
    }
    AddMonthsIndex(loan.reporting, i);
    MonthsBetweenAdds(loan.firstPayment, loan.reporting, AddMonths(loan.reporting, i));
  }

  /** total_term - elapsed, as compute_ead takes it (ead_engine.py:304-306). */
  function RemainingTerm(loan: Loan): int {
    MonthsBetween(loan.firstPayment, loan.adjustedMaturity) - MonthsBetween(loan.firstPayment, loan.reporting)
  }

  /** The remaining term does not depend on the first payment date. */
  lemma RemainingTermFromReporting(loan: Loan)
    ensures RemainingTerm(loan) == 12 * (loan.adjustedMaturity.year - loan.reporting.year) + loan.adjustedMaturity.month - loan.reporting.month
  {
    MonthsBetweenAdds(loan.firstPayment, loan.reporting, loan.adjustedMaturity);
  }

  // ----- Every loan's rows, once each, whatever part generates them -----

  function ExpansionOf(): Loan -> seq<Snap> { (loan: Loan) => Expansion(loan) }

  lemma LeadingFull(loan: Loan, n: nat)
    requires n >= 1 && AtMost(AddMonths(loan.reporting, n - 1), loan.maturity)
    ensures Leading(loan, n) == n && Leading(loan, n - 1) == n - 1
  {
    hide AddMonths, AtMost;
    if n > 1 {
      EarlierAtMost(loan.reporting, n - 2, n - 1, loan.maturity);
    }
  }

  lemma RepeatSnoc(loan: Loan, n: nat)
    requires n >= 1
    ensures Repeat(loan, n) == Repeat(loan, n - 1) + [SnapAt(loan, n - 1)]
  {}

  /** Keeping the in-maturity offsets keeps a prefix. */
  lemma {:induction false} PrefixOfRepeat(loan: Loan, n: nat)
    ensures Filter(Repeat(loan, n), WithinMaturity()) == Repeat(loan, Leading(loan, n))
  {
    hide AddMonths, AtMost, Filter;
    if n == 0 {
      assert Repeat(loan, n) == [];
      FilterEmpty(WithinMaturity());
    } else {
      PrefixOfRepeat(loan, n - 1);
      var last := SnapAt(loan, n - 1);
      RepeatSnoc(loan, n);
      FilterSnoc(Repeat(loan, n - 1), last, WithinMaturity());
      hide Repeat;
      assert WithinMaturity()(last) <==> AtMost(AddMonths(loan.reporting, n - 1), loan.maturity);
      if AtMost(AddMonths(loan.reporting, n - 1), loan.maturity) {
        LeadingFull(loan, n);
      } else {
        assert Leading(loan, n) == Leading(loan, n - 1);
      }
    }
  }

  /** One loan's frames. */
  function OwnFrames(loan: Loan): nat -> seq<Snap> { (offset: nat) => [SnapAt(loan, offset)] }

  lemma {:induction false} OwnFramesRepeat(loan: Loan, n: nat)
    ensures Flatten(Offsets(n), OwnFrames(loan)) == Repeat(loan, n)
  {
    hide Flatten, SnapAt;
    if n == 0 {
      FlattenEmpty(OwnFrames(loan));
      assert Offsets(0) == [];
    } else {
      OwnFramesRepeat(loan, n - 1);
      FlattenSnoc(Offsets(n), n - 1, OwnFrames(loan));
      assert Offsets(n)[..n - 1] == Offsets(n - 1) && Offsets(n)[..n] == Offsets(n);
      RepeatSnoc(loan, n);
    }
  }

  lemma {:induction false} FramesCons(offsets: seq<nat>, loan: Loan, rest: seq<Loan>)
    ensures multiset(Flatten(offsets, Frames([loan] + rest)))
         == multiset(Flatten(offsets, OwnFrames(loan))) + multiset(Flatten(offsets, Frames(rest)))
  {
    hide SnapAt;
    if offsets != [] {
      FramesCons(offsets[1..], loan, rest);
      FrameCons(loan, rest, offsets[0]);
    }
  }

  lemma FrameCons(loan: Loan, rest: seq<Loan>, offset: nat)
    ensures Frames([loan] + rest)(offset) == OwnFrames(loan)(offset) + Frames(rest)(offset)
  {
    hide SnapAt;
    assert ([loan] + rest)[1..] == rest;
  }

  lemma FilterAdds(s: seq<Snap>, a: seq<Snap>, b: seq<Snap>, p: Snap -> bool)
    requires multiset(s) == multiset(a) + multiset(b)
    ensures multiset(Filter(s, p)) == multiset(Filter(a, p)) + multiset(Filter(b, p))
  {
    hide Filter;
    FilterCounts(s, p);
    FilterCounts(a, p);
    FilterCounts(b, p);
  }

  /** The expansion of a loan when its staging is the given one. */
  function ExpansionIf(loan: Loan, p: Loan -> bool): seq<Snap> { if p(loan) then Expansion(loan) else [] }

  lemma SinglesCons(merged: seq<Loan>, p: Loan -> bool)
    requires merged != [] && (p(merged[0]) ==> RowCount(merged[0]) == 1)
    ensures Flatten(Filter(merged, p), Single()) == ExpansionIf(merged[0], p) + Flatten(Filter(merged[1..], p), Single())
  {
    AddMonthsIndex(merged[0].reporting, 0);
    if p(merged[0]) {
      assert ([merged[0]] + Filter(merged[1..], p))[1..] == Filter(merged[1..], p);
      assert Expansion(merged[0]) == [SnapAt(merged[0], 0)];
    } else {
      assert Filter(merged, p) == Filter(merged[1..], p);
    }
  }

  lemma Stage2Cons(merged: seq<Loan>)
    requires merged != []
    ensures Stage2Part(merged) == ExpansionIf(merged[0], InStageOf(Stage2)) + Stage2Part(merged[1..])
  {
    hide Repeat, Leading, Stage2Length, WithinMaturity;
    var loan, s2 := merged[0], Filter(merged[1..], InStageOf(Stage2));
    if InStage(loan, Stage2) {
      assert ([loan] + s2)[1..] == s2;
      FilterAppend(Lifetime()(loan), Flatten(s2, Lifetime()), WithinMaturity());
      PrefixOfRepeat(loan, Stage2Length(loan));
    } else {
      assert Filter(merged, InStageOf(Stage2)) == s2;
    }
  }

  lemma Stage1Cons(merged: seq<Loan>)
    requires merged != []
    ensures multiset(Stage1Part(merged)) == multiset(ExpansionIf(merged[0], InStageOf(Stage1))) + multiset(Stage1Part(merged[1..]))
  {
    hide Repeat, Leading, WithinMaturity, Flatten, Frames, OwnFrames;
    var loan, s1, offsets := merged[0], Filter(merged[1..], InStageOf(Stage1)), Offsets(STAGE1_OFFSETS);
    if InStage(loan, Stage1) {
      assert Filter(merged, InStageOf(Stage1)) == [loan] + s1;
      FramesCons(offsets, loan, s1);
      FilterAdds(Flatten(offsets, Frames([loan] + s1)), Flatten(offsets, OwnFrames(loan)), Flatten(offsets, Frames(s1)), WithinMaturity());
      OwnFramesRepeat(loan, STAGE1_OFFSETS);
      PrefixOfRepeat(loan, STAGE1_OFFSETS);
    } else {
      assert Filter(merged, InStageOf(Stage1)) == s1;
    }
  }

  lemma ExpansionParts(loan: Loan)
    ensures multiset(Expansion(loan))
         == multiset(ExpansionIf(loan, InStageOf(Stage3))) + multiset(ExpansionIf(loan, InStageOf(Stage1)))
          + multiset(ExpansionIf(loan, InStageOf(Stage2))) + multiset(ExpansionIf(loan, NoStage()))
  {
    hide Expansion;
    if loan.staging.In? {
      assert loan.staging.stage.Stage1? || loan.staging.stage.Stage2? || loan.staging.stage.Stage3?;
    }
  }

  lemma NoSnaps()
    ensures Snaps([]) == []
  {
    NoFrames([]);
  }

  /** The four parts hold each input row's own expansion exactly once and nothing else, whatever the Loan IDs. */
  lemma {:induction false} ExpansionConserved(merged: seq<Loan>)
    ensures multiset(Snaps(merged)) == multiset(Flatten(merged, ExpansionOf()))
  {
    hide Stage1Part, Stage2Part, Filter, Expansion, Flatten;
    if merged == [] {
      NoSnaps();
      FlattenEmpty(ExpansionOf());
    } else {
      ExpansionConserved(merged[1..]);
      FlattenCons(merged, ExpansionOf());
      SinglesCons(merged, InStageOf(Stage3));
      Stage1Cons(merged);
      Stage2Cons(merged);
      SinglesCons(merged, NoStage());
      ExpansionParts(merged[0]);
    }
  }

  // ----- The rows of one Loan ID in date order -----

  function OfLoan(id: string): Snap -> bool { (s: Snap) => s.loan.id == id }

  function OnDate(date: Date): Snap -> bool { (s: Snap) => s.date == date }

  predicate Ascending(snaps: seq<Snap>) {
    forall i, j :: 0 <= i < j < |snaps| ==> AtMost(snaps[i].date, snaps[j].date)
  }

  function ByDate(): (Snap, Snap) -> bool { (a: Snap, b: Snap) => AtMost(a.date, b.date) }

  /** sort_values("Snapshot Date", kind="mergesort"). */
  function SortByDate(snaps: seq<Snap>): seq<Snap> { SortBy(snaps, ByDate()) }

  lemma DatesAtMost()
    ensures forall a: Snap, b: Snap :: a.date == b.date ==> ByDate()(a, b)
  {}

  lemma DatesOrdered()
    ensures TotalOrder(ByDate())
  {}

  /** The sort is a stable sort: ascending dates, the same rows, and rows of one date in their old order. */
  lemma SortSpec(snaps: seq<Snap>)
    ensures Ascending(SortByDate(snaps)) && multiset(SortByDate(snaps)) == multiset(snaps)
    ensures forall date :: Filter(SortByDate(snaps), OnDate(date)) == Filter(snaps, OnDate(date))
  {
    hide Filter, SortBy, AtMost;
    DatesOrdered();
    SortByAscends(snaps, ByDate());
    SortByHolds(snaps, ByDate());
    forall date ensures Filter(SortByDate(snaps), OnDate(date)) == Filter(snaps, OnDate(date)) {
      DatesAtMost();
      SortByStable(snaps, ByDate(), OnDate(date));
    }
  }

  /** The rows a walk sees: every generated row of one Loan ID, by date. */
  function Group(merged: seq<Loan>, id: string): seq<Snap> { SortByDate(Filter(Snaps(merged), OfLoan(id))) }

  /** An input row's expansion when it has the Loan ID. */
  function OwnExpansion(id: string): Loan -> seq<Snap> { (loan: Loan) => if loan.id == id then Expansion(loan) else [] }

  lemma OwnRows(loan: Loan, id: string)
    ensures Filter(Expansion(loan), OfLoan(id)) == OwnExpansion(id)(loan)
  {
    if loan.id == id {
      FilterAll(Expansion(loan), OfLoan(id));
    } else {
      FilterNone(Expansion(loan), OfLoan(id));
    }
  }

  /** A group holds exactly the expansions of the input rows with its Loan ID. */
  lemma GroupHolds(merged: seq<Loan>, id: string)
    ensures multiset(Group(merged, id)) == multiset(Flatten(merged, OwnExpansion(id)))
    ensures multiset(Filter(Snaps(merged), OfLoan(id))) == multiset(Group(merged, id)) && Ascending(Group(merged, id))
  {
    hide Filter, Flatten, Snaps, Expansion, SortByDate, Ascending;
    ExpansionConserved(merged);
    var rows := Flatten(merged, ExpansionOf());
    FilterCounts(Snaps(merged), OfLoan(id));
    FilterCounts(rows, OfLoan(id));
    assert multiset(Filter(Snaps(merged), OfLoan(id))) == multiset(Filter(rows, OfLoan(id)));
    forall loan | loan in merged ensures Filter(ExpansionOf()(loan), OfLoan(id)) == OwnExpansion(id)(loan) {
      OwnRows(loan, id);
    }
    FilterFlatten(merged, ExpansionOf(), OfLoan(id), OwnExpansion(id));
    SortSpec(Filter(Snaps(merged), OfLoan(id)));
  }

  predicate StrictlyAscending(snaps: seq<Snap>) {
    forall i, j :: 0 <= i < j < |snaps| ==> Before(snaps[i].date, snaps[j].date)
  }

  lemma SameLast(a: seq<Snap>, b: seq<Snap>)
    requires Ascending(a) && StrictlyAscending(b) && multiset(a) == multiset(b) && a != [] && b != []
    ensures a[|a| - 1] == b[|b| - 1]
  {
    var x, y := a[|a| - 1], b[|b| - 1];
    assert x in multiset(b) && y in multiset(a);
    var i :| 0 <= i < |b| && b[i] == x;
    var j :| 0 <= j < |a| && a[j] == y;
  }

  /** Rows on pairwise different dates have only one date order. */
  lemma {:induction false} OnlyOrder(a: seq<Snap>, b: seq<Snap>)
    requires Ascending(a) && StrictlyAscending(b) && multiset(a) == multiset(b)
    ensures a == b
  {
    hide AtMost, Before;
    assert |a| == |multiset(a)| == |multiset(b)| == |b|;
    if a != [] {
      SameLast(a, b);
      SameFront(a, b);
      OnlyOrder(a[..|a| - 1], b[..|b| - 1]);
      assert a == a[..|a| - 1] + [a[|a| - 1]] && b == b[..|b| - 1] + [b[|b| - 1]];
    }
  }

  /** Input row k is the only one of its Loan ID that generates rows. */
  predicate OnlyBearer(merged: seq<Loan>, k: nat) {
    k < |merged| && forall i :: 0 <= i < |merged| && i != k && merged[i].id == merged[k].id ==> RowCount(merged[i]) == 0
  }

  /** Whatever part and order its rows are generated in, grouping by Loan ID gives each loan exactly its expansion. */
  lemma GroupIsExpansion(merged: seq<Loan>, k: nat)
    requires OnlyBearer(merged, k)
    ensures Group(merged, merged[k].id) == Expansion(merged[k])
  {
    hide Filter, Flatten, Snaps, SortByDate, RowCount, Before, AtMost;
    var loan := merged[k];
    GroupHolds(merged, loan.id);
    FlattenOne(merged, OwnExpansion(loan.id), k);
    forall i, j | 0 <= i < j < RowCount(loan) ensures Before(Expansion(loan)[i].date, Expansion(loan)[j].date) {
      RowIsOffset(loan, j);
    }
    OnlyOrder(Group(merged, loan.id), Expansion(loan));
  }

  // ----- Loan IDs on more than one input row -----

  /** Every row of the group is as many months after its own reporting date as its index, the period it is discounted over. */
  predicate DiscountsByOffset(merged: seq<Loan>, id: string) {
    forall i :: 0 <= i < |Group(merged, id)| ==> MonthsBetween(Group(merged, id)[i].loan.reporting, Group(merged, id)[i].date) == i
  }

  /** Two input rows share the Loan ID and both generate rows. */
  predicate SharedId(merged: seq<Loan>, id: string) {
    exists a, b :: 0 <= a < b < |merged| && merged[a].id == id && merged[b].id == id
                   && RowCount(merged[a]) >= 1 && RowCount(merged[b]) >= 1
  }

  lemma FirstRow(loan: Loan)
    requires RowCount(loan) >= 1
    ensures SnapAt(loan, 0) in multiset(Expansion(loan)) && MonthsBetween(loan.reporting, SnapAt(loan, 0).date) == 0
  {
    hide RowCount;
    RowIsOffset(loan, 0);
    assert Expansion(loan)[0] == SnapAt(loan, 0);
  }

  lemma SharedMisdiscounts(merged: seq<Loan>, id: string)
    requires SharedId(merged, id)
    ensures !DiscountsByOffset(merged, id)
  {
    hide Filter, Flatten, Snaps, SortByDate, RowCount, Repeat, Ascending, AddMonths, MonthsBetween;
    var a, b :| 0 <= a < b < |merged| && merged[a].id == id && merged[b].id == id
                && RowCount(merged[a]) >= 1 && RowCount(merged[b]) >= 1;
    GroupHolds(merged, id);
    FlattenTwo(merged, OwnExpansion(id), a, b);
    FirstRow(merged[a]);
    FirstRow(merged[b]);
    var x, y := SnapAt(merged[a], 0), SnapAt(merged[b], 0);
    assert multiset{x, y} <= multiset(Expansion(merged[a])) + multiset(Expansion(merged[b]));
    OccursLater(Group(merged, id), x, y);
  }

  /** A group is discounted by its rows' own month offsets exactly when no two row-bearing input rows share its Loan ID. */
  lemma DiscountsByOffsetExactly(merged: seq<Loan>, id: string)
    ensures DiscountsByOffset(merged, id) <==> !SharedId(merged, id)
  {
    hide Filter, Flatten, Snaps, SortByDate, RowCount;
    if SharedId(merged, id) {
      SharedMisdiscounts(merged, id);
    } else if k :| 0 <= k < |merged| && merged[k].id == id && RowCount(merged[k]) >= 1 {
      GroupIsExpansion(merged, k);
      forall i | 0 <= i < RowCount(merged[k]) ensures MonthsBetween(merged[k].reporting, Expansion(merged[k])[i].date) == i {
        RowIsOffset(merged[k], i);
      }
    } else {
      GroupHolds(merged, id);
      FlattenNone(merged, OwnExpansion(id));
      assert |Group(merged, id)| == |multiset(Group(merged, id))|;
    }
  }
}
