/** compute_ead: LGD join, snapshot expansion, balance walk, PD join and the loss columns. */
module EadEngine {
  import opened Wrappers
  import opened RealMath
  import opened TransitionMatrix
  import opened MarginalPd
  import opened Calendar
  import opened NextMonthJoin
  import opened PdEngine
  import opened BalanceWalk
  import opened Snapshots
  import opened Collateral
  import Text

  // ----- LGD join (ead_engine.py:234-257) -----

  /** The first LGD result of a loan. */
  function LgdLookup(lgd: seq<LgdResult>, id: string): Option<LgdResult> {
    if lgd == [] then None
    else if lgd[0].loan == id then Some(lgd[0])
    else LgdLookup(lgd[1..], id)
  }

  /** The LGD file's rate takes precedence over the EAD file's. */
  function MergeRate(lgd: seq<LgdResult>, loan: Loan): Loan {
    match LgdLookup(lgd, loan.id)
    case Some(found) => loan.(eir := found.eir)
    case None => loan
  }

  /** A loan without an LGD result has no collateral (EC-06). */
  function MergeCollateral(lgd: seq<LgdResult>, id: string): real {
    match LgdLookup(lgd, id)
    case Some(found) => found.discounted
    case None => 0.0
  }

  function Merge(loans: seq<Loan>, lgd: seq<LgdResult>): (merged: seq<Loan>)
    ensures |merged| == |loans|
  {
    seq(|loans|, i requires 0 <= i < |loans| => MergeRate(lgd, loans[i]))
  }

  // ----- Walk rows (ead_engine.py:290-327) -----

  datatype WalkRow = WalkRow(loan: Loan, date: Date, period: int, discountPeriod: nat, balance: real, collateral: real)

  function TermsOf(loan: Loan): Terms
    requires loan.eir >= 0.0
  {
    LoanTerms(loan.outstanding, loan.eir, RemainingTerm(loan), loan.freq)
  }

  /** The walk of one merged loan: row i is offset i, discounted over i periods. */
  function LoanWalk(loan: Loan, collateral: real): seq<WalkRow>
    requires loan.eir >= 0.0
  {
    seq(RowCount(loan), i requires 0 <= i =>
      WalkRow(loan, SnapAt(loan, i).date, MonthsBetween(loan.firstPayment, SnapAt(loan, i).date), i,
              Balance(TermsOf(loan), i + 1), collateral))
  }

  predicate ValidLoan(loan: Loan) { loan.outstanding >= 0.0 && loan.eir >= 0.0 }

  predicate ValidLoans(loans: seq<Loan>) { forall i :: 0 <= i < |loans| ==> ValidLoan(loans[i]) }

  predicate ValidLgd(lgd: seq<LgdResult>) { forall x :: x in lgd ==> x.eir >= 0.0 && x.discounted >= 0.0 }

  /** Every generated row belongs to an input row. */
  lemma SnapOwner(merged: seq<Loan>, snap: Snap)
    requires snap in Snaps(merged)
    ensures snap.loan in merged
  {
    hide Snaps, Flatten;
    ExpansionConserved(merged);
    assert snap in multiset(Flatten(merged, ExpansionOf()));
    var loan := FlattenMember(merged, ExpansionOf(), snap);
  }

  lemma {:induction false} FlattenMember<T>(s: seq<T>, f: T -> seq<Snap>, x: Snap) returns (y: T)
    requires x in Flatten(s, f)
    ensures y in s && x in f(y)
  {
    if x in f(s[0]) {
      y := s[0];
    } else {
      y := FlattenMember(s[1..], f, x);
    }
  }

  /** A group and the unsorted selection it comes from hold the same rows, all of the Loan ID and of input rows. */
  lemma GroupMembers(merged: seq<Loan>, id: string)
    ensures |Group(merged, id)| == |Filter(Snaps(merged), OfLoan(id))|
    ensures forall s :: s in Filter(Snaps(merged), OfLoan(id)) <==> s in Group(merged, id)
    ensures forall s :: s in Group(merged, id) ==> s.loan in merged && s.loan.id == id
  {
    hide Snaps, SortByDate, Filter;
    var rows := Filter(Snaps(merged), OfLoan(id));
    GroupHolds(merged, id);
    assert |rows| == |multiset(rows)| == |multiset(Group(merged, id))|;
    FilterMembers(Snaps(merged), OfLoan(id));
    forall s ensures s in rows <==> s in Group(merged, id) {
      assert s in multiset(rows) <==> s in multiset(Group(merged, id));
    }
    forall s | s in rows ensures s.loan in merged {
      SnapOwner(merged, s);
    }
  }

  /**
   * The terms of a group's walk: amount, rate and frequency of its earliest row, and the instalment
   * of the first row generated (ead_engine.py:300-314, 96-102).
   */
  function GroupTerms(merged: seq<Loan>, id: string): Terms
    requires ValidLoans(merged) && Group(merged, id) != []
  {
    GroupMembers(merged, id);
    var head, first := Group(merged, id)[0].loan, Filter(Snaps(merged), OfLoan(id))[0].loan;
    assert ValidLoan(first) by { assert Filter(Snaps(merged), OfLoan(id))[0] in Filter(Snaps(merged), OfLoan(id)); }
    Terms(head.outstanding, head.eir / 12.0,
          PeriodInstalment(first.outstanding, first.eir, RemainingTerm(first), first.freq), head.freq)
  }

  function GroupWalk(merged: seq<Loan>, lgd: seq<LgdResult>, id: string): seq<WalkRow>
    requires ValidLoans(merged)
  {
    var group := Group(merged, id);
    if group == [] then []
    else
      seq(|group|, i requires 0 <= i < |group| =>
        WalkRow(group[i].loan, group[i].date, MonthsBetween(group[i].loan.firstPayment, group[i].date), i,
                Balance(GroupTerms(merged, id), i + 1), MergeCollateral(lgd, id)))
  }

  function Ids(loans: seq<Loan>): seq<string> { seq(|loans|, i requires 0 <= i < |loans| => loans[i].id) }

  /** The groups' order: sorted distinct Loan IDs. */
  function SortedIds(loans: seq<Loan>): seq<string> { Text.SortedDistinct(Ids(loans)) }

  function WalksOver(merged: seq<Loan>, lgd: seq<LgdResult>, ids: seq<string>): seq<WalkRow>
    requires ValidLoans(merged)
  {
    if ids == [] then [] else GroupWalk(merged, lgd, ids[0]) + WalksOver(merged, lgd, ids[1..])
  }

  /** The walk rows of every group, by Loan ID and date. */
  function Walks(merged: seq<Loan>, lgd: seq<LgdResult>): seq<WalkRow>
    requires ValidLoans(merged)
  {
    WalksOver(merged, lgd, SortedIds(merged))
  }

  /** Where one input row alone bears the Loan ID's rows, the group's walk is that loan's own. */
  lemma GroupWalkIsLoanWalk(merged: seq<Loan>, lgd: seq<LgdResult>, k: nat)
    requires ValidLoans(merged) && k < |merged| && OnlyBearer(merged, k)
    ensures ValidLoan(merged[k])
    ensures GroupWalk(merged, lgd, merged[k].id) == LoanWalk(merged[k], MergeCollateral(lgd, merged[k].id))
  {
    hide Filter, Snaps, SortByDate, RowCount, Balance, PeriodInstalment, MergeCollateral, SnapAt, OnlyBearer;
    var loan := merged[k];
    GroupIsExpansion(merged, k);
    GroupMembers(merged, loan.id);
    var rows := Filter(Snaps(merged), OfLoan(loan.id));
    if rows != [] {
      assert rows[0] in rows;
      assert rows[0] in Expansion(loan);
      ExpansionOwner(loan, rows[0]);
      ExpansionOwner(loan, Expansion(loan)[0]);
      assert GroupTerms(merged, loan.id) == TermsOf(loan);
      forall i | 0 <= i < |Expansion(loan)| ensures Expansion(loan)[i] == SnapAt(loan, i) && SnapAt(loan, i).loan == loan {
        ExpansionOwner(loan, Expansion(loan)[i]);
      }
    }
  }

  lemma ExpansionOwner(loan: Loan, snap: Snap)
    requires snap in Expansion(loan)
    ensures snap.loan == loan
  {}

  lemma {:induction false} LookupMember(lgd: seq<LgdResult>, id: string)
    ensures LgdLookup(lgd, id).Some? ==> LgdLookup(lgd, id).value in lgd
  {
    if lgd != [] {
      LookupMember(lgd[1..], id);
    }
  }

  lemma MergeValid(loans: seq<Loan>, lgd: seq<LgdResult>)
    requires ValidLoans(loans) && ValidLgd(lgd)
    ensures ValidLoans(Merge(loans, lgd))
  {
    forall i | 0 <= i < |loans| ensures ValidLoan(MergeRate(lgd, loans[i])) {
      LookupMember(lgd, loans[i].id);
    }
  }

  // ----- PD join (ead_engine.py:329-366) -----

  /** An output row: `found` says whether the PD table had an entry. */
  datatype EclRow = EclRow(walk: WalkRow, found: bool, marginalPd: real, cureRate: real)

  function PdMatches(pd: seq<PdRow>, w: WalkRow): seq<PdRow> {
    if w.loan.staging.In? then Filter(pd, HasKey(w.loan.segment, w.period, w.loan.staging.stage)) else []
  }

  /** The left merge with the PD table; missing PD and cure rate are filled with 0. */
  function JoinPd(pd: seq<PdRow>): WalkRow -> seq<EclRow> {
    (w: WalkRow) =>
      var matches := PdMatches(pd, w);
      if matches == [] then [EclRow(w, false, 0.0, 0.0)]
      else seq(|matches|, i requires 0 <= i < |matches| => EclRow(w, true, matches[i].marginalPd, matches[i].cureRate))
  }

  /** EC-08: some segment has no PD entry on any of its rows. */
  predicate SegmentWithoutPd(rows: seq<EclRow>) {
    exists r :: r in rows && forall s :: s in rows && s.walk.loan.segment == r.walk.loan.segment ==> !s.found
  }

  function EclRows(loans: seq<Loan>, pd: seq<PdRow>, lgd: seq<LgdResult>): seq<EclRow>
    requires ValidLoans(loans) && ValidLgd(lgd)
  {
    MergeValid(loans, lgd);
    Flatten(Walks(Merge(loans, lgd), lgd), JoinPd(pd))
  }

  ghost function EadResult(loans: seq<Loan>, pd: seq<PdRow>, lgd: seq<LgdResult>): Result<seq<EclRow>>
    requires ValidLoans(loans) && ValidLgd(lgd)
  {
    var rows := EclRows(loans, pd, lgd);
    if SegmentWithoutPd(rows) then Failure("EC-08") else Success(rows)
  }

  /** The rows of one Loan ID's group, from the generated snapshots and the balance walk. */
  method WalkGroup(merged: seq<Loan>, snapshots: seq<Snap>, lgd: seq<LgdResult>, id: string) returns (walk: seq<WalkRow>)
    requires ValidLoans(merged) && snapshots == Snaps(merged)
    ensures walk == GroupWalk(merged, lgd, id)
  {
    hide Balance, PeriodInstalment, Snaps, Filter, SortByDate, MergeCollateral;
    var rows := Filter(snapshots, OfLoan(id));
    GroupMembers(merged, id);
    walk := [];
    if rows == [] {
      return;
    }
    var first := rows[0].loan;
    assert rows[0] in rows;
    var instalment := PeriodInstalment(first.outstanding, first.eir, RemainingTerm(first), first.freq);
    var group := SortByDate(rows);
    var head := group[0].loan;
    var afterRepayment, afterMissed, periods := WalkLoanBalances(|group|, head.outstanding, head.eir, instalment, head.freq);
    for i := 0 to |group|
      invariant walk == GroupWalk(merged, lgd, id)[..i]
    {
      walk := walk + [WalkRow(group[i].loan, group[i].date, MonthsBetween(group[i].loan.firstPayment, group[i].date), i,
                              afterMissed[i], MergeCollateral(lgd, id))];
    }
  }

  lemma {:induction false} WalksSnoc(merged: seq<Loan>, lgd: seq<LgdResult>, ids: seq<string>, k: nat)
    requires ValidLoans(merged) && k < |ids|
    ensures WalksOver(merged, lgd, ids[..k + 1]) == WalksOver(merged, lgd, ids[..k]) + GroupWalk(merged, lgd, ids[k])
  {
    hide GroupWalk;
    if k == 0 {
      assert ids[..1][1..] == [];
    } else {
      assert ids[..k + 1][1..] == ids[1..][..k] && ids[..k][1..] == ids[1..][..k - 1];
      WalksSnoc(merged, lgd, ids[1..], k - 1);
    }
  }

  method ComputeEad(loans: seq<Loan>, pd: seq<PdRow>, lgd: seq<LgdResult>) returns (result: Result<seq<EclRow>>)
    requires ValidLoans(loans) && ValidLgd(lgd)
    ensures result == EadResult(loans, pd, lgd)
  {
    hide Filter, Flatten, GroupWalk, Snaps, JoinPd, Merge, ValidLoans;
    MergeValid(loans, lgd);
    var merged := Merge(loans, lgd);
    var snapshots := ExpandSnapshots(merged);
    var ids := SortedIds(merged);
    var walks: seq<WalkRow> := [];
    for k := 0 to |ids|
      invariant walks == WalksOver(merged, lgd, ids[..k])
    {
      var walk := WalkGroup(merged, snapshots, lgd, ids[k]);
      WalksSnoc(merged, lgd, ids, k);
      walks := walks + walk;
    }
    assert ids[..|ids|] == ids;
    var rows := Flatten(walks, JoinPd(pd));
    if SegmentWithoutPd(rows) {
      result := Failure("EC-08");
    } else {
      result := Success(rows);
    }
  }

  // ----- The join against compute_pd's table -----

  predicate HasPd(history: seq<Snapshot>, w: WalkRow) {
    w.loan.staging.In? && w.loan.segment in SegmentNames(Dedupe(history)) && 1 <= w.period <= MAX_PD_MONTH
  }

  /** The one output row of a walk row. */
  function EclRowOf(history: seq<Snapshot>, w: WalkRow): EclRow {
    if HasPd(history, w)
    then EclRow(w, true, MarginalPdAt(SegmentMatrix(Dedupe(history), w.loan.segment), w.loan.staging.stage, w.period),
                SegmentCure(Dedupe(history), w.loan.segment))
    else EclRow(w, false, 0.0, 0.0)
  }

  /** Joining with the PD table keeps every row exactly once, with the hazard of its segment, period and stage or 0. */
  lemma PdJoinFunctional(history: seq<Snapshot>, w: WalkRow)
    ensures JoinPd(PdTable(history))(w) == [EclRowOf(history, w)]
  {
    hide PdTable, SegmentMatrix, SegmentCure, MarginalPdAt, Filter, SegmentNames;
    if w.loan.staging.In? {
      PdTableLookup(history, w.loan.segment, w.period, w.loan.staging.stage);
      if HasPd(history, w) {
        TableRowValues(w.loan.segment, SegmentMatrix(Dedupe(history), w.loan.segment),
                       SegmentCure(Dedupe(history), w.loan.segment), w.loan.staging.stage, w.period);
      }
    }
  }

  lemma TableRowValues(segment: string, m: Matrix, cure: real, stage: Stage, month: int)
    requires 1 <= month <= MAX_PD_MONTH
    ensures TableRow(segment, m, cure, stage, month).marginalPd == MarginalPdAt(m, stage, month)
    ensures TableRow(segment, m, cure, stage, month).cureRate == cure
  {
    hide MarginalPdAt, Power;
  }

  lemma {:induction false} JoinPdAll(history: seq<Snapshot>, walks: seq<WalkRow>)
    ensures |Flatten(walks, JoinPd(PdTable(history)))| == |walks|
    ensures forall i :: 0 <= i < |walks| ==> Flatten(walks, JoinPd(PdTable(history)))[i] == EclRowOf(history, walks[i])
  {
    hide JoinPd, PdTable, EclRowOf;
    if walks != [] {
      PdJoinFunctional(history, walks[0]);
      JoinPdAll(history, walks[1..]);
    }
  }

  /** Some segment in use has no PD history, or has every period outside 1..299. */
  ghost predicate UnservedSegment(history: seq<Snapshot>, walks: seq<WalkRow>) {
    exists w :: w in walks
      && (w.loan.segment !in SegmentNames(Dedupe(history))
          || forall v :: v in walks && v.loan.segment == w.loan.segment ==> !(1 <= v.period <= MAX_PD_MONTH))
  }

  /** rows are the PD-joined walks. */
  ghost predicate JoinedWith(history: seq<Snapshot>, walks: seq<WalkRow>, rows: seq<EclRow>) {
    |rows| == |walks| && forall i :: 0 <= i < |walks| ==> rows[i].walk == walks[i] && rows[i].found == HasPd(history, walks[i])
  }

  lemma UnservedHasNoPd(history: seq<Snapshot>, walks: seq<WalkRow>, rows: seq<EclRow>)
    requires JoinedWith(history, walks, rows) && UnservedSegment(history, walks)
    ensures SegmentWithoutPd(rows)
  {
    hide SegmentNames, Dedupe;
    var w :| w in walks && (w.loan.segment !in SegmentNames(Dedupe(history))
           || forall v :: v in walks && v.loan.segment == w.loan.segment ==> !(1 <= v.period <= MAX_PD_MONTH));
    var i :| 0 <= i < |walks| && walks[i] == w;
    assert rows[i] in rows;
    forall s | s in rows && s.walk.loan.segment == rows[i].walk.loan.segment ensures !s.found {
      var j :| 0 <= j < |rows| && rows[j] == s;
      assert walks[j] in walks;
    }
  }

  lemma NoPdIsUnserved(history: seq<Snapshot>, walks: seq<WalkRow>, rows: seq<EclRow>)
    requires JoinedWith(history, walks, rows) && SegmentWithoutPd(rows)
    requires forall w :: w in walks ==> w.loan.staging.In?
    ensures UnservedSegment(history, walks)
  {
    hide SegmentNames, Dedupe;
    var r :| r in rows && forall s :: s in rows && s.walk.loan.segment == r.walk.loan.segment ==> !s.found;
    var i :| 0 <= i < |rows| && rows[i] == r;
    var w := walks[i];
    assert w in walks;
    if w.loan.segment in SegmentNames(Dedupe(history)) {
      forall v | v in walks && v.loan.segment == w.loan.segment ensures !(1 <= v.period <= MAX_PD_MONTH) {
        var j :| 0 <= j < |walks| && walks[j] == v;
        assert rows[j] in rows;
      }
    }
  }

  /** EC-08 is raised exactly when a segment in use lacks PD history or has every period outside 1..299. */
  lemma Ec08Exact(loans: seq<Loan>, history: seq<Snapshot>, lgd: seq<LgdResult>)
    requires ValidLoans(loans) && ValidLgd(lgd)
    requires forall loan :: loan in loans ==> loan.staging.In?
    ensures ValidLoans(Merge(loans, lgd))
    ensures EadResult(loans, PdTable(history), lgd).Failure? <==> UnservedSegment(history, Walks(Merge(loans, lgd), lgd))
  {
    hide Flatten, JoinPd, PdTable, Walks, Merge, SegmentWithoutPd, UnservedSegment, HasPd, ValidLoans;
    MergeValid(loans, lgd);
    var walks := Walks(Merge(loans, lgd), lgd);
    WalksStaging(loans, lgd);
    var rows := Flatten(walks, JoinPd(PdTable(history)));
    JoinPdAll(history, walks);
    assert JoinedWith(history, walks, rows);
    if UnservedSegment(history, walks) {
      UnservedHasNoPd(history, walks, rows);
    }
    if SegmentWithoutPd(rows) {
      NoPdIsUnserved(history, walks, rows);
    }
  }

  lemma GroupWalkAt(merged: seq<Loan>, lgd: seq<LgdResult>, id: string, i: nat)
    requires ValidLoans(merged) && i < |GroupWalk(merged, lgd, id)|
    ensures i < |Group(merged, id)|
    ensures var w := GroupWalk(merged, lgd, id)[i];
            w.loan == Group(merged, id)[i].loan && w.balance == Balance(GroupTerms(merged, id), i + 1) && w.collateral == MergeCollateral(lgd, id)
  {
    hide Balance, Group, GroupTerms, MergeCollateral, MonthsBetween;
  }

  lemma WalkRowFacts(merged: seq<Loan>, lgd: seq<LgdResult>, id: string, w: WalkRow)
    requires ValidLoans(merged) && w in GroupWalk(merged, lgd, id)
    ensures w.loan in merged && w.loan.id == id && w.balance >= 0.0 && w.collateral == MergeCollateral(lgd, id)
  {
    hide Balance, Snaps, Filter, Group, GroupTerms, MergeCollateral, GroupWalk;
    var i :| 0 <= i < |GroupWalk(merged, lgd, id)| && GroupWalk(merged, lgd, id)[i] == w;
    GroupWalkAt(merged, lgd, id, i);
    GroupMembers(merged, id);
    assert Group(merged, id)[i] in Group(merged, id);
    BalanceStep(GroupTerms(merged, id), i);
  }

  lemma {:induction false} WalkOverMember(merged: seq<Loan>, lgd: seq<LgdResult>, ids: seq<string>, w: WalkRow)
    requires ValidLoans(merged) && w in WalksOver(merged, lgd, ids)
    ensures w.loan in merged && w.balance >= 0.0
    ensures w.collateral == MergeCollateral(lgd, w.loan.id)
  {
    hide MergeCollateral, GroupWalk;
    if w in GroupWalk(merged, lgd, ids[0]) {
      WalkRowFacts(merged, lgd, ids[0], w);
    } else {
      WalkOverMember(merged, lgd, ids[1..], w);
    }
  }

  lemma WalkMember(merged: seq<Loan>, lgd: seq<LgdResult>, w: WalkRow)
    requires ValidLoans(merged) && w in Walks(merged, lgd)
    ensures w.loan in merged && w.balance >= 0.0
    ensures w.collateral == MergeCollateral(lgd, w.loan.id)
  {
    hide WalksOver, MergeCollateral;
    WalkOverMember(merged, lgd, SortedIds(merged), w);
  }

  lemma WalksStaging(loans: seq<Loan>, lgd: seq<LgdResult>)
    requires ValidLoans(loans) && ValidLgd(lgd) && forall loan :: loan in loans ==> loan.staging.In?
    ensures ValidLoans(Merge(loans, lgd))
    ensures forall w :: w in Walks(Merge(loans, lgd), lgd) ==> w.loan.staging.In?
  {
    hide Walks;
    MergeValid(loans, lgd);
    var merged := Merge(loans, lgd);
    forall w | w in Walks(merged, lgd) ensures w.loan.staging.In? {
      WalkMember(merged, lgd, w);
      var i :| 0 <= i < |merged| && merged[i] == w.loan;
      assert loans[i] in loans;
    }
  }

  /** A Stage 3 row carries the whole hazard in period 1 and none in any other period. */
  lemma Stage3RowHazard(history: seq<Snapshot>, w: WalkRow)
    requires w.loan.staging == In(Stage3)
    ensures EclRowOf(history, w).marginalPd
         == if w.period == 1 && w.loan.segment in SegmentNames(Dedupe(history)) then 1.0 else 0.0
  {
    hide SegmentNames, MarginalPdAt, Proportions, SegmentCure;
    if HasPd(history, w) {
      Stage3Hazard(SegmentMatrix(Dedupe(history), w.loan.segment), w.period);
    }
  }
}
