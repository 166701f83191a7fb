/** validate_cross_files, and what a clean cross-file check guarantees to compute_ead. */
module CrossFileValidator {
  import opened Wrappers
  import opened Validators
  import opened MarginalPd
  import opened NextMonthJoin
  import opened PdEngine
  import opened Snapshots
  import opened Collateral
  import opened EadEngine
  import Text

  const EIR_TOLERANCE := 0.000001

  /** The columns the cross-file check reads from a row of any of the three files. */
  datatype FileRow = FileRow(loan: string, segment: Option<string>, eir: Option<real>)

  function LoanIds(rows: seq<FileRow>): set<string> { set r | r in rows && r.loan != "" :: r.loan }

  function Segments(rows: seq<FileRow>): set<string> {
    set r | r in rows && r.segment.Some? && r.segment.value != "" :: r.segment.value
  }

  /** Row k gives the loan a rate that parses. */
  predicate RateRow(rows: seq<FileRow>, k: int, loan: string) {
    0 <= k < |rows| && loan != "" && rows[k].loan == loan && rows[k].eir.Some?
  }

  /** Row k is the last to give the loan a rate that parses. */
  predicate LastRate(rows: seq<FileRow>, k: int, loan: string) {
    RateRow(rows, k, loan) && forall j :: k < j < |rows| ==> !RateRow(rows, j, loan)
  }

  /** The dict holds exactly the loans some row gives a rate, each with the rate of its last such row. */
  ghost predicate HoldsLastRates(mapping: map<string, real>, rows: seq<FileRow>) {
    && (forall k :: 0 <= k < |rows| && RateRow(rows, k, rows[k].loan) ==> rows[k].loan in mapping)
    && (forall loan :: loan in mapping ==> exists k :: LastRate(rows, k, loan) && mapping[loan] == rows[k].eir.value)
  }

  lemma LastRateSnoc(rows: seq<FileRow>, row: FileRow, k: int, loan: string)
    requires LastRate(rows, k, loan) && !(row.loan == loan && row.eir.Some?)
    ensures LastRate(rows + [row], k, loan) && (rows + [row])[k] == rows[k]
  {
    forall j | k < j < |rows| + 1 ensures !RateRow(rows + [row], j, loan) {
      if j < |rows| {
        assert (rows + [row])[j] == rows[j] && !RateRow(rows, j, loan);
      }
    }
  }

  lemma HoldsSnoc(mapping: map<string, real>, rows: seq<FileRow>, row: FileRow)
    requires HoldsLastRates(mapping, rows)
    ensures HoldsLastRates(if row.loan != "" && row.eir.Some? then mapping[row.loan := row.eir.value] else mapping, rows + [row])
  {
    var all := rows + [row];
    var next := if row.loan != "" && row.eir.Some? then mapping[row.loan := row.eir.value] else mapping;
    forall k | 0 <= k < |all| && RateRow(all, k, all[k].loan) ensures all[k].loan in next {
      assert k == |rows| || (all[k] == rows[k] && RateRow(rows, k, rows[k].loan));
    }
    forall loan | loan in next ensures exists k :: LastRate(all, k, loan) && next[loan] == all[k].eir.value {
      if row.loan == loan && row.eir.Some? && loan != "" {
        assert LastRate(all, |rows|, loan) && all[|rows|] == row;
      } else {
        var k :| LastRate(rows, k, loan) && mapping[loan] == rows[k].eir.value;
        LastRateSnoc(rows, row, k, loan);
      }
    }
  }

  method BuildEirByLoan(rows: seq<FileRow>) returns (mapping: map<string, real>)
    ensures HoldsLastRates(mapping, rows)
  {
    hide HoldsLastRates;
    mapping := map[];
    assert HoldsLastRates(mapping, rows[..0]) by { NothingHeld(); }
    for i := 0 to |rows|
      invariant HoldsLastRates(mapping, rows[..i])
    {
      HoldsSnoc(mapping, rows[..i], rows[i]);
      assert rows[..i + 1] == rows[..i] + [rows[i]];
      if rows[i].loan != "" && rows[i].eir.Some? {
        mapping := mapping[rows[i].loan := rows[i].eir.value];
      }
    }
    assert rows[..|rows|] == rows;
  }

  lemma NothingHeld()
    ensures HoldsLastRates(map[], [])
  {}

  /** A dict of last rates gives the rate of a loan's last row, and nothing to a loan without one. */
  lemma HeldRate(mapping: map<string, real>, rows: seq<FileRow>, k: int, loan: string)
    requires HoldsLastRates(mapping, rows) && LastRate(rows, k, loan)
    ensures loan in mapping && mapping[loan] == rows[k].eir.value
  {
    var j :| LastRate(rows, j, loan) && mapping[loan] == rows[j].eir.value;
    assert j == k;
  }

  function Ids(rows: seq<FileRow>): seq<string> {
    if rows == [] then [] else (if rows[0].loan != "" then [rows[0].loan] else []) + Ids(rows[1..])
  }

  predicate RatesDiffer(a: map<string, real>, b: map<string, real>, loan: string) {
    loan in a && loan in b && (a[loan] - b[loan] > EIR_TOLERANCE || b[loan] - a[loan] > EIR_TOLERANCE)
  }

  lemma {:induction false} IdsAreLoanIds(rows: seq<FileRow>)
    ensures forall id :: id in Ids(rows) <==> id in LoanIds(rows)
  {
    if rows != [] {
      IdsAreLoanIds(rows[1..]);
      assert rows == [rows[0]] + rows[1..];
    }
  }

  /** No loan's last rate in the LGD file differs from its last rate in the EAD file by more than the tolerance. */
  ghost predicate RatesAgree(lgd: seq<FileRow>, ead: seq<FileRow>) {
    forall loan, i, j :: LastRate(lgd, i, loan) && LastRate(ead, j, loan) ==>
      -0.000001 <= lgd[i].eir.value - ead[j].eir.value <= 0.000001
  }

  lemma HeldIsListed(mapping: map<string, real>, rows: seq<FileRow>, loan: string)
    requires HoldsLastRates(mapping, rows) && loan in mapping
    ensures loan in LoanIds(rows)
  {
    var k :| LastRate(rows, k, loan) && mapping[loan] == rows[k].eir.value;
    assert rows[k] in rows;
  }

  /** Comparing the two dicts on the common loans decides whether the rates agree. */
  lemma AgreeExactly(lgd: seq<FileRow>, ead: seq<FileRow>, lgdEir: map<string, real>, eadEir: map<string, real>)
    requires HoldsLastRates(lgdEir, lgd) && HoldsLastRates(eadEir, ead)
    ensures RatesAgree(lgd, ead)
       <==> forall loan :: loan in LoanIds(lgd) && loan in LoanIds(ead) ==> !RatesDiffer(lgdEir, eadEir, loan)
  {
    hide LoanIds;
    if RatesAgree(lgd, ead) {
      forall loan | loan in lgdEir && loan in eadEir ensures !RatesDiffer(lgdEir, eadEir, loan) {
        var i :| LastRate(lgd, i, loan) && lgdEir[loan] == lgd[i].eir.value;
        var j :| LastRate(ead, j, loan) && eadEir[loan] == ead[j].eir.value;
      }
    }
    if forall loan :: loan in LoanIds(lgd) && loan in LoanIds(ead) ==> !RatesDiffer(lgdEir, eadEir, loan) {
      forall loan, i, j | LastRate(lgd, i, loan) && LastRate(ead, j, loan)
        ensures -0.000001 <= lgd[i].eir.value - ead[j].eir.value <= 0.000001
      {
        HeldRate(lgdEir, lgd, i, loan);
        HeldRate(eadEir, ead, j, loan);
        HeldIsListed(lgdEir, lgd, loan);
        HeldIsListed(eadEir, ead, loan);
      }
    }
  }

  method FindMismatched(lgd: seq<FileRow>, ead: seq<FileRow>) returns (mismatched: seq<string>)
    ensures mismatched == [] <==> RatesAgree(lgd, ead)
  {
    hide HoldsLastRates, RatesDiffer, LoanIds, RatesAgree;
    var lgdEir := BuildEirByLoan(lgd);
    var eadEir := BuildEirByLoan(ead);
    AgreeExactly(lgd, ead, lgdEir, eadEir);
    var loans := Text.SortedDistinct(Ids(ead));
    Text.SortedDistinctSpec(Ids(ead));
    IdsAreLoanIds(ead);
    mismatched := [];
    for k := 0 to |loans|
      invariant mismatched == [] <==> forall j :: 0 <= j < k && loans[j] in LoanIds(lgd) ==> !RatesDiffer(lgdEir, eadEir, loans[j])
    {
      if loans[k] in LoanIds(lgd) && RatesDiffer(lgdEir, eadEir, loans[k]) {
        mismatched := mismatched + [loans[k]];
      }
    }
    if mismatched == [] {
      forall loan | loan in LoanIds(lgd) && loan in LoanIds(ead) ensures !RatesDiffer(lgdEir, eadEir, loan) {
        assert loan in loans;
      }
    } else {
      var j :| 0 <= j < |loans| && loans[j] in LoanIds(lgd) && RatesDiffer(lgdEir, eadEir, loans[j]);
      assert loans[j] in loans;
    }
  }

  /** Every Loan ID of the one file is on some row of the other. */
  predicate EveryLoanIn(rows: seq<FileRow>, others: seq<FileRow>) {
    forall i :: 0 <= i < |rows| && rows[i].loan != "" ==> exists j :: 0 <= j < |others| && others[j].loan == rows[i].loan
  }

  /** Every segment of the one file is on some row of the other. */
  predicate EverySegmentIn(rows: seq<FileRow>, others: seq<FileRow>) {
    forall i :: 0 <= i < |rows| && rows[i].segment.Some? && rows[i].segment.value != "" ==>
      exists j :: 0 <= j < |others| && others[j].segment == rows[i].segment
  }

  lemma LoanIdsMean(rows: seq<FileRow>, others: seq<FileRow>)
    ensures LoanIds(rows) <= LoanIds(others) <==> EveryLoanIn(rows, others)
  {
    if LoanIds(rows) <= LoanIds(others) {
      forall i | 0 <= i < |rows| && rows[i].loan != "" ensures exists j :: 0 <= j < |others| && others[j].loan == rows[i].loan {
        assert rows[i] in rows && rows[i].loan in LoanIds(rows);
        var r :| r in others && r.loan == rows[i].loan;
      }
    }
    if EveryLoanIn(rows, others) {
      forall id | id in LoanIds(rows) ensures id in LoanIds(others) {
        var r :| r in rows && r.loan == id && r.loan != "";
        var i :| 0 <= i < |rows| && rows[i] == r;
        var j :| 0 <= j < |others| && others[j].loan == rows[i].loan;
        assert others[j] in others;
      }
    }
  }

  lemma SegmentsMean(rows: seq<FileRow>, others: seq<FileRow>)
    ensures Segments(rows) <= Segments(others) <==> EverySegmentIn(rows, others)
  {
    if Segments(rows) <= Segments(others) {
      forall i | 0 <= i < |rows| && rows[i].segment.Some? && rows[i].segment.value != ""
        ensures exists j :: 0 <= j < |others| && others[j].segment == rows[i].segment
      {
        assert rows[i] in rows && rows[i].segment.value in Segments(rows);
        var r :| r in others && r.segment == rows[i].segment;
      }
    }
    if EverySegmentIn(rows, others) {
      forall name | name in Segments(rows) ensures name in Segments(others) {
        var r :| r in rows && r.segment == Some(name) && name != "";
        var i :| 0 <= i < |rows| && rows[i] == r;
        var j :| 0 <= j < |others| && others[j].segment == rows[i].segment;
        assert others[j] in others;
      }
    }
  }

  function If(condition: bool, issue: Issue): seq<Issue> { if condition then [issue] else [] }

  /** The at most four findings, in order. */
  function CrossIssues(noLgd: bool, noPd: bool, noSegment: bool, mismatch: bool): seq<Issue> {
    If(noLgd, Issue(Block, "EAD loan(s) missing from LGD file (EC-06)", CrossFile, ""))
    + If(noPd, Issue(Warn, "EAD loan(s) have no PD history", CrossFile, ""))
    + If(noSegment, Issue(Block, "No PD history for segment(s) (EC-08)", CrossFile, ""))
    + If(mismatch, Issue(Warn, "EIR mismatch between LGD and EAD", CrossFile, ""))
  }

  lemma CrossVerdict(noLgd: bool, noPd: bool, noSegment: bool, mismatch: bool)
    ensures |CrossIssues(noLgd, noPd, noSegment, mismatch)| <= 4
    ensures IsValid(CrossIssues(noLgd, noPd, noSegment, mismatch)) <==> !noLgd && !noSegment
    ensures AllBlock(CrossIssues(noLgd, noPd, noSegment, mismatch)) <==> !noPd && !mismatch
  {
    var issues := CrossIssues(noLgd, noPd, noSegment, mismatch);
    var n1 := if noLgd then 1 else 0;
    var n2 := n1 + if noPd then 1 else 0;
    var n3 := n2 + if noSegment then 1 else 0;
    assert noLgd ==> issues[0].level == Block;
    assert noPd ==> issues[n1].level == Warn;
    assert noSegment ==> issues[n2].level == Block;
    assert mismatch ==> issues[n3].level == Warn;
  }

  method AddIf(result: ValidationResult, condition: bool, issue: Issue)
    requires |result.issues| < MAX_ISSUES
    modifies result
    ensures result.issues == old(result.issues) + If(condition, issue)
  {
    if condition {
      result.Add(issue);
    }
  }

  /**
   * The cross-file check blocks exactly on EAD loans missing from LGD (EC-06) or EAD segments missing from PD (EC-08),
   * and warns exactly on loans without PD history or with differing rates; its four issues never reach the cap.
   */
  method ValidateCrossFiles(pd: seq<FileRow>, lgd: seq<FileRow>, ead: seq<FileRow>) returns (result: ValidationResult)
    ensures fresh(result) && |result.issues| <= 4
    ensures IsValid(result.issues) <==> EveryLoanIn(ead, lgd) && EverySegmentIn(ead, pd)
    ensures AllBlock(result.issues) <==> EveryLoanIn(ead, pd) && RatesAgree(lgd, ead)
  {
    hide LoanIds, Segments, RatesAgree, IsValid, AllBlock, EveryLoanIn, EverySegmentIn;
    LoanIdsMean(ead, lgd);
    LoanIdsMean(ead, pd);
    SegmentsMean(ead, pd);
    result := new ValidationResult();
    var noLgd, noPd, noSegment := !(LoanIds(ead) <= LoanIds(lgd)), !(LoanIds(ead) <= LoanIds(pd)), !(Segments(ead) <= Segments(pd));
    AddIf(result, noLgd, Issue(Block, "EAD loan(s) missing from LGD file (EC-06)", CrossFile, ""));
    AddIf(result, noPd, Issue(Warn, "EAD loan(s) have no PD history", CrossFile, ""));
    AddIf(result, noSegment, Issue(Block, "No PD history for segment(s) (EC-08)", CrossFile, ""));
    var mismatched := FindMismatched(lgd, ead);
    AddIf(result, mismatched != [], Issue(Warn, "EIR mismatch between LGD and EAD", CrossFile, ""));
    assert result.issues == CrossIssues(noLgd, noPd, noSegment, mismatched != []);
    CrossVerdict(noLgd, noPd, noSegment, mismatched != []);
  }

  // ----- What a clean cross-file check means for compute_ead -----

  /** The rows of several files, one after the other. */
  function Combined(files: seq<seq<Snapshot>>): seq<Snapshot> {
    if files == [] then [] else files[0] + Combined(files[1..])
  }

  /** The PD files compute_pd is given: all of them, or the first unless the run combines them (compute_tasks.py:424-426). */
  function UsedFiles(files: seq<seq<Snapshot>>, combine: bool): seq<seq<Snapshot>> {
    if !combine && |files| > 1 then files[..1] else files
  }

  function PdFile(history: seq<Snapshot>): seq<FileRow> {
    seq(|history|, i requires 0 <= i < |history| => FileRow(history[i].loan, history[i].segment, None))
  }

  function LgdFile(rows: seq<LgdRow>): seq<FileRow> {
    seq(|rows|, i requires 0 <= i < |rows| => FileRow(rows[i].loan, None, Some(rows[i].eir)))
  }

  function EadFile(loans: seq<Loan>): seq<FileRow> {
    seq(|loans|, i requires 0 <= i < |loans| => FileRow(loans[i].id, Some(loans[i].segment), Some(loans[i].eir)))
  }

  lemma {:induction false} LookupFinds(lgd: seq<LgdResult>, i: nat)
    requires i < |lgd|
    ensures LgdLookup(lgd, lgd[i].loan).Some?
  {
    if i > 0 {
      LookupFinds(lgd[1..], i - 1);
    }
  }

  /** Some row that deduplication keeps carries the segment. */
  ghost predicate Carries(history: seq<Snapshot>, segment: string) {
    exists i :: FirstOfKey(history, i) && history[i].segment == Some(segment)
  }

  /** compute_pd covers a segment exactly when the first row of some key carries it. */
  lemma SegmentCovered(history: seq<Snapshot>, segment: string)
    ensures segment in SegmentNames(Dedupe(history)) <==> Carries(history, segment)
  {
    hide Dedupe, HasKeyOf;
    NamedSegmentsMembers(Dedupe(history));
    Text.SortedDistinctSpec(NamedSegments(Dedupe(history)));
    if segment in NamedSegments(Dedupe(history)) {
      var r :| r in Dedupe(history) && r.segment == Some(segment);
      DedupeKeepsFirst(history, r);
    }
    if i :| FirstOfKey(history, i) && history[i].segment == Some(segment) {
      DedupeKeepsFirst(history, history[i]);
    }
  }

  lemma UniqueCarries(history: seq<Snapshot>, segment: string)
    requires UniqueKeys(history) && segment in Segments(PdFile(history))
    ensures Carries(history, segment)
  {
    var r :| r in PdFile(history) && r.segment == Some(segment);
    var i :| 0 <= i < |history| && PdFile(history)[i] == r;
    assert FirstOfKey(history, i);
  }

  lemma LgdServes(loans: seq<Loan>, rows: seq<LgdRow>, config: seq<CollateralType>, i: nat)
    requires ValidRate(rows) && i < |loans| && loans[i].id != "" && LoanIds(EadFile(loans)) <= LoanIds(LgdFile(rows))
    ensures LgdLookup(LgdTable(rows, config), loans[i].id).Some?
  {
    hide DiscountedSum, LgdTable;
    assert EadFile(loans)[i] in EadFile(loans);
    assert loans[i].id in LoanIds(LgdFile(rows));
    var r :| r in LgdFile(rows) && r.loan == loans[i].id;
    var k :| 0 <= k < |rows| && LgdFile(rows)[k] == r;
    LgdTableHolds(rows, config);
    var x := LgdResult(rows[k].loan, rows[k].eir, DiscountedSum(rows, config, rows[k]));
    assert rows[k] in rows && x in LgdTable(rows, config);
    var n :| 0 <= n < |LgdTable(rows, config)| && LgdTable(rows, config)[n] == x;
    LookupFinds(LgdTable(rows, config), n);
  }

  /** Some segment in use has every period outside 1..299. */
  ghost predicate SegmentBeyondHorizon(walks: seq<WalkRow>) {
    exists w :: w in walks && forall v :: v in walks && v.loan.segment == w.loan.segment ==> !(1 <= v.period <= MAX_PD_MONTH)
  }

  /** Some segment in use is carried by no row that deduplication of the used history keeps. */
  ghost predicate SegmentLost(used: seq<Snapshot>, walks: seq<WalkRow>) {
    exists w :: w in walks && !Carries(used, w.loan.segment)
  }

  lemma UnservedExactly(used: seq<Snapshot>, walks: seq<WalkRow>)
    ensures UnservedSegment(used, walks) <==> SegmentBeyondHorizon(walks) || SegmentLost(used, walks)
  {
    hide SegmentNames, Dedupe, Carries;
    forall w | w in walks ensures w.loan.segment in SegmentNames(Dedupe(used)) <==> Carries(used, w.loan.segment) {
      SegmentCovered(used, w.loan.segment);
    }
  }

  lemma NothingLost(loans: seq<Loan>, used: seq<Snapshot>, lgd: seq<LgdResult>)
    requires ValidLoans(loans) && UniqueKeys(used) && ValidLgd(lgd) && ValidLoans(Merge(loans, lgd))
    requires forall loan :: loan in loans ==> loan.segment != ""
    requires Segments(EadFile(loans)) <= Segments(PdFile(used))
    ensures !SegmentLost(used, Walks(Merge(loans, lgd), lgd))
  {
    hide Walks, UniqueKeys, Carries, PdFile;
    forall w | w in Walks(Merge(loans, lgd), lgd) ensures Carries(used, w.loan.segment) {
      WalkMember(Merge(loans, lgd), lgd, w);
      var i :| 0 <= i < |loans| && Merge(loans, lgd)[i] == w.loan;
      assert EadFile(loans)[i] in EadFile(loans);
      assert loans[i].segment in Segments(EadFile(loans));
      UniqueCarries(used, loans[i].segment);
    }
  }

  /**
   * With clean cross-file checks every EAD loan has its LGD result, and EC-08 is raised exactly when a segment in use
   * has every period outside the PD horizon or is carried by no row that compute_pd keeps of the files it is given;
   * the latter cannot happen where all files are used and no (Loan ID, date) key is repeated.
   */
  lemma CleanFilesServeEad(loans: seq<Loan>, files: seq<seq<Snapshot>>, combine: bool, rows: seq<LgdRow>, config: seq<CollateralType>)
    requires ValidLoans(loans) && ValidRate(rows) && ValidLgd(LgdTable(rows, config))
    requires forall loan :: loan in loans ==> loan.staging.In?
    requires LoanIds(EadFile(loans)) <= LoanIds(LgdFile(rows)) && Segments(EadFile(loans)) <= Segments(PdFile(Combined(files)))
    ensures forall i :: 0 <= i < |loans| && loans[i].id != "" ==> LgdLookup(LgdTable(rows, config), loans[i].id).Some?
    ensures ValidLoans(Merge(loans, LgdTable(rows, config)))
    ensures var used, lgd := Combined(UsedFiles(files, combine)), LgdTable(rows, config);
            var walks := Walks(Merge(loans, lgd), lgd);
            && (EadResult(loans, PdTable(used), lgd).Failure? <==> SegmentBeyondHorizon(walks) || SegmentLost(used, walks))
            && ((combine || |files| <= 1) && UniqueKeys(used) && (forall loan :: loan in loans ==> loan.segment != "")
                ==> !SegmentLost(used, walks))
  {
    hide LgdTable, Walks, PdTable, EadResult, UniqueKeys, LoanIds, Segments, Merge, ValidLgd, EadFile, LgdFile, PdFile, Combined,
         SegmentLost, SegmentBeyondHorizon, UnservedSegment;
    var used, lgd := Combined(UsedFiles(files, combine)), LgdTable(rows, config);
    forall i | 0 <= i < |loans| && loans[i].id != "" ensures LgdLookup(lgd, loans[i].id).Some? {
      LgdServes(loans, rows, config, i);
    }
    Ec08Exact(loans, used, lgd);
    UnservedExactly(used, Walks(Merge(loans, lgd), lgd));
    if (combine || |files| <= 1) && UniqueKeys(used) && forall loan :: loan in loans ==> loan.segment != "" {
      NothingLost(loans, used, lgd);
    }
  }

  /**
   * A clean check can still lose a segment: in a second PD file of a run that does not combine them, or on a row whose
   * key an earlier row already has.
   */
  lemma CheckedSegmentLost(a: Snapshot, b: Snapshot, segment: string)
    requires segment != "" && b.segment == Some(segment) && a.segment != Some(segment)
    ensures segment in Segments(PdFile(Combined([[a], [b]])))
    ensures !Carries(Combined(UsedFiles([[a], [b]], false)), segment)
    ensures NextMonthJoin.SameKey(a, b) ==> !Carries(Combined(UsedFiles([[a], [b]], true)), segment)
  {
    var files := [[a], [b]];
    assert files[1..] == [[b]] && [[b]][1..] == [];
    assert Combined([[b]]) == [b] + Combined([]) == [b];
    assert Combined(files) == [a] + [b] == [a, b];
    assert PdFile([a, b])[1] in PdFile([a, b]);
    assert UsedFiles(files, false) == [[a]] && [[a]][1..] == [];
    assert Combined([[a]]) == [a] + Combined([]) == [a];
    assert [a, b][..1][0] == a;
  }
}
