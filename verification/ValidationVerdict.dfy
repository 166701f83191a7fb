/** What a clean validation means: the verdict survives the cap and says exactly what the rows satisfy. */
module ValidationVerdict {
  import opened Wrappers
  import opened Validators
  import opened UploadValidators
  import Text

  // ----- Every issue of the three uncapped lists blocks -----

  lemma {:induction false} RowIssuesBlock(n: nat, mask: nat -> bool, make: nat -> Issue)
    requires forall i: nat :: make(i).level == Block
    ensures AllBlock(RowIssues(n, mask, make))
    ensures RowIssues(n, mask, make) == [] <==> forall i: nat :: i < n ==> !mask(i)
  {
    if n != 0 {
      RowIssuesBlock(n - 1, mask, make);
    }
  }

  lemma {:induction false} MissingBlock(sheet: Sheet, required: seq<string>)
    ensures AllBlock(MissingIssues(sheet, required))
    ensures MissingIssues(sheet, required) == [] <==> forall c :: c in required ==> c in sheet.columns
  {
    if required != [] {
      var front := required[..|required| - 1];
      MissingBlock(sheet, front);
      assert required == front + [required[|required| - 1]];
    }
  }

  lemma {:induction false} GroupsBlock(values: seq<string>, groups: seq<string>, column: string, title: string)
    ensures AllBlock(GroupIssues(values, groups, column, title))
    ensures GroupIssues(values, groups, column, title) == [] <==> groups == []
  {
    if groups != [] {
      GroupsBlock(values, groups[..|groups| - 1], column, title);
    }
  }

  lemma {:induction false} MaskedEmpty(sheet: Sheet, column: string, mask: nat -> bool, n: nat)
    requires n <= |sheet.rows|
    ensures MaskedValues(sheet, column, mask, n) == [] <==> forall i: nat :: i < n ==> !mask(i)
  {
    if n != 0 {
      MaskedEmpty(sheet, column, mask, n - 1);
    }
  }

  // ----- What each check accepts -----

  predicate InSet(sheet: Sheet, column: string, allowed: set<string>) {
    column in sheet.columns ==>
      forall i: nat :: i < |sheet.rows| ==> !sheet.At(i, column).present || sheet.At(i, column).text in allowed
  }

  predicate InRange(sheet: Sheet, column: string, lo: real, hi: Option<real>) {
    column in sheet.columns ==>
      forall i: nat :: i < |sheet.rows| ==>
        var x := sheet.At(i, column).number; x.Some? && lo <= x.value && (hi.Some? ==> x.value <= hi.value)
  }

  predicate NonEmpty(sheet: Sheet, column: string) {
    column in sheet.columns ==>
      forall i: nat :: i < |sheet.rows| ==> sheet.At(i, column).present && sheet.At(i, column).text != ""
  }

  predicate Dated(sheet: Sheet, column: string) {
    column in sheet.columns ==>
      forall i: nat :: i < |sheet.rows| ==> sheet.At(i, column).present ==> sheet.At(i, column).date.Some?
  }

  predicate Unique(sheet: Sheet, columns: seq<string>) {
    (forall c :: c in columns ==> c in sheet.columns) ==>
      forall i: nat, j: nat :: i < |sheet.rows| && j < |sheet.rows| && i != j ==> !SameKey(sheet, columns, i, j)
  }

  predicate Ordered(sheet: Sheet, early: string, late: string) {
    early in sheet.columns && late in sheet.columns ==>
      forall i: nat :: i < |sheet.rows| ==>
        sheet.At(i, early).date.Some? && sheet.At(i, late).date.Some? ==> sheet.At(i, early).date.value <= sheet.At(i, late).date.value
  }

  predicate Frequencies(sheet: Sheet, allowed: set<string>) {
    "Repayment Frequency" in sheet.columns ==>
      forall i: nat :: i < |sheet.rows| ==>
        !sheet.At(i, "Repayment Frequency").present || Upper(sheet.At(i, "Repayment Frequency").text) in allowed
  }

  predicate Clean(issues: seq<Issue>, accepted: bool) { AllBlock(issues) && (issues == [] <==> accepted) }

  lemma EnumClean(sheet: Sheet, column: string, allowed: set<string>, title: string)
    ensures Clean(EnumIssues(sheet, column, allowed, title), InSet(sheet, column, allowed))
  {
    var mask := EnumMask(sheet, column, allowed);
    RowIssuesBlock(|sheet.rows|, mask, MakeBlock(sheet, column, title));
    assert forall i: nat {:trigger sheet.At(i, column)} :: i < |sheet.rows| ==>
        (mask(i) <==> sheet.At(i, column).present && sheet.At(i, column).text !in allowed);
  }

  lemma RangeClean(sheet: Sheet, column: string, lo: real, hi: Option<real>, title: string)
    ensures Clean(RangeIssues(sheet, column, lo, hi, title), InRange(sheet, column, lo, hi))
  {
    var mask := RangeMask(sheet, column, lo, hi);
    RowIssuesBlock(|sheet.rows|, mask, MakeBlock(sheet, column, title));
    assert forall i: nat {:trigger sheet.At(i, column)} :: i < |sheet.rows| ==>
        var x := sheet.At(i, column).number;
        (mask(i) <==> x.None? || x.value < lo || (hi.Some? && x.value > hi.value));
  }

  lemma EmptyClean(sheet: Sheet, column: string, title: string)
    ensures Clean(EmptyIssues(sheet, column, title), NonEmpty(sheet, column))
  {
    var mask := EmptyMask(sheet, column);
    RowIssuesBlock(|sheet.rows|, mask, MakeBlock(sheet, column, title));
    assert forall i: nat {:trigger sheet.At(i, column)} :: i < |sheet.rows| ==>
        (mask(i) <==> !sheet.At(i, column).present || sheet.At(i, column).text == "");
  }

  lemma DateClean(sheet: Sheet, column: string, title: string)
    ensures Clean(DateIssues(sheet, column, title), Dated(sheet, column))
  {
    var mask := DateMask(sheet, column);
    RowIssuesBlock(|sheet.rows|, mask, MakeBlock(sheet, column, title));
    assert forall i: nat {:trigger sheet.At(i, column)} :: i < |sheet.rows| ==>
        (mask(i) <==> sheet.At(i, column).present && sheet.At(i, column).date.None?);
  }

  lemma DuplicateClean(sheet: Sheet, columns: seq<string>, title: string)
    requires columns != []
    ensures Clean(DuplicateIssues(sheet, columns, title), Unique(sheet, columns))
  {
    hide SameKey;
    var mask := DuplicateMask(sheet, columns);
    RowIssuesBlock(|sheet.rows|, mask, MakeBlock(sheet, columns[0], title));
    if forall i: nat :: i < |sheet.rows| ==> !mask(i) {
      forall i: nat, j: nat | i < |sheet.rows| && j < |sheet.rows| && i != j ensures !SameKey(sheet, columns, i, j) {
        assert !mask(i);
      }
    } else {
      var i: nat :| i < |sheet.rows| && mask(i);
    }
  }

  lemma OrderClean(sheet: Sheet, late: string, early: string, reported: string, title: string)
    ensures Clean(OrderIssues(sheet, late, early, reported, title), Ordered(sheet, late, early))
  {
    var mask := OrderMask(sheet, late, early);
    RowIssuesBlock(|sheet.rows|, mask, MakeBlock(sheet, reported, title));
    assert forall i: nat {:trigger sheet.At(i, late)} :: i < |sheet.rows| ==>
        (mask(i) <==> sheet.At(i, late).date.Some? && sheet.At(i, early).date.Some?
                      && sheet.At(i, late).date.value > sheet.At(i, early).date.value);
  }

  lemma FrequencyClean(sheet: Sheet, allowed: set<string>)
    ensures Clean(FrequencyIssues(sheet, allowed), Frequencies(sheet, allowed))
  {
    hide Upper;
    var mask := FrequencyMask(sheet, allowed);
    RowIssuesBlock(|sheet.rows|, mask, MakeBlock(sheet, "Repayment Frequency", UNSUPPORTED_FREQUENCY));
    assert forall i: nat {:trigger sheet.At(i, "Repayment Frequency")} :: i < |sheet.rows| ==>
        (mask(i) <==> sheet.At(i, "Repayment Frequency").present
                      && Upper(sheet.At(i, "Repayment Frequency").text) !in allowed);
  }

  lemma SegmentClean(sheet: Sheet, segments: set<string>)
    ensures Clean(SegmentIssues(sheet, segments), segments == {} || InSet(sheet, "SEGMENT", segments))
  {
    if segments != {} && "SEGMENT" in sheet.columns {
      var mask := EnumMask(sheet, "SEGMENT", segments);
      var values := MaskedValues(sheet, "SEGMENT", mask, |sheet.rows|);
      MaskedEmpty(sheet, "SEGMENT", mask, |sheet.rows|);
      assert forall i: nat {:trigger sheet.At(i, "SEGMENT")} :: i < |sheet.rows| ==>
          (mask(i) <==> sheet.At(i, "SEGMENT").present && sheet.At(i, "SEGMENT").text !in segments);
      GroupsBlock(values, Text.SortedDistinct(values), "SEGMENT", "SEGMENT is not configured for this tenant");
      SortedEmpty(values);
    }
  }

  lemma SortedEmpty(values: seq<string>)
    ensures Text.SortedDistinct(values) == [] <==> values == []
  {
    Text.SortedDistinctSpec(values);
    if values != [] {
      assert values[0] in values;
    }
  }

  lemma ExtraClean(sheet: Sheet, known: set<string>)
    ensures Clean(ExtraIssues(sheet, known), forall c :: c in sheet.columns ==> c in known)
  {
    RowIssuesBlock(|sheet.columns|, ExtraMask(sheet, known), MakeExtra(sheet));
    if forall i: nat :: i < |sheet.columns| ==> !ExtraMask(sheet, known)(i) {
      forall c | c in sheet.columns ensures c in known {
        var i: nat :| i < |sheet.columns| && sheet.columns[i] == c;
        assert !ExtraMask(sheet, known)(i);
      }
    }
  }

  lemma {:induction false} CollateralClean(sheet: Sheet, configured: set<string>, n: nat)
    requires n <= |sheet.columns|
    ensures Clean(CollateralIssues(sheet, configured, n),
                  forall i :: 0 <= i < n && sheet.columns[i] in configured ==> InRange(sheet, sheet.columns[i], 0.0, None))
  {
    hide InRange, RangeIssues;
    if n != 0 {
      CollateralClean(sheet, configured, n - 1);
      RangeClean(sheet, sheet.columns[n - 1], 0.0, None, "Collateral must be non-negative");
    }
  }

  // ----- The verdicts -----

  /** Missing columns, then the field checks once the aliased column resolves. */
  lemma VerdictOf(missing: seq<Issue>, fields: seq<Issue>, present: bool, resolved: bool, fieldsOk: bool)
    requires Clean(missing, present) && (resolved ==> Clean(fields, fieldsOk)) && (!resolved ==> fields == [] && !present)
    ensures IsValid(Cap(missing + fields)) <==> resolved && present && fieldsOk
    ensures IsValid(missing + fields) <==> resolved && present && fieldsOk
  {
    CapKeepsVerdict(missing + fields);
    assert AllBlock(missing + fields);
    assert missing + fields == [] <==> missing == [] && fields == [];
  }

  lemma PdFieldsClean(sheet: Sheet, reporting: string, segments: set<string>)
    ensures Clean(PdFieldIssues(sheet, reporting, segments),
                  && NonEmpty(sheet, "Loan ID") && NonEmpty(sheet, "SEGMENT") && Dated(sheet, reporting)
                  && InSet(sheet, "Staging", STAGING_VALUES) && InRange(sheet, "Loan Amount", 0.0, None)
                  && (segments == {} || InSet(sheet, "SEGMENT", segments))
                  && Unique(sheet, ["Loan ID", reporting]))
  {
    hide EmptyIssues, DateIssues, EnumIssues, RangeIssues, SegmentIssues, DuplicateIssues,
         NonEmpty, Dated, InSet, InRange, Unique;
    EmptyClean(sheet, "Loan ID", "Loan ID is empty");
    EmptyClean(sheet, "SEGMENT", "SEGMENT is empty");
    DateClean(sheet, reporting, "Reporting Month is not a valid date");
    EnumClean(sheet, "Staging", STAGING_VALUES, "Invalid Staging value");
    RangeClean(sheet, "Loan Amount", 0.0, None, "Loan Amount must be non-negative");
    SegmentClean(sheet, segments);
    DuplicateClean(sheet, ["Loan ID", reporting], "Duplicate Loan ID and Reporting Month (EC-10)");
  }

  lemma LgdFieldsClean(sheet: Sheet, eir: string, configured: set<string>)
    ensures Clean(LgdFieldIssues(sheet, eir, configured),
                  && (forall c :: c in sheet.columns ==> c in LGD_KNOWN + configured)
                  && NonEmpty(sheet, "Customer ID") && NonEmpty(sheet, "Loan ID") && Unique(sheet, ["Loan ID"])
                  && InRange(sheet, "Outstanding Amount", 0.0, None) && InRange(sheet, eir, 0.0, Some(1.0))
                  && forall i :: 0 <= i < |sheet.columns| && sheet.columns[i] in configured ==> InRange(sheet, sheet.columns[i], 0.0, None))
  {
    hide EmptyIssues, ExtraIssues, RangeIssues, CollateralIssues, DuplicateIssues, NonEmpty, InRange, Unique;
    ExtraClean(sheet, LGD_KNOWN + configured);
    EmptyClean(sheet, "Customer ID", "Customer ID is empty");
    EmptyClean(sheet, "Loan ID", "Loan ID is empty");
    DuplicateClean(sheet, ["Loan ID"], "Duplicate Loan ID");
    RangeClean(sheet, "Outstanding Amount", 0.0, None, "Outstanding Amount must be non-negative");
    RangeClean(sheet, eir, 0.0, Some(1.0), "EIR must be between 0 and 1 (EC-05)");
    CollateralClean(sheet, configured, |sheet.columns|);
  }

  /** When no alias is a column, the default name is reported missing. */
  lemma UnresolvedMissing(sheet: Sheet, names: seq<string>, required: seq<string>)
    requires names != [] && Resolve(sheet, names).None? && names[0] in required
    ensures !(forall c :: c in required ==> c in sheet.columns)
  {
    ResolveNone(sheet, names);
    assert names[0] in names;
  }

  /** Exactly the PD sheets that validate_pd passes. */
  ghost predicate PdAccepted(sheet: Sheet, segments: set<string>) {
    var reporting := Resolve(sheet, ["Reporting Month", "Reporting Month (\"As At\")", "As At"]);
    && reporting.Some?
    && (forall c :: c in ["Loan ID", "Staging", "Loan Amount", "SEGMENT", reporting.value] ==> c in sheet.columns)
    && NonEmpty(sheet, "Loan ID") && NonEmpty(sheet, "SEGMENT") && Dated(sheet, reporting.value)
    && InSet(sheet, "Staging", {"Stage 1", "Stage 2", "Stage 3"}) && InRange(sheet, "Loan Amount", 0.0, None)
    && (segments == {} || InSet(sheet, "SEGMENT", segments))
    && Unique(sheet, ["Loan ID", reporting.value])
  }

  lemma {:induction false} ResolveNone(sheet: Sheet, names: seq<string>)
    ensures Resolve(sheet, names).None? <==> forall c :: c in names ==> c !in sheet.columns
  {
    if names != [] {
      ResolveNone(sheet, names[1..]);
      assert names == [names[0]] + names[1..];
    }
  }

  /** A PD upload is valid after the cap exactly when it is accepted, so the cap never changes the verdict. */
  lemma PdVerdict(sheet: Sheet, segments: set<string>)
    ensures IsValid(Cap(PdIssues(sheet, segments))) <==> PdAccepted(sheet, segments)
    ensures IsValid(PdIssues(sheet, segments)) <==> PdAccepted(sheet, segments)
  {
    hide MissingIssues, PdFieldIssues, Cap, Resolve, NonEmpty, Dated, InSet, InRange, Unique;
    var reporting := Resolve(sheet, REPORTING_ALIASES);
    var missing := MissingIssues(sheet, PdRequired(reporting));
    MissingBlock(sheet, PdRequired(reporting));
    var present := forall c :: c in PdRequired(reporting) ==> c in sheet.columns;
    if reporting.None? {
      assert PdRequired(reporting)[4] == REPORTING_ALIASES[0];
      UnresolvedMissing(sheet, REPORTING_ALIASES, PdRequired(reporting));
      VerdictOf(missing, [], present, false, false);
    } else {
      PdFieldsClean(sheet, reporting.value, segments);
      var fields := PdFieldIssues(sheet, reporting.value, segments);
      VerdictOf(missing, fields, present, true, fields == []);
    }
  }

  /** Exactly the LGD sheets that validate_lgd passes. */
  ghost predicate LgdAccepted(sheet: Sheet, configured: set<string>) {
    var eir := Resolve(sheet, ["Effective Interest Rate (EIR)", "Effective Interest Rate", "EIR"]);
    && eir.Some?
    && (forall c :: c in ["Customer ID", "Loan ID", "Outstanding Amount", eir.value] ==> c in sheet.columns)
    && (forall c :: c in sheet.columns ==>
          c in configured || c in ["Customer ID", "Loan ID", "Outstanding Amount", "Effective Interest Rate (EIR)", "Effective Interest Rate", "EIR"])
    && NonEmpty(sheet, "Customer ID") && NonEmpty(sheet, "Loan ID") && Unique(sheet, ["Loan ID"])
    && InRange(sheet, "Outstanding Amount", 0.0, None) && InRange(sheet, eir.value, 0.0, Some(1.0))
    && forall i :: 0 <= i < |sheet.columns| && sheet.columns[i] in configured ==> InRange(sheet, sheet.columns[i], 0.0, None)
  }

  lemma LgdVerdict(sheet: Sheet, configured: set<string>)
    ensures IsValid(Cap(LgdIssues(sheet, configured))) <==> LgdAccepted(sheet, configured)
    ensures IsValid(LgdIssues(sheet, configured)) <==> LgdAccepted(sheet, configured)
  {
    hide MissingIssues, LgdFieldIssues, Cap, Resolve, NonEmpty, InRange, Unique;
    var eir := Resolve(sheet, LGD_EIR_ALIASES);
    var missing := MissingIssues(sheet, LgdRequired(eir));
    MissingBlock(sheet, LgdRequired(eir));
    var present := forall c :: c in LgdRequired(eir) ==> c in sheet.columns;
    if eir.None? {
      assert LgdRequired(eir)[3] == LGD_EIR_ALIASES[0];
      UnresolvedMissing(sheet, LGD_EIR_ALIASES, LgdRequired(eir));
      VerdictOf(missing, [], present, false, false);
    } else {
      LgdFieldsClean(sheet, eir.value, configured);
      var fields := LgdFieldIssues(sheet, eir.value, configured);
      VerdictOf(missing, fields, present, true, fields == []);
    }
  }

  /** Exactly the EAD sheets that validate_ead passes, EC-03, EC-04, EC-05 and EC-09 included. */
  ghost predicate EadAccepted(sheet: Sheet, segments: set<string>, frequencies: set<string>) {
    var staging := Resolve(sheet, ["Staging", "Staging (Stage)"]);
    var eir := Resolve(sheet, ["Effective Interest Rate", "Effective Interest Rate (EIR)", "EIR"]);
    && staging.Some? && eir.Some?
    && (forall c :: c in ["Loan ID", "Customer ID", "SEGMENT", "Outstanding Amount", "Repayment Frequency"] ==> c in sheet.columns)
    && (forall c :: c in ["Reporting Date", "Maturity Date", "Adjusted Maturity Date", "First Payment Date"] ==> c in sheet.columns)
    && staging.value in sheet.columns && eir.value in sheet.columns
    && NonEmpty(sheet, "Loan ID") && Unique(sheet, ["Loan ID"])
    && Dated(sheet, "Reporting Date") && Dated(sheet, "Maturity Date")
    && Dated(sheet, "First Payment Date") && Dated(sheet, "Adjusted Maturity Date")
    && InSet(sheet, staging.value, {"Stage 1", "Stage 2", "Stage 3"})
    && InRange(sheet, "Outstanding Amount", 0.0, None) && InRange(sheet, eir.value, 0.0, Some(1.0))
    && (segments == {} || InSet(sheet, "SEGMENT", segments)) && Frequencies(sheet, frequencies)
    && Ordered(sheet, "Reporting Date", "Maturity Date") && Ordered(sheet, "First Payment Date", "Reporting Date")
    && Ordered(sheet, "First Payment Date", "Adjusted Maturity Date")
  }

  lemma EadFieldsClean(sheet: Sheet, staging: string, eir: string, segments: set<string>, frequencies: set<string>)
    ensures Clean(EadFieldIssues(sheet, staging, eir, segments, frequencies),
                  && NonEmpty(sheet, "Loan ID") && Unique(sheet, ["Loan ID"])
                  && Dated(sheet, "Reporting Date") && Dated(sheet, "Maturity Date")
                  && Dated(sheet, "First Payment Date") && Dated(sheet, "Adjusted Maturity Date")
                  && InSet(sheet, staging, STAGING_VALUES)
                  && InRange(sheet, "Outstanding Amount", 0.0, None) && InRange(sheet, eir, 0.0, Some(1.0))
                  && (segments == {} || InSet(sheet, "SEGMENT", segments)) && Frequencies(sheet, frequencies)
                  && Ordered(sheet, "Reporting Date", "Maturity Date") && Ordered(sheet, "First Payment Date", "Reporting Date")
                  && Ordered(sheet, "First Payment Date", "Adjusted Maturity Date"))
  {
    hide EmptyIssues, DateIssues, EnumIssues, RangeIssues, SegmentIssues, DuplicateIssues, FrequencyIssues, OrderIssues,
         NonEmpty, Dated, InSet, InRange, Unique, Frequencies, Ordered;
    EmptyClean(sheet, "Loan ID", "Loan ID is empty");
    DuplicateClean(sheet, ["Loan ID"], "Duplicate Loan ID");
    DateClean(sheet, "Reporting Date", "Reporting Date is not a valid date");
    DateClean(sheet, "Maturity Date", "Maturity Date is not a valid date");
    DateClean(sheet, "First Payment Date", "First Payment Date is not a valid date");
    DateClean(sheet, "Adjusted Maturity Date", "Adjusted Maturity Date is not a valid date");
    EnumClean(sheet, staging, STAGING_VALUES, "Invalid Staging value");
    RangeClean(sheet, "Outstanding Amount", 0.0, None, "Outstanding Amount must be non-negative");
    RangeClean(sheet, eir, 0.0, Some(1.0), "EIR must be between 0 and 1 (EC-05)");
    SegmentClean(sheet, segments);
    FrequencyClean(sheet, frequencies);
    OrderClean(sheet, "Reporting Date", "Maturity Date", "Maturity Date", "Maturity Date is before Reporting Date (EC-03)");
    OrderClean(sheet, "First Payment Date", "Reporting Date", "First Payment Date", "First Payment Date is after Reporting Date (EC-04)");
    OrderClean(sheet, "First Payment Date", "Adjusted Maturity Date", "Adjusted Maturity Date",
               "Adjusted Maturity Date is before First Payment Date");
  }

  lemma EadVerdict(sheet: Sheet, segments: set<string>, frequencies: set<string>)
    ensures IsValid(Cap(EadIssues(sheet, segments, frequencies))) <==> EadAccepted(sheet, segments, frequencies)
    ensures IsValid(EadIssues(sheet, segments, frequencies)) <==> EadAccepted(sheet, segments, frequencies)
  {
    hide MissingIssues, EadFieldIssues, Cap, Resolve, NonEmpty, Dated, InSet, InRange, Unique, Frequencies, Ordered;
    var staging, eir := Resolve(sheet, STAGING_ALIASES), Resolve(sheet, EAD_EIR_ALIASES);
    var missing := MissingIssues(sheet, EadRequired(staging, eir));
    MissingBlock(sheet, EadRequired(staging, eir));
    var present := forall c :: c in EadRequired(staging, eir) ==> c in sheet.columns;
    if staging.None? {
      assert EadRequired(staging, eir)[9] == STAGING_ALIASES[0];
      UnresolvedMissing(sheet, STAGING_ALIASES, EadRequired(staging, eir));
      VerdictOf(missing, [], present, false, false);
    } else if eir.None? {
      assert EadRequired(staging, eir)[10] == EAD_EIR_ALIASES[0];
      UnresolvedMissing(sheet, EAD_EIR_ALIASES, EadRequired(staging, eir));
      VerdictOf(missing, [], present, false, false);
    } else {
      EadFieldsClean(sheet, staging.value, eir.value, segments, frequencies);
      var fields := EadFieldIssues(sheet, staging.value, eir.value, segments, frequencies);
      VerdictOf(missing, fields, present, true, fields == []);
    }
  }
}
