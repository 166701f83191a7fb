/** validate_pd, validate_lgd and validate_ead: sequenced checks on one capped result. */
module UploadValidators {
  import opened Wrappers
  import opened Validators

  const STAGING_VALUES := {"Stage 1", "Stage 2", "Stage 3"}
  const REPORTING_ALIASES := ["Reporting Month", "Reporting Month (\"As At\")", "As At"]
  const LGD_EIR_ALIASES := ["Effective Interest Rate (EIR)", "Effective Interest Rate", "EIR"]
  const EAD_EIR_ALIASES := ["Effective Interest Rate", "Effective Interest Rate (EIR)", "EIR"]
  const STAGING_ALIASES := ["Staging", "Staging (Stage)"]

  /** The first of the names that is a column. */
  function Resolve(sheet: Sheet, names: seq<string>): Option<string> {
    if names == [] then None
    else if names[0] in sheet.columns then Some(names[0])
    else Resolve(sheet, names[1..])
  }

  function OrElse(name: Option<string>, default: string): string { if name.Some? then name.value else default }

  function SegmentIssues(sheet: Sheet, segments: set<string>): seq<Issue> {
    if segments == {} then [] else GroupedIssues(sheet, "SEGMENT", segments, "SEGMENT is not configured for this tenant")
  }

  // ----- validate_pd -----

  function PdRequired(reporting: Option<string>): seq<string> {
    ["Loan ID", "Staging", "Loan Amount", "SEGMENT", OrElse(reporting, "Reporting Month")]
  }

  function PdFieldIssues(sheet: Sheet, reporting: string, segments: set<string>): seq<Issue> {
    EmptyIssues(sheet, "Loan ID", "Loan ID is empty")
    + EmptyIssues(sheet, "SEGMENT", "SEGMENT is empty")
    + DateIssues(sheet, reporting, "Reporting Month is not a valid date")
    + EnumIssues(sheet, "Staging", STAGING_VALUES, "Invalid Staging value")
    + RangeIssues(sheet, "Loan Amount", 0.0, None, "Loan Amount must be non-negative")
    + SegmentIssues(sheet, segments)
    + DuplicateIssues(sheet, ["Loan ID", reporting], "Duplicate Loan ID and Reporting Month (EC-10)")
  }

  /** Every PD issue in the order the checks run, with no cap. */
  function PdIssues(sheet: Sheet, segments: set<string>): seq<Issue> {
    var reporting := Resolve(sheet, REPORTING_ALIASES);
    MissingIssues(sheet, PdRequired(reporting))
    + (if reporting.None? then [] else PdFieldIssues(sheet, reporting.value, segments))
  }

  method CheckSegments(result: ValidationResult, sheet: Sheet, segments: set<string>)
    requires |result.issues| <= MAX_ISSUES
    modifies result
    ensures |result.issues| <= MAX_ISSUES && result.issues == Cap(old(result.issues) + SegmentIssues(sheet, segments))
  {
    if segments != {} {
      result.CheckEnumValuesGrouped(sheet, "SEGMENT", segments, "SEGMENT is not configured for this tenant");
    } else {
      Unchanged(result.issues, []);
    }
  }

  method CheckPdFields(result: ValidationResult, sheet: Sheet, reporting: string, segments: set<string>)
    requires |result.issues| <= MAX_ISSUES
    modifies result
    ensures |result.issues| <= MAX_ISSUES && result.issues == Cap(old(result.issues) + PdFieldIssues(sheet, reporting, segments))
  {
    hide Cap, EmptyIssues, DateIssues, EnumIssues, RangeIssues, SegmentIssues, DuplicateIssues;
    ghost var start := result.issues;
    AlreadyCapped(start);
    ghost var sofar := Append(result.issues, start, EmptyIssues(sheet, "Loan ID", "Loan ID is empty"));
    result.CheckNonEmptyStrings(sheet, "Loan ID", "Loan ID is empty");
    sofar := Append(result.issues, sofar, EmptyIssues(sheet, "SEGMENT", "SEGMENT is empty"));
    result.CheckNonEmptyStrings(sheet, "SEGMENT", "SEGMENT is empty");
    sofar := Append(result.issues, sofar, DateIssues(sheet, reporting, "Reporting Month is not a valid date"));
    var parsed := result.CheckValidDates(sheet, reporting, "Reporting Month is not a valid date");
    sofar := Append(result.issues, sofar, EnumIssues(sheet, "Staging", STAGING_VALUES, "Invalid Staging value"));
    result.CheckEnumValues(sheet, "Staging", STAGING_VALUES, "Invalid Staging value");
    sofar := Append(result.issues, sofar, RangeIssues(sheet, "Loan Amount", 0.0, None, "Loan Amount must be non-negative"));
    result.CheckNumericRange(sheet, "Loan Amount", 0.0, None, "Loan Amount must be non-negative");
    sofar := Append(result.issues, sofar, SegmentIssues(sheet, segments));
    CheckSegments(result, sheet, segments);
    sofar := Append(result.issues, sofar, DuplicateIssues(sheet, ["Loan ID", reporting], "Duplicate Loan ID and Reporting Month (EC-10)"));
    result.CheckUniqueness(sheet, ["Loan ID", reporting], "Duplicate Loan ID and Reporting Month (EC-10)");
    assert sofar == start + PdFieldIssues(sheet, reporting, segments);
  }

  lemma AlreadyCapped(issues: seq<Issue>)
    requires |issues| <= MAX_ISSUES
    ensures Cap(issues) == issues
  {}

  /** The capped PD run reports exactly the first 100 issues of the uncapped one. */
  method ValidatePd(sheet: Sheet, segments: set<string>) returns (result: ValidationResult)
    ensures fresh(result) && result.issues == Cap(PdIssues(sheet, segments))
  {
    hide Cap, MissingIssues, PdFieldIssues;
    result := new ValidationResult();
    var reporting := Resolve(sheet, REPORTING_ALIASES);
    ghost var sofar := MissingIssues(sheet, PdRequired(reporting));
    ghost var all := PdIssues(sheet, segments);
    var ok := result.CheckRequiredColumns(sheet, PdRequired(reporting));
    assert [] + sofar == sofar;
    if result.RemainingCapacity() == 0 {
      Prefix(result.issues, sofar, all);
      return;
    }
    if reporting.None? {
      assert sofar + [] == sofar;
      return;
    }
    sofar := Append(result.issues, sofar, PdFieldIssues(sheet, reporting.value, segments));
    CheckPdFields(result, sheet, reporting.value, segments);
  }

  // ----- validate_lgd -----

  const LGD_KNOWN := {"Customer ID", "Loan ID", "Outstanding Amount", "Effective Interest Rate (EIR)", "Effective Interest Rate", "EIR"}

  function LgdRequired(eir: Option<string>): seq<string> {
    ["Customer ID", "Loan ID", "Outstanding Amount", OrElse(eir, "Effective Interest Rate (EIR)")]
  }

  /** The configured collateral columns below n, each checked to be non-negative. */
  function CollateralIssues(sheet: Sheet, configured: set<string>, n: nat): seq<Issue>
    requires n <= |sheet.columns|
  {
    if n == 0 then []
    else
      CollateralIssues(sheet, configured, n - 1)
      + (if sheet.columns[n - 1] in configured
         then RangeIssues(sheet, sheet.columns[n - 1], 0.0, None, "Collateral must be non-negative") else [])
  }

  function LgdFieldIssues(sheet: Sheet, eir: string, configured: set<string>): seq<Issue> {
    ExtraIssues(sheet, LGD_KNOWN + configured)
    + EmptyIssues(sheet, "Customer ID", "Customer ID is empty")
    + EmptyIssues(sheet, "Loan ID", "Loan ID is empty")
    + DuplicateIssues(sheet, ["Loan ID"], "Duplicate Loan ID")
    + RangeIssues(sheet, "Outstanding Amount", 0.0, None, "Outstanding Amount must be non-negative")
    + RangeIssues(sheet, eir, 0.0, Some(1.0), "EIR must be between 0 and 1 (EC-05)")
    + CollateralIssues(sheet, configured, |sheet.columns|)
  }

  /** Every LGD issue in the order the checks run, with no cap. */
  function LgdIssues(sheet: Sheet, configured: set<string>): seq<Issue> {
    var eir := Resolve(sheet, LGD_EIR_ALIASES);
    MissingIssues(sheet, LgdRequired(eir)) + (if eir.None? then [] else LgdFieldIssues(sheet, eir.value, configured))
  }

  method CheckCollateralColumns(result: ValidationResult, sheet: Sheet, configured: set<string>)
    requires |result.issues| <= MAX_ISSUES
    modifies result
    ensures |result.issues| <= MAX_ISSUES
    ensures result.issues == Cap(old(result.issues) + CollateralIssues(sheet, configured, |sheet.columns|))
  {
    hide Cap, RangeIssues;
    ghost var start := result.issues;
    ghost var all := start + CollateralIssues(sheet, configured, |sheet.columns|);
    ghost var sofar := start;
    AlreadyCapped(start);
    for n := 0 to |sheet.columns|
      invariant sofar == start + CollateralIssues(sheet, configured, n)
      invariant |result.issues| <= MAX_ISSUES && result.issues == Cap(sofar)
    {
      if sheet.columns[n] in configured {
        if result.RemainingCapacity() == 0 {
          CollateralPrefix(sheet, configured, n, |sheet.columns|);
          assert sofar <= all;
          Prefix(result.issues, sofar, all);
          return;
        }
        sofar := Append(result.issues, sofar, RangeIssues(sheet, sheet.columns[n], 0.0, None, "Collateral must be non-negative"));
        result.CheckNumericRange(sheet, sheet.columns[n], 0.0, None, "Collateral must be non-negative");
      }
      assert sofar == start + CollateralIssues(sheet, configured, n + 1);
    }
  }

  lemma {:induction false} CollateralPrefix(sheet: Sheet, configured: set<string>, n: nat, m: nat)
    requires n <= m <= |sheet.columns|
    ensures CollateralIssues(sheet, configured, n) <= CollateralIssues(sheet, configured, m)
  {
    if n < m {
      CollateralPrefix(sheet, configured, n, m - 1);
    }
  }

  method CheckLgdFields(result: ValidationResult, sheet: Sheet, eir: string, configured: set<string>)
    requires |result.issues| <= MAX_ISSUES
    modifies result
    ensures |result.issues| <= MAX_ISSUES && result.issues == Cap(old(result.issues) + LgdFieldIssues(sheet, eir, configured))
  {
    hide Cap, ExtraIssues, EmptyIssues, RangeIssues, DuplicateIssues, CollateralIssues;
    ghost var start := result.issues;
    AlreadyCapped(start);
    ghost var sofar := Append(result.issues, start, ExtraIssues(sheet, LGD_KNOWN + configured));
    result.CheckExtraColumns(sheet, LGD_KNOWN + configured);
    sofar := Append(result.issues, sofar, EmptyIssues(sheet, "Customer ID", "Customer ID is empty"));
    result.CheckNonEmptyStrings(sheet, "Customer ID", "Customer ID is empty");
    sofar := Append(result.issues, sofar, EmptyIssues(sheet, "Loan ID", "Loan ID is empty"));
    result.CheckNonEmptyStrings(sheet, "Loan ID", "Loan ID is empty");
    sofar := Append(result.issues, sofar, DuplicateIssues(sheet, ["Loan ID"], "Duplicate Loan ID"));
    result.CheckUniqueness(sheet, ["Loan ID"], "Duplicate Loan ID");
    sofar := Append(result.issues, sofar, RangeIssues(sheet, "Outstanding Amount", 0.0, None, "Outstanding Amount must be non-negative"));
    result.CheckNumericRange(sheet, "Outstanding Amount", 0.0, None, "Outstanding Amount must be non-negative");
    sofar := Append(result.issues, sofar, RangeIssues(sheet, eir, 0.0, Some(1.0), "EIR must be between 0 and 1 (EC-05)"));
    result.CheckNumericRange(sheet, eir, 0.0, Some(1.0), "EIR must be between 0 and 1 (EC-05)");
    sofar := Append(result.issues, sofar, CollateralIssues(sheet, configured, |sheet.columns|));
    CheckCollateralColumns(result, sheet, configured);
    assert sofar == start + LgdFieldIssues(sheet, eir, configured);
  }

  /** The capped LGD run reports exactly the first 100 issues of the uncapped one. */
  method ValidateLgd(sheet: Sheet, configured: set<string>) returns (result: ValidationResult)
    ensures fresh(result) && result.issues == Cap(LgdIssues(sheet, configured))
  {
    hide Cap, MissingIssues, LgdFieldIssues;
    result := new ValidationResult();
    var eir := Resolve(sheet, LGD_EIR_ALIASES);
    ghost var sofar := MissingIssues(sheet, LgdRequired(eir));
    ghost var all := LgdIssues(sheet, configured);
    var ok := result.CheckRequiredColumns(sheet, LgdRequired(eir));
    assert [] + sofar == sofar;
    if result.RemainingCapacity() == 0 {
      Prefix(result.issues, sofar, all);
      return;
    }
    if eir.None? {
      assert sofar + [] == sofar;
      return;
    }
    sofar := Append(result.issues, sofar, LgdFieldIssues(sheet, eir.value, configured));
    CheckLgdFields(result, sheet, eir.value, configured);
  }

  // ----- validate_ead -----

  function EadRequired(staging: Option<string>, eir: Option<string>): seq<string> {
    ["Loan ID", "Customer ID", "SEGMENT", "Reporting Date", "Maturity Date", "Adjusted Maturity Date", "First Payment Date",
     "Outstanding Amount", "Repayment Frequency", OrElse(staging, "Staging"), OrElse(eir, "Effective Interest Rate")]
  }

  function EadIdentityIssues(sheet: Sheet): seq<Issue> {
    EmptyIssues(sheet, "Loan ID", "Loan ID is empty") + DuplicateIssues(sheet, ["Loan ID"], "Duplicate Loan ID")
  }

  function EadDateIssues(sheet: Sheet): seq<Issue> {
    DateIssues(sheet, "Reporting Date", "Reporting Date is not a valid date")
    + DateIssues(sheet, "Maturity Date", "Maturity Date is not a valid date")
    + DateIssues(sheet, "First Payment Date", "First Payment Date is not a valid date")
    + DateIssues(sheet, "Adjusted Maturity Date", "Adjusted Maturity Date is not a valid date")
  }

  function EadValueIssues(sheet: Sheet, staging: string, eir: string, segments: set<string>, frequencies: set<string>): seq<Issue> {
    EnumIssues(sheet, staging, STAGING_VALUES, "Invalid Staging value")
    + RangeIssues(sheet, "Outstanding Amount", 0.0, None, "Outstanding Amount must be non-negative")
    + RangeIssues(sheet, eir, 0.0, Some(1.0), "EIR must be between 0 and 1 (EC-05)")
    + SegmentIssues(sheet, segments)
    + FrequencyIssues(sheet, frequencies)
  }

  function EadOrderIssues(sheet: Sheet): seq<Issue> {
    OrderIssues(sheet, "Reporting Date", "Maturity Date", "Maturity Date", "Maturity Date is before Reporting Date (EC-03)")
    + OrderIssues(sheet, "First Payment Date", "Reporting Date", "First Payment Date", "First Payment Date is after Reporting Date (EC-04)")
    + OrderIssues(sheet, "First Payment Date", "Adjusted Maturity Date", "Adjusted Maturity Date",
                  "Adjusted Maturity Date is before First Payment Date")
  }

  function EadFieldIssues(sheet: Sheet, staging: string, eir: string, segments: set<string>, frequencies: set<string>): seq<Issue> {
    EadIdentityIssues(sheet) + EadDateIssues(sheet) + EadValueIssues(sheet, staging, eir, segments, frequencies)
    + EadOrderIssues(sheet)
  }

  /** Every EAD issue in the order the checks run, with no cap. */
  function EadIssues(sheet: Sheet, segments: set<string>, frequencies: set<string>): seq<Issue> {
    var staging, eir := Resolve(sheet, STAGING_ALIASES), Resolve(sheet, EAD_EIR_ALIASES);
    MissingIssues(sheet, EadRequired(staging, eir))
    + (if staging.None? || eir.None? then [] else EadFieldIssues(sheet, staging.value, eir.value, segments, frequencies))
  }

  /** Which of the four date columns the checks could parse. */
  datatype Parsed = Parsed(reporting: bool, maturity: bool, firstPayment: bool, adjusted: bool)

  /** A column counts as unparsed only when it is absent or the result was full, which it then stays. */
  predicate ParsedSoundly(parsed: bool, sheet: Sheet, column: string, count: nat) {
    (parsed ==> column in sheet.columns) && (!parsed ==> column !in sheet.columns || count == MAX_ISSUES)
  }

  predicate AllParsedSoundly(p: Parsed, sheet: Sheet, count: nat) {
    && ParsedSoundly(p.reporting, sheet, "Reporting Date", count) && ParsedSoundly(p.maturity, sheet, "Maturity Date", count)
    && ParsedSoundly(p.firstPayment, sheet, "First Payment Date", count)
    && ParsedSoundly(p.adjusted, sheet, "Adjusted Maturity Date", count)
  }

  method CheckEadDates(result: ValidationResult, sheet: Sheet) returns (p: Parsed)
    requires |result.issues| <= MAX_ISSUES
    modifies result
    ensures |old(result.issues)| <= |result.issues| <= MAX_ISSUES && result.issues == Cap(old(result.issues) + EadDateIssues(sheet))
    ensures AllParsedSoundly(p, sheet, |result.issues|)
  {
    hide Cap, DateIssues;
    ghost var start := result.issues;
    AlreadyCapped(start);
    ghost var sofar := Append(result.issues, start, DateIssues(sheet, "Reporting Date", "Reporting Date is not a valid date"));
    var reporting := result.CheckValidDates(sheet, "Reporting Date", "Reporting Date is not a valid date");
    sofar := Append(result.issues, sofar, DateIssues(sheet, "Maturity Date", "Maturity Date is not a valid date"));
    var maturity := result.CheckValidDates(sheet, "Maturity Date", "Maturity Date is not a valid date");
    sofar := Append(result.issues, sofar, DateIssues(sheet, "First Payment Date", "First Payment Date is not a valid date"));
    var firstPayment := result.CheckValidDates(sheet, "First Payment Date", "First Payment Date is not a valid date");
    sofar := Append(result.issues, sofar, DateIssues(sheet, "Adjusted Maturity Date", "Adjusted Maturity Date is not a valid date"));
    var adjusted := result.CheckValidDates(sheet, "Adjusted Maturity Date", "Adjusted Maturity Date is not a valid date");
    p := Parsed(reporting, maturity, firstPayment, adjusted);
    assert sofar == start + EadDateIssues(sheet);
  }

  method CheckEadValues(result: ValidationResult, sheet: Sheet, staging: string, eir: string, segments: set<string>, frequencies: set<string>)
    requires |result.issues| <= MAX_ISSUES
    modifies result
    ensures |old(result.issues)| <= |result.issues| <= MAX_ISSUES
    ensures result.issues == Cap(old(result.issues) + EadValueIssues(sheet, staging, eir, segments, frequencies))
  {
    hide Cap, EnumIssues, RangeIssues, SegmentIssues, FrequencyIssues;
    ghost var start := result.issues;
    AlreadyCapped(start);
    ghost var sofar := Append(result.issues, start, EnumIssues(sheet, staging, STAGING_VALUES, "Invalid Staging value"));
    result.CheckEnumValues(sheet, staging, STAGING_VALUES, "Invalid Staging value");
    sofar := Append(result.issues, sofar, RangeIssues(sheet, "Outstanding Amount", 0.0, None, "Outstanding Amount must be non-negative"));
    result.CheckNumericRange(sheet, "Outstanding Amount", 0.0, None, "Outstanding Amount must be non-negative");
    sofar := Append(result.issues, sofar, RangeIssues(sheet, eir, 0.0, Some(1.0), "EIR must be between 0 and 1 (EC-05)"));
    result.CheckNumericRange(sheet, eir, 0.0, Some(1.0), "EIR must be between 0 and 1 (EC-05)");
    sofar := Append(result.issues, sofar, SegmentIssues(sheet, segments));
    CheckSegments(result, sheet, segments);
    sofar := Append(result.issues, sofar, FrequencyIssues(sheet, frequencies));
    result.CheckFrequency(sheet, frequencies);
    assert sofar == start + EadValueIssues(sheet, staging, eir, segments, frequencies);
  }

  method CheckEadOrder(result: ValidationResult, sheet: Sheet, p: Parsed)
    requires |result.issues| <= MAX_ISSUES && AllParsedSoundly(p, sheet, |result.issues|)
    modifies result
    ensures |result.issues| <= MAX_ISSUES && result.issues == Cap(old(result.issues) + EadOrderIssues(sheet))
  {
    hide Cap, OrderIssues;
    ghost var start := result.issues;
    AlreadyCapped(start);
    ghost var sofar := Append(result.issues, start, OrderIssues(sheet, "Reporting Date", "Maturity Date", "Maturity Date",
                                                                "Maturity Date is before Reporting Date (EC-03)"));
    result.CheckDateOrder(sheet, "Reporting Date", "Maturity Date", "Maturity Date",
                          "Maturity Date is before Reporting Date (EC-03)", p.reporting && p.maturity);
    sofar := Append(result.issues, sofar, OrderIssues(sheet, "First Payment Date", "Reporting Date", "First Payment Date",
                                                      "First Payment Date is after Reporting Date (EC-04)"));
    result.CheckDateOrder(sheet, "First Payment Date", "Reporting Date", "First Payment Date",
                          "First Payment Date is after Reporting Date (EC-04)", p.reporting && p.firstPayment);
    sofar := Append(result.issues, sofar, OrderIssues(sheet, "First Payment Date", "Adjusted Maturity Date", "Adjusted Maturity Date",
                                                      "Adjusted Maturity Date is before First Payment Date"));
    result.CheckDateOrder(sheet, "First Payment Date", "Adjusted Maturity Date", "Adjusted Maturity Date",
                          "Adjusted Maturity Date is before First Payment Date", p.firstPayment && p.adjusted);
    assert sofar == start + EadOrderIssues(sheet);
  }

  method CheckEadFields(result: ValidationResult, sheet: Sheet, staging: string, eir: string, segments: set<string>, frequencies: set<string>)
    requires |result.issues| <= MAX_ISSUES
    modifies result
    ensures |result.issues| <= MAX_ISSUES
    ensures result.issues == Cap(old(result.issues) + EadFieldIssues(sheet, staging, eir, segments, frequencies))
  {
    hide Cap, EmptyIssues, DuplicateIssues, EadDateIssues, EadValueIssues, EadOrderIssues;
    ghost var start := result.issues;
    AlreadyCapped(start);
    ghost var sofar := Append(result.issues, start, EmptyIssues(sheet, "Loan ID", "Loan ID is empty"));
    result.CheckNonEmptyStrings(sheet, "Loan ID", "Loan ID is empty");
    sofar := Append(result.issues, sofar, DuplicateIssues(sheet, ["Loan ID"], "Duplicate Loan ID"));
    result.CheckUniqueness(sheet, ["Loan ID"], "Duplicate Loan ID");
    assert sofar == start + EadIdentityIssues(sheet);
    sofar := Append(result.issues, sofar, EadDateIssues(sheet));
    var p := CheckEadDates(result, sheet);
    sofar := Append(result.issues, sofar, EadValueIssues(sheet, staging, eir, segments, frequencies));
    CheckEadValues(result, sheet, staging, eir, segments, frequencies);
    sofar := Append(result.issues, sofar, EadOrderIssues(sheet));
    CheckEadOrder(result, sheet, p);
    assert sofar == start + EadFieldIssues(sheet, staging, eir, segments, frequencies);
  }

  /** The capped EAD run reports exactly the first 100 issues of the uncapped one. */
  method ValidateEad(sheet: Sheet, segments: set<string>, frequencies: set<string>) returns (result: ValidationResult)
    ensures fresh(result) && result.issues == Cap(EadIssues(sheet, segments, frequencies))
  {
    hide Cap, MissingIssues, EadFieldIssues;
    result := new ValidationResult();
    var staging, eir := Resolve(sheet, STAGING_ALIASES), Resolve(sheet, EAD_EIR_ALIASES);
    ghost var sofar := MissingIssues(sheet, EadRequired(staging, eir));
    ghost var all := EadIssues(sheet, segments, frequencies);
    var ok := result.CheckRequiredColumns(sheet, EadRequired(staging, eir));
    assert [] + sofar == sofar;
    if result.RemainingCapacity() == 0 {
      Prefix(result.issues, sofar, all);
      return;
    }
    if staging.None? || eir.None? {
      assert sofar + [] == sofar;
      return;
    }
    sofar := Append(result.issues, sofar, EadFieldIssues(sheet, staging.value, eir.value, segments, frequencies));
    CheckEadFields(result, sheet, staging.value, eir.value, segments, frequencies);
  }
}
