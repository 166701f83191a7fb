/** The upload validators: every check appends to one shared result that stops growing at 100 issues. */
module Validators {
  import opened Wrappers
  import Text

  const MAX_ISSUES := 100

  datatype Level = Warn | Block

  datatype Location = HeaderRow | AtRow(excelRow: int, column: string) | InColumn(column: string, count: nat) | CrossFile

  /** One finding; `value` is what the fix text quotes. */
  datatype Issue = Issue(level: Level, title: string, location: Location, value: string)

  /** A cell with the views pandas takes of it: the text stripped, and its number and date when they parse. */
  datatype Cell = Cell(present: bool, raw: string, text: string, number: Option<real>, date: Option<int>)

  const MISSING := Cell(false, "nan", "nan", None, None)

  datatype Sheet = Sheet(columns: seq<string>, rows: seq<map<string, Cell>>) {
    function At(i: nat, column: string): Cell
      requires i < |rows|
    {
      if column in rows[i] then rows[i][column] else MISSING
    }
  }

  /** The first 100 issues. */
  function Cap(s: seq<Issue>): seq<Issue> { if |s| <= MAX_ISSUES then s else s[..MAX_ISSUES] }

  /** Capping early or late is the same. */
  lemma CapTwice(s: seq<Issue>, t: seq<Issue>)
    ensures Cap(Cap(s) + t) == Cap(s + t)
  {}

  lemma CapFull(s: seq<Issue>, t: seq<Issue>)
    requires |s| == MAX_ISSUES
    ensures Cap(s + t) == s
  {}

  predicate IsValid(issues: seq<Issue>) { forall i :: 0 <= i < |issues| ==> issues[i].level != Block }

  predicate AllBlock(issues: seq<Issue>) { forall i :: 0 <= i < |issues| ==> issues[i].level == Block }

  /** Some blocking issue survives the cap. */
  predicate BlockShown(issues: seq<Issue>) {
    exists j :: 0 <= j < |issues| && j < MAX_ISSUES && issues[j].level == Block
  }

  /** The cap keeps a list's verdict exactly when it shows a blocking issue or there is none; block-only lists always keep it. */
  lemma CapKeepsVerdict(issues: seq<Issue>)
    ensures (IsValid(Cap(issues)) <==> IsValid(issues)) <==> (IsValid(issues) || BlockShown(issues))
    ensures AllBlock(issues) ==> (IsValid(Cap(issues)) <==> issues == []) && (IsValid(issues) <==> issues == [])
  {
    if BlockShown(issues) {
      var j :| 0 <= j < |issues| && j < MAX_ISSUES && issues[j].level == Block;
      assert Cap(issues)[j] == issues[j];
    } else {
      forall j | 0 <= j < |Cap(issues)| ensures Cap(issues)[j].level != Block {
        assert Cap(issues)[j] == issues[j];
      }
    }
    if AllBlock(issues) && issues != [] {
      assert issues[0].level == Block && Cap(issues)[0] == issues[0];
    }
  }

  // ----- The uncapped lists -----

  /** The issues of the rows below n that the mask selects, in row order. */
  function RowIssues(n: nat, mask: nat -> bool, make: nat -> Issue): seq<Issue> {
    if n == 0 then [] else RowIssues(n - 1, mask, make) + (if mask(n - 1) then [make(n - 1)] else [])
  }

  function ExcelRow(i: nat): int { i + 2 }

  function MakeBlock(sheet: Sheet, column: string, title: string): nat -> Issue {
    (i: nat) => Issue(Block, title, AtRow(ExcelRow(i), column), if i < |sheet.rows| then sheet.At(i, column).raw else "")
  }

  function MissingIssues(sheet: Sheet, required: seq<string>): seq<Issue> {
    if required == [] then []
    else
      var column := required[|required| - 1];
      MissingIssues(sheet, required[..|required| - 1])
      + (if column in sheet.columns then [] else [Issue(Block, "Missing required column", HeaderRow, column)])
  }

  function EnumMask(sheet: Sheet, column: string, allowed: set<string>): nat -> bool {
    (i: nat) => i < |sheet.rows| && sheet.At(i, column).present && sheet.At(i, column).text !in allowed
  }

  function EnumIssues(sheet: Sheet, column: string, allowed: set<string>, title: string): seq<Issue> {
    if column !in sheet.columns then []
    else RowIssues(|sheet.rows|, EnumMask(sheet, column, allowed), MakeBlock(sheet, column, title))
  }

  /** Cells that do not parse, empty ones included unless allowed, or that leave the range. */
  function RangeMask(sheet: Sheet, column: string, lo: real, hi: Option<real>, allowMissing: bool := false): nat -> bool {
    (i: nat) => i < |sheet.rows| &&
      (var number := sheet.At(i, column).number;
       if number.None? then !allowMissing || sheet.At(i, column).present
       else number.value < lo || (hi.Some? && number.value > hi.value))
  }

  function RangeIssues(sheet: Sheet, column: string, lo: real, hi: Option<real>, title: string, allowMissing: bool := false): seq<Issue> {
    if column !in sheet.columns then []
    else RowIssues(|sheet.rows|, RangeMask(sheet, column, lo, hi, allowMissing), MakeBlock(sheet, column, title))
  }

  function EmptyMask(sheet: Sheet, column: string): nat -> bool {
    (i: nat) => i < |sheet.rows| && (!sheet.At(i, column).present || sheet.At(i, column).text == "")
  }

  function EmptyIssues(sheet: Sheet, column: string, title: string): seq<Issue> {
    if column !in sheet.columns then []
    else RowIssues(|sheet.rows|, EmptyMask(sheet, column), MakeBlock(sheet, column, title))
  }

  function DateMask(sheet: Sheet, column: string): nat -> bool {
    (i: nat) => i < |sheet.rows| && sheet.At(i, column).present && sheet.At(i, column).date.None?
  }

  function DateIssues(sheet: Sheet, column: string, title: string): seq<Issue> {
    if column !in sheet.columns then []
    else RowIssues(|sheet.rows|, DateMask(sheet, column), MakeBlock(sheet, column, title))
  }

  predicate SameKey(sheet: Sheet, columns: seq<string>, i: nat, j: nat)
    requires i < |sheet.rows| && j < |sheet.rows|
  {
    forall c :: c in columns ==> sheet.At(i, c).present == sheet.At(j, c).present && sheet.At(i, c).raw == sheet.At(j, c).raw
  }

  /** duplicated(keep=False): every row of a repeated key. */
  function DuplicateMask(sheet: Sheet, columns: seq<string>): nat -> bool {
    (i: nat) => i < |sheet.rows| && exists j: nat :: j < |sheet.rows| && j != i && SameKey(sheet, columns, i, j)
  }

  function DuplicateIssues(sheet: Sheet, columns: seq<string>, title: string): seq<Issue>
    requires columns != []
  {
    if exists c :: c in columns && c !in sheet.columns then []
    else RowIssues(|sheet.rows|, DuplicateMask(sheet, columns), MakeBlock(sheet, columns[0], title))
  }

  /** The raw values of the rows below n that the mask selects. */
  function MaskedValues(sheet: Sheet, column: string, mask: nat -> bool, n: nat): seq<string>
    requires n <= |sheet.rows|
  {
    if n == 0 then []
    else MaskedValues(sheet, column, mask, n - 1) + (if mask(n - 1) then [sheet.At(n - 1, column).raw] else [])
  }

  function Occurrences(values: seq<string>, value: string): nat {
    if values == [] then 0 else (if values[0] == value then 1 else 0) + Occurrences(values[1..], value)
  }

  /** One issue per distinct bad value, in value order. */
  function GroupIssues(values: seq<string>, groups: seq<string>, column: string, title: string): seq<Issue> {
    if groups == [] then []
    else
      var last := groups[|groups| - 1];
      GroupIssues(values, groups[..|groups| - 1], column, title)
      + [Issue(Block, title, InColumn(column, Occurrences(values, last)), last)]
  }

  function GroupedIssues(sheet: Sheet, column: string, allowed: set<string>, title: string): seq<Issue> {
    if column !in sheet.columns then []
    else
      var values := MaskedValues(sheet, column, EnumMask(sheet, column, allowed), |sheet.rows|);
      GroupIssues(values, Text.SortedDistinct(values), column, title)
  }

  /** Both dates parse and the first comes after the second. */
  function OrderMask(sheet: Sheet, late: string, early: string): nat -> bool {
    (i: nat) => i < |sheet.rows| && sheet.At(i, late).date.Some? && sheet.At(i, early).date.Some?
             && sheet.At(i, late).date.value > sheet.At(i, early).date.value
  }

  function OrderIssues(sheet: Sheet, late: string, early: string, reported: string, title: string): seq<Issue> {
    if late !in sheet.columns || early !in sheet.columns then []
    else RowIssues(|sheet.rows|, OrderMask(sheet, late, early), MakeBlock(sheet, reported, title))
  }

  function UpperChar(c: char): char { if 'a' <= c <= 'z' then (c as int - 32) as char else c }

  function Upper(s: string): string { seq(|s|, i requires 0 <= i < |s| => UpperChar(s[i])) }

  const UNSUPPORTED_FREQUENCY := "Unsupported Repayment Frequency (EC-09)"

  function FrequencyMask(sheet: Sheet, allowed: set<string>): nat -> bool {
    (i: nat) => i < |sheet.rows| && sheet.At(i, "Repayment Frequency").present
             && Upper(sheet.At(i, "Repayment Frequency").text) !in allowed
  }

  function FrequencyIssues(sheet: Sheet, allowed: set<string>): seq<Issue> {
    if "Repayment Frequency" !in sheet.columns then []
    else RowIssues(|sheet.rows|, FrequencyMask(sheet, allowed), MakeBlock(sheet, "Repayment Frequency", UNSUPPORTED_FREQUENCY))
  }

  function ExtraMask(sheet: Sheet, known: set<string>): nat -> bool {
    (i: nat) => i < |sheet.columns| && sheet.columns[i] !in known
  }

  function MakeExtra(sheet: Sheet): nat -> Issue {
    (i: nat) => Issue(Block, "Unknown collateral column (EC-02)", HeaderRow, if i < |sheet.columns| then sheet.columns[i] else "")
  }

  function ExtraIssues(sheet: Sheet, known: set<string>): seq<Issue> {
    RowIssues(|sheet.columns|, ExtraMask(sheet, known), MakeExtra(sheet))
  }

  // ----- The shared result and the checks of base.py -----

  class ValidationResult {
    var issues: seq<Issue>

    constructor ()
      ensures issues == []
    {
      issues := [];
    }

    function RemainingCapacity(): (n: nat)
      reads this
      ensures |issues| <= MAX_ISSUES ==> n + |issues| == MAX_ISSUES
    {
      if |issues| < MAX_ISSUES then MAX_ISSUES - |issues| else 0
    }

    method Add(issue: Issue)
      requires |issues| <= MAX_ISSUES
      modifies this
      ensures |issues| <= MAX_ISSUES && issues == Cap(old(issues) + [issue])
    {
      if |issues| >= MAX_ISSUES {
        return;
      }
      issues := issues + [issue];
    }

    /** for index in df.index[mask][:remaining_capacity()]: add_block(...). */
    method AddRows(n: nat, mask: nat -> bool, make: nat -> Issue)
      requires |issues| <= MAX_ISSUES
      modifies this
      ensures |issues| <= MAX_ISSUES && issues == Cap(old(issues) + RowIssues(n, mask, make))
    {
      var capacity := RemainingCapacity();
      var added := 0;
      for i := 0 to n
        invariant |issues| <= MAX_ISSUES && |issues| == |old(issues)| + added && added <= capacity
        invariant issues == Cap(old(issues) + RowIssues(i, mask, make))
      {
        ghost var sofar := old(issues) + RowIssues(i, mask, make);
        if mask(i) {
          CapTwice(sofar, [make(i)]);
          assert sofar + [make(i)] == old(issues) + RowIssues(i + 1, mask, make);
          if added < capacity {
            Add(make(i));
            added := added + 1;
          } else {
            CapFull(issues, [make(i)]);
          }
        } else {
          assert RowIssues(i + 1, mask, make) == RowIssues(i, mask, make);
        }
      }
    }

    method CheckRequiredColumns(sheet: Sheet, required: seq<string>) returns (ok: bool)
      requires |issues| <= MAX_ISSUES
      modifies this
      ensures |issues| <= MAX_ISSUES && issues == Cap(old(issues) + MissingIssues(sheet, required))
      ensures ok <==> forall c :: c in required ==> c in sheet.columns
    {
      ok := true;
      for k := 0 to |required|
        invariant |issues| <= MAX_ISSUES && issues == Cap(old(issues) + MissingIssues(sheet, required[..k]))
        invariant ok <==> forall c :: c in required[..k] ==> c in sheet.columns
      {
        ghost var sofar := old(issues) + MissingIssues(sheet, required[..k]);
        var column := required[k];
        var issue := Issue(Block, "Missing required column", HeaderRow, column);
        assert required[..k + 1][..k] == required[..k] && required[..k + 1] == required[..k] + [column];
        if column !in sheet.columns {
          ok := false;
          CapTwice(sofar, [issue]);
          assert sofar + [issue] == old(issues) + MissingIssues(sheet, required[..k + 1]);
          if RemainingCapacity() == 0 {
            CapFull(issues, [issue]);
          } else {
            Add(issue);
          }
        } else {
          assert MissingIssues(sheet, required[..k + 1]) == MissingIssues(sheet, required[..k]);
        }
      }
      assert required[..|required|] == required;
    }

    method CheckEnumValues(sheet: Sheet, column: string, allowed: set<string>, title: string)
      requires |issues| <= MAX_ISSUES
      modifies this
      ensures |issues| <= MAX_ISSUES && issues == Cap(old(issues) + EnumIssues(sheet, column, allowed, title))
    {
      if column !in sheet.columns || RemainingCapacity() == 0 {
        Unchanged(issues, EnumIssues(sheet, column, allowed, title));
        return;
      }
      AddRows(|sheet.rows|, EnumMask(sheet, column, allowed), MakeBlock(sheet, column, title));
    }

    method CheckNumericRange(sheet: Sheet, column: string, lo: real, hi: Option<real>, title: string, allowMissing: bool := false)
      requires |issues| <= MAX_ISSUES
      modifies this
      ensures |issues| <= MAX_ISSUES && issues == Cap(old(issues) + RangeIssues(sheet, column, lo, hi, title, allowMissing))
    {
      if column !in sheet.columns || RemainingCapacity() == 0 {
        Unchanged(issues, RangeIssues(sheet, column, lo, hi, title, allowMissing));
        return;
      }
      AddRows(|sheet.rows|, RangeMask(sheet, column, lo, hi, allowMissing), MakeBlock(sheet, column, title));
    }

    method CheckNonEmptyStrings(sheet: Sheet, column: string, title: string)
      requires |issues| <= MAX_ISSUES
      modifies this
      ensures |issues| <= MAX_ISSUES && issues == Cap(old(issues) + EmptyIssues(sheet, column, title))
    {
      if column !in sheet.columns || RemainingCapacity() == 0 {
        Unchanged(issues, EmptyIssues(sheet, column, title));
        return;
      }
      AddRows(|sheet.rows|, EmptyMask(sheet, column), MakeBlock(sheet, column, title));
    }

    /** `parsed` is false where the source returns None: the column is absent or the result is already full. */
    method CheckValidDates(sheet: Sheet, column: string, title: string) returns (parsed: bool)
      requires |issues| <= MAX_ISSUES
      modifies this
      ensures |issues| <= MAX_ISSUES && issues == Cap(old(issues) + DateIssues(sheet, column, title))
      ensures parsed <==> column in sheet.columns && |old(issues)| < MAX_ISSUES
    {
      if column !in sheet.columns || RemainingCapacity() == 0 {
        Unchanged(issues, DateIssues(sheet, column, title));
        return false;
      }
      AddRows(|sheet.rows|, DateMask(sheet, column), MakeBlock(sheet, column, title));
      return true;
    }

    method CheckUniqueness(sheet: Sheet, columns: seq<string>, title: string)
      requires |issues| <= MAX_ISSUES && columns != []
      modifies this
      ensures |issues| <= MAX_ISSUES && issues == Cap(old(issues) + DuplicateIssues(sheet, columns, title))
    {
      if RemainingCapacity() == 0 {
        Unchanged(issues, DuplicateIssues(sheet, columns, title));
        return;
      }
      if exists c :: c in columns && c !in sheet.columns {
        Unchanged(issues, DuplicateIssues(sheet, columns, title));
        return;
      }
      AddRows(|sheet.rows|, DuplicateMask(sheet, columns), MakeBlock(sheet, columns[0], title));
    }

    /** The EC-03 and EC-04 style checks: skipped when a date column was not parsed or the result is full. */
    method CheckDateOrder(sheet: Sheet, late: string, early: string, reported: string, title: string, parsed: bool)
      requires |issues| <= MAX_ISSUES
      requires parsed ==> late in sheet.columns && early in sheet.columns
      requires !parsed ==> late !in sheet.columns || early !in sheet.columns || |issues| == MAX_ISSUES
      modifies this
      ensures |issues| <= MAX_ISSUES && issues == Cap(old(issues) + OrderIssues(sheet, late, early, reported, title))
    {
      if !parsed || RemainingCapacity() == 0 {
        Unchanged(issues, OrderIssues(sheet, late, early, reported, title));
        return;
      }
      AddRows(|sheet.rows|, OrderMask(sheet, late, early), MakeBlock(sheet, reported, title));
    }

    method CheckFrequency(sheet: Sheet, allowed: set<string>)
      requires |issues| <= MAX_ISSUES
      modifies this
      ensures |issues| <= MAX_ISSUES && issues == Cap(old(issues) + FrequencyIssues(sheet, allowed))
    {
      if "Repayment Frequency" !in sheet.columns || RemainingCapacity() == 0 {
        Unchanged(issues, FrequencyIssues(sheet, allowed));
        return;
      }
      AddRows(|sheet.rows|, FrequencyMask(sheet, allowed), MakeBlock(sheet, "Repayment Frequency", UNSUPPORTED_FREQUENCY));
    }

    /** EC-02: one issue per column that is neither known nor a configured collateral type. */
    method CheckExtraColumns(sheet: Sheet, known: set<string>)
      requires |issues| <= MAX_ISSUES
      modifies this
      ensures |issues| <= MAX_ISSUES && issues == Cap(old(issues) + ExtraIssues(sheet, known))
    {
      AddRows(|sheet.columns|, ExtraMask(sheet, known), MakeExtra(sheet));
    }

    method CheckEnumValuesGrouped(sheet: Sheet, column: string, allowed: set<string>, title: string)
      requires |issues| <= MAX_ISSUES
      modifies this
      ensures |issues| <= MAX_ISSUES && issues == Cap(old(issues) + GroupedIssues(sheet, column, allowed, title))
    {
      if column !in sheet.columns || RemainingCapacity() == 0 {
        Unchanged(issues, GroupedIssues(sheet, column, allowed, title));
        return;
      }
      var values := MaskedValues(sheet, column, EnumMask(sheet, column, allowed), |sheet.rows|);
      var groups := Text.SortedDistinct(values);
      for k := 0 to |groups|
        invariant |issues| <= MAX_ISSUES && issues == Cap(old(issues) + GroupIssues(values, groups[..k], column, title))
      {
        ghost var sofar := old(issues) + GroupIssues(values, groups[..k], column, title);
        var issue := Issue(Block, title, InColumn(column, Occurrences(values, groups[k])), groups[k]);
        assert groups[..k + 1][..k] == groups[..k];
        CapTwice(sofar, [issue]);
        assert sofar + [issue] == old(issues) + GroupIssues(values, groups[..k + 1], column, title);
        if RemainingCapacity() == 0 {
          CapFull(issues, [issue]);
        } else {
          Add(issue);
        }
      }
      assert groups[..|groups|] == groups;
    }
  }

  /** A full result, or nothing to report, leaves the issues as they are. */
  lemma Unchanged(issues: seq<Issue>, more: seq<Issue>)
    requires |issues| <= MAX_ISSUES && (|issues| == MAX_ISSUES || more == [])
    ensures Cap(issues + more) == issues
  {
    if more == [] {
      assert issues + more == issues;
    } else {
      CapFull(issues, more);
    }
  }

  /** The uncapped list after one more check, with the cap carried over. */
  lemma Append(issues: seq<Issue>, sofar: seq<Issue>, more: seq<Issue>) returns (next: seq<Issue>)
    requires issues == Cap(sofar)
    ensures next == sofar + more && Cap(issues + more) == Cap(next)
    ensures |issues| <= |Cap(next)| <= MAX_ISSUES
  {
    next := sofar + more;
    CapTwice(sofar, more);
  }

  /** A full result already is the first 100 of whatever longer list. */
  lemma Prefix(issues: seq<Issue>, sofar: seq<Issue>, full: seq<Issue>)
    requires issues == Cap(sofar) && |issues| == MAX_ISSUES && sofar <= full
    ensures issues == Cap(full)
  {}
}
