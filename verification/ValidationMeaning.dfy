/** The validators' issues in their own terms: which cell each issue points at, and which column an alias stands for. */
module ValidationMeaning {
  import opened Wrappers
  import opened Validators
  import opened UploadValidators
  import Text

  /** The cap shows the first hundred issues and drops nothing else. */
  lemma CapMeans(issues: seq<Issue>)
    ensures Cap(issues) == issues[..if |issues| <= 100 then |issues| else 100]
  {}

  /** A cell that the sheet does not have reads as missing. */
  lemma AtMeans(sheet: Sheet, i: nat, column: string)
    requires i < |sheet.rows|
    ensures column in sheet.rows[i] ==> sheet.At(i, column) == sheet.rows[i][column]
    ensures column !in sheet.rows[i] ==>
              !sheet.At(i, column).present && sheet.At(i, column).number == None && sheet.At(i, column).date == None
  {}

  lemma {:induction false} RowIssuesAre(n: nat, mask: nat -> bool, make: nat -> Issue, x: Issue)
    ensures x in RowIssues(n, mask, make) <==> exists i: nat :: i < n && mask(i) && x == make(i)
  {
    if n != 0 {
      RowIssuesAre(n - 1, mask, make, x);
    }
  }

  /** The blocking issue for a cell: its sheet row, counted from 2 under the header, its column and its value as read. */
  predicate Points(x: Issue, sheet: Sheet, i: nat, column: string, title: string) {
    i < |sheet.rows| && x == Issue(Block, title, AtRow(i + 2, column), sheet.At(i, column).raw)
  }

  /** The rows of a check: the issues are those of exactly the rows that the condition selects. */
  lemma BlocksAre(sheet: Sheet, mask: nat -> bool, column: string, title: string, x: Issue)
    ensures x in RowIssues(|sheet.rows|, mask, MakeBlock(sheet, column, title))
       <==> exists i: nat :: mask(i) && Points(x, sheet, i, column, title)
  {
    RowIssuesAre(|sheet.rows|, mask, MakeBlock(sheet, column, title), x);
    if i: nat :| i < |sheet.rows| && mask(i) && x == MakeBlock(sheet, column, title)(i) {
      assert Points(x, sheet, i, column, title);
    }
    if i: nat :| mask(i) && Points(x, sheet, i, column, title) {
      assert x == MakeBlock(sheet, column, title)(i);
    }
  }

  lemma EnumIssuesMean(sheet: Sheet, column: string, allowed: set<string>, title: string, x: Issue)
    ensures x in EnumIssues(sheet, column, allowed, title)
       <==> column in sheet.columns
            && exists i: nat :: Points(x, sheet, i, column, title) && sheet.At(i, column).present && sheet.At(i, column).text !in allowed
  {
    hide Points;
    BlocksAre(sheet, EnumMask(sheet, column, allowed), column, title, x);
    PointsRow(x, sheet, column, title);
  }

  lemma PointsRow(x: Issue, sheet: Sheet, column: string, title: string)
    ensures forall i: nat :: Points(x, sheet, i, column, title) ==> i < |sheet.rows|
  {}

  /** The cell does not parse as a number, unless it is empty and may be, or its number leaves the range. */
  predicate OutOfRange(cell: Cell, lo: real, hi: Option<real>, allowMissing: bool) {
    match cell.number
    case None => !(allowMissing && !cell.present)
    case Some(v) => v < lo || (hi.Some? && hi.value < v)
  }

  lemma RangeIssuesMean(sheet: Sheet, column: string, lo: real, hi: Option<real>, title: string, allowMissing: bool, x: Issue)
    ensures x in RangeIssues(sheet, column, lo, hi, title, allowMissing)
       <==> column in sheet.columns
            && exists i: nat :: Points(x, sheet, i, column, title) && OutOfRange(sheet.At(i, column), lo, hi, allowMissing)
  {
    hide Points;
    BlocksAre(sheet, RangeMask(sheet, column, lo, hi, allowMissing), column, title, x);
    PointsRow(x, sheet, column, title);
  }

  lemma EmptyIssuesMean(sheet: Sheet, column: string, title: string, x: Issue)
    ensures x in EmptyIssues(sheet, column, title)
       <==> column in sheet.columns
            && exists i: nat :: Points(x, sheet, i, column, title) && (!sheet.At(i, column).present || sheet.At(i, column).text == "")
  {
    hide Points;
    BlocksAre(sheet, EmptyMask(sheet, column), column, title, x);
    PointsRow(x, sheet, column, title);
  }

  lemma DateIssuesMean(sheet: Sheet, column: string, title: string, x: Issue)
    ensures x in DateIssues(sheet, column, title)
       <==> column in sheet.columns
            && exists i: nat :: Points(x, sheet, i, column, title) && sheet.At(i, column).present && sheet.At(i, column).date.None?
  {
    hide Points;
    BlocksAre(sheet, DateMask(sheet, column), column, title, x);
    PointsRow(x, sheet, column, title);
  }

  lemma OrderIssuesMean(sheet: Sheet, late: string, early: string, reported: string, title: string, x: Issue)
    ensures x in OrderIssues(sheet, late, early, reported, title)
       <==> late in sheet.columns && early in sheet.columns
            && exists i: nat :: Points(x, sheet, i, reported, title)
                 && sheet.At(i, late).date.Some? && sheet.At(i, early).date.Some? && sheet.At(i, early).date.value < sheet.At(i, late).date.value
  {
    hide Points;
    BlocksAre(sheet, OrderMask(sheet, late, early), reported, title, x);
    PointsRow(x, sheet, reported, title);
  }

  /** Two rows agree on every one of the columns. */
  predicate Agree(sheet: Sheet, columns: seq<string>, i: nat, j: nat) {
    i < |sheet.rows| && j < |sheet.rows| && forall c :: c in columns ==>
      sheet.At(i, c).present == sheet.At(j, c).present && sheet.At(i, c).raw == sheet.At(j, c).raw
  }

  lemma DuplicateIssuesMean(sheet: Sheet, columns: seq<string>, title: string, x: Issue)
    requires columns != []
    ensures x in DuplicateIssues(sheet, columns, title)
       <==> (forall c :: c in columns ==> c in sheet.columns)
            && exists i: nat, j: nat :: i != j && Points(x, sheet, i, columns[0], title) && Agree(sheet, columns, i, j)
  {
    hide Points;
    BlocksAre(sheet, DuplicateMask(sheet, columns), columns[0], title, x);
    PointsRow(x, sheet, columns[0], title);
    forall i: nat, j: nat ensures i < |sheet.rows| && j < |sheet.rows| ==> (Agree(sheet, columns, i, j) <==> SameKey(sheet, columns, i, j)) {}
    if x in DuplicateIssues(sheet, columns, title) {
      var i: nat :| DuplicateMask(sheet, columns)(i) && Points(x, sheet, i, columns[0], title);
      var j: nat :| j < |sheet.rows| && j != i && SameKey(sheet, columns, i, j);
      assert Agree(sheet, columns, i, j);
    }
    if i: nat, j: nat :| i != j && Points(x, sheet, i, columns[0], title) && Agree(sheet, columns, i, j) {
      assert SameKey(sheet, columns, i, j);
      assert DuplicateMask(sheet, columns)(i);
    }
  }

  lemma FrequencyIssuesMean(sheet: Sheet, allowed: set<string>, x: Issue)
    ensures x in FrequencyIssues(sheet, allowed)
       <==> "Repayment Frequency" in sheet.columns
            && exists i: nat :: Points(x, sheet, i, "Repayment Frequency", "Unsupported Repayment Frequency (EC-09)")
                 && sheet.At(i, "Repayment Frequency").present && Upper(sheet.At(i, "Repayment Frequency").text) !in allowed
  {
    hide Points, Upper;
    BlocksAre(sheet, FrequencyMask(sheet, allowed), "Repayment Frequency", UNSUPPORTED_FREQUENCY, x);
    PointsRow(x, sheet, "Repayment Frequency", UNSUPPORTED_FREQUENCY);
  }

  /** Upper-casing changes the lower-case letters only, to the capital of the same place in the alphabet. */
  lemma UpperMeans(s: string, i: nat)
    requires i < |s|
    ensures |Upper(s)| == |s|
    ensures s[i] < 'a' || s[i] > 'z' ==> Upper(s)[i] == s[i]
    ensures 'a' <= s[i] <= 'z' ==> 'A' <= Upper(s)[i] <= 'Z' && Upper(s)[i] as int - 'A' as int == s[i] as int - 'a' as int
  {}

  lemma {:induction false} MissingIssuesMean(sheet: Sheet, required: seq<string>, x: Issue)
    ensures x in MissingIssues(sheet, required)
       <==> exists c :: c in required && c !in sheet.columns && x == Issue(Block, "Missing required column", HeaderRow, c)
  {
    if required != [] {
      var front := required[..|required| - 1];
      MissingIssuesMean(sheet, front, x);
      assert required == front + [required[|required| - 1]];
    }
  }

  lemma ExtraIssuesMean(sheet: Sheet, known: set<string>, x: Issue)
    ensures x in ExtraIssues(sheet, known)
       <==> exists c :: c in sheet.columns && c !in known && x == Issue(Block, "Unknown collateral column (EC-02)", HeaderRow, c)
  {
    RowIssuesAre(|sheet.columns|, ExtraMask(sheet, known), MakeExtra(sheet), x);
    if c :| c in sheet.columns && c !in known && x == Issue(Block, "Unknown collateral column (EC-02)", HeaderRow, c) {
      var i: nat :| i < |sheet.columns| && sheet.columns[i] == c;
      assert ExtraMask(sheet, known)(i) && x == MakeExtra(sheet)(i);
    }
  }

  /** How many of the rows below n have a value outside the set that reads so. */
  function BadRows(sheet: Sheet, column: string, allowed: set<string>, value: string, n: nat): nat
    requires n <= |sheet.rows|
  {
    if n == 0 then 0
    else
      var cell := sheet.At(n - 1, column);
      BadRows(sheet, column, allowed, value, n - 1) + if cell.present && cell.text !in allowed && cell.raw == value then 1 else 0
  }

  lemma {:induction false} OccursAppend(s: seq<string>, t: seq<string>, value: string)
    ensures Occurrences(s + t, value) == Occurrences(s, value) + Occurrences(t, value)
  {
    if s == [] {
      assert s + t == t;
    } else {
      assert (s + t)[1..] == s[1..] + t;
      OccursAppend(s[1..], t, value);
    }
  }

  lemma OccursOnce(s: seq<string>, text: string, value: string)
    ensures Occurrences(s + [text], value) == Occurrences(s, value) + if text == value then 1 else 0
    ensures value in s + [text] <==> value in s || text == value
  {
    OccursAppend(s, [text], value);
    assert [text][1..] == [];
  }

  lemma {:induction false} MaskedOccur(sheet: Sheet, column: string, allowed: set<string>, value: string, n: nat)
    requires n <= |sheet.rows|
    ensures Occurrences(MaskedValues(sheet, column, EnumMask(sheet, column, allowed), n), value) == BadRows(sheet, column, allowed, value, n)
    ensures value in MaskedValues(sheet, column, EnumMask(sheet, column, allowed), n) <==> BadRows(sheet, column, allowed, value, n) > 0
  {
    if n != 0 {
      hide Occurrences;
      MaskedOccur(sheet, column, allowed, value, n - 1);
      var mask := EnumMask(sheet, column, allowed);
      var before := MaskedValues(sheet, column, mask, n - 1);
      if mask(n - 1) {
        OccursOnce(before, sheet.At(n - 1, column).raw, value);
      } else {
        assert MaskedValues(sheet, column, mask, n) == before;
      }
    }
  }

  /** The issue for one value of a column and the number of rows that have it. */
  function ForValue(column: string, title: string, count: nat, v: string): Issue { Issue(Block, title, InColumn(column, count), v) }

  lemma {:induction false} GroupIssuesAre(values: seq<string>, groups: seq<string>, column: string, title: string, x: Issue)
    ensures x in GroupIssues(values, groups, column, title)
       <==> exists v :: v in groups && x == ForValue(column, title, Occurrences(values, v), v)
  {
    hide Occurrences;
    if groups != [] {
      var front, last := groups[..|groups| - 1], groups[|groups| - 1];
      GroupIssuesAre(values, front, column, title, x);
      assert groups == front + [last];
      if x == ForValue(column, title, Occurrences(values, last), last) {
        assert last in groups;
      }
      if v :| v in groups && x == ForValue(column, title, Occurrences(values, v), v) {
        assert v in front || v == last;
      }
    }
  }

  /** The grouped check: one issue for each distinct value outside the set, with the number of rows that have it. */
  lemma GroupedIssuesMean(sheet: Sheet, column: string, allowed: set<string>, title: string, x: Issue)
    ensures x in GroupedIssues(sheet, column, allowed, title)
       <==> column in sheet.columns
            && exists v :: BadRows(sheet, column, allowed, v, |sheet.rows|) > 0
                 && x == ForValue(column, title, BadRows(sheet, column, allowed, v, |sheet.rows|), v)
  {
    hide BadRows, Occurrences, MaskedValues, GroupIssues, ForValue;
    var values := MaskedValues(sheet, column, EnumMask(sheet, column, allowed), |sheet.rows|);
    var groups := Text.SortedDistinct(values);
    Text.SortedDistinctSpec(values);
    GroupIssuesAre(values, groups, column, title, x);
    if x in GroupedIssues(sheet, column, allowed, title) {
      var v :| v in groups && x == ForValue(column, title, Occurrences(values, v), v);
      MaskedOccur(sheet, column, allowed, v, |sheet.rows|);
    }
    if v :| BadRows(sheet, column, allowed, v, |sheet.rows|) > 0
            && x == ForValue(column, title, BadRows(sheet, column, allowed, v, |sheet.rows|), v) {
      MaskedOccur(sheet, column, allowed, v, |sheet.rows|);
      assert v in groups;
    }
  }

  /** An alias resolves to the first of its names that is a column. */
  lemma {:induction false} ResolveMeans(sheet: Sheet, names: seq<string>, k: nat)
    requires k < |names|
    ensures Resolve(sheet, names) == Some(names[k]) <== names[k] in sheet.columns && forall j :: 0 <= j < k ==> names[j] !in sheet.columns
    ensures Resolve(sheet, names) == None ==> names[k] !in sheet.columns
  {
    if k > 0 {
      ResolveMeans(sheet, names[1..], k - 1);
    }
  }
}
