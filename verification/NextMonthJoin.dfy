/**
 * The first half of compute_pd: snapshots are deduplicated and joined with the same loan's next-month staging.
 */
module NextMonthJoin {
  import opened Wrappers
  import opened TransitionMatrix
  import opened Calendar

  datatype Snapshot = Snapshot(loan: string, month: Date, staging: Staging, amount: real, segment: Option<string>)

  datatype Joined = Joined(row: Snapshot, next: Staging)

  // ----- Deduplication and the next-month join (pd_engine.py:94-108) -----

  predicate SameKey(a: Snapshot, b: Snapshot) { a.loan == b.loan && a.month == b.month }

  predicate HasKeyOf(rows: seq<Snapshot>, r: Snapshot) { exists k :: 0 <= k < |rows| && SameKey(rows[k], r) }

  /** drop_duplicates(["Loan ID", "Reporting Month"], keep="first"). */
  function Dedupe(rows: seq<Snapshot>): seq<Snapshot> {
    if rows == [] then []
    else
      var last := rows[|rows| - 1];
      var kept := Dedupe(rows[..|rows| - 1]);
      if HasKeyOf(kept, last) then kept else kept + [last]
  }

  predicate UniqueKeys(rows: seq<Snapshot>) {
    forall i, j :: 0 <= i < j < |rows| ==> !SameKey(rows[i], rows[j])
  }

  /** s carries the next-month staging of r: same loan, and s's date moved back one month is r's date. */
  predicate Follows(s: Snapshot, r: Snapshot) {
    s.loan == r.loan && AddMonths(s.month, -1) == r.month
  }

  function FillMissing(s: Staging): Staging { if s.Missing? then Offbooks else s }

  /** The left merge of one row: one joined row per match, in lookup order. */
  function Matches(lookup: seq<Snapshot>, r: Snapshot): seq<Joined> {
    if lookup == [] then []
    else (if Follows(lookup[0], r) then [Joined(r, FillMissing(lookup[0].staging))] else []) + Matches(lookup[1..], r)
  }

  function NextMonth(lookup: seq<Snapshot>, r: Snapshot): seq<Joined> {
    var matches := Matches(lookup, r);
    if matches == [] then [Joined(r, Offbooks)] else matches
  }

  function JoinNext(lookup: seq<Snapshot>, rows: seq<Snapshot>): seq<Joined> {
    if rows == [] then [] else NextMonth(lookup, rows[0]) + JoinNext(lookup, rows[1..])
  }

  /** No loan has two rows in one calendar month. */
  predicate OneRowPerMonth(rows: seq<Snapshot>) {
    forall i, j :: 0 <= i < j < |rows| && rows[i].loan == rows[j].loan
      ==> rows[i].month.Index() != rows[j].month.Index()
  }

  lemma UniqueSnoc(rows: seq<Snapshot>, last: Snapshot)
    ensures UniqueKeys(rows + [last]) <==> UniqueKeys(rows) && !HasKeyOf(rows, last)
  {
    hide SameKey;
    var all := rows + [last];
    assert all[..|rows|] == rows;
    if UniqueKeys(all) {
      forall k | 0 <= k < |rows| ensures !SameKey(rows[k], last) {
        assert all[k] == rows[k] && all[|rows|] == last;
      }
      forall i, j | 0 <= i < j < |rows| ensures !SameKey(rows[i], rows[j]) {
        assert all[i] == rows[i] && all[j] == rows[j];
      }
    }
  }

  /** Deduplication leaves unique keys, from the input, and changes nothing where keys were unique. */
  lemma {:induction false} DedupeUnique(rows: seq<Snapshot>)
    ensures UniqueKeys(Dedupe(rows))
    ensures forall r :: r in Dedupe(rows) ==> r in rows
    ensures UniqueKeys(rows) ==> Dedupe(rows) == rows
  {
    hide HasKeyOf, UniqueKeys;
    if rows == [] {
      NoKeysTwice();
    } else {
      var front, last := rows[..|rows| - 1], rows[|rows| - 1];
      DedupeUnique(front);
      assert rows == front + [last];
      UniqueSnoc(front, last);
      UniqueSnoc(Dedupe(front), last);
    }
  }

  lemma NoKeysTwice()
    ensures UniqueKeys([])
  {}

  lemma HasKeySnoc(rows: seq<Snapshot>, last: Snapshot, r: Snapshot)
    ensures HasKeyOf(rows + [last], r) <==> HasKeyOf(rows, r) || SameKey(last, r)
  {
    hide SameKey;
    if HasKeyOf(rows, r) {
      var k :| 0 <= k < |rows| && SameKey(rows[k], r);
      assert (rows + [last])[k] == rows[k];
    }
    assert (rows + [last])[|rows|] == last;
  }

  /** Every key survives deduplication, and no key appears that was not there. */
  lemma {:induction false} DedupeKeepsKeys(rows: seq<Snapshot>, r: Snapshot)
    ensures HasKeyOf(Dedupe(rows), r) <==> HasKeyOf(rows, r)
  {
    if rows != [] {
      var front, last := rows[..|rows| - 1], rows[|rows| - 1];
      DedupeKeepsKeys(front, r);
      DedupeKeepsKeys(front, last);
      assert rows == front + [last];
      HasKeySnoc(front, last, r);
      HasKeySnoc(Dedupe(front), last, r);
      if HasKeyOf(Dedupe(front), last) && SameKey(last, r) {
        var k :| 0 <= k < |Dedupe(front)| && SameKey(Dedupe(front)[k], last);
        assert SameKey(Dedupe(front)[k], r);
      }
    }
  }

  /** Row i is the first with its Loan ID and date. */
  predicate FirstOfKey(rows: seq<Snapshot>, i: int) {
    0 <= i < |rows| && forall j :: 0 <= j < i ==> rows[j].loan != rows[i].loan || rows[j].month != rows[i].month
  }

  lemma FirstHasNoKey(rows: seq<Snapshot>, i: nat)
    requires i < |rows|
    ensures FirstOfKey(rows, i) <==> !HasKeyOf(rows[..i], rows[i])
  {
    if HasKeyOf(rows[..i], rows[i]) {
      var k :| 0 <= k < i && SameKey(rows[..i][k], rows[i]);
      assert rows[..i][k] == rows[k];
    } else {
      forall j | 0 <= j < i ensures rows[j].loan != rows[i].loan || rows[j].month != rows[i].month {
        assert rows[..i][j] == rows[j];
      }
    }
  }

  /** r stands in rows as the first row of its key. */
  ghost predicate Leads(rows: seq<Snapshot>, r: Snapshot) { exists i :: FirstOfKey(rows, i) && rows[i] == r }

  lemma LeadsSnoc(rows: seq<Snapshot>, last: Snapshot, r: Snapshot)
    ensures Leads(rows + [last], r) <==> Leads(rows, r) || (r == last && !HasKeyOf(rows, last))
  {
    hide HasKeyOf;
    var all, n := rows + [last], |rows|;
    assert all[..n] == rows;
    FirstHasNoKey(all, n);
    if i :| FirstOfKey(all, i) && all[i] == r {
      assert i == n || (all[..i] == rows[..i] && FirstOfKey(rows, i));
    }
    if i :| FirstOfKey(rows, i) && rows[i] == r {
      assert all[..i] == rows[..i] && FirstOfKey(all, i);
    }
    if !HasKeyOf(rows, last) {
      assert FirstOfKey(all, n);
    }
  }

  /** What deduplication keeps is exactly the first row of every key. */
  lemma {:induction false} DedupeKeepsFirst(rows: seq<Snapshot>, r: Snapshot)
    ensures r in Dedupe(rows) <==> Leads(rows, r)
  {
    if rows != [] {
      var front, last := rows[..|rows| - 1], rows[|rows| - 1];
      DedupeKeepsFirst(front, r);
      DedupeKeepsKeys(front, last);
      assert rows == front + [last];
      LeadsSnoc(front, last, r);
    }
  }

  lemma {:induction false} MatchesNone(lookup: seq<Snapshot>, r: Snapshot)
    requires forall s :: s in lookup ==> !Follows(s, r)
    ensures Matches(lookup, r) == []
  {
    if lookup != [] {
      MatchesNone(lookup[1..], r);
    }
  }

  lemma {:induction false} MatchesSome(lookup: seq<Snapshot>, r: Snapshot, k: nat)
    requires k < |lookup| && Follows(lookup[k], r)
    ensures Matches(lookup, r) != []
  {
    if k > 0 {
      MatchesSome(lookup[1..], r, k - 1);
    }
  }

  /** Two rows of the lookup both carry the next-month staging of r. */
  predicate TwoFollowers(lookup: seq<Snapshot>, r: Snapshot) {
    exists j, k :: 0 <= j < k < |lookup| && Follows(lookup[j], r) && Follows(lookup[k], r)
  }

  lemma {:induction false} MatchesOne(lookup: seq<Snapshot>, r: Snapshot, k: nat)
    requires !TwoFollowers(lookup, r) && k < |lookup| && Follows(lookup[k], r)
    ensures Matches(lookup, r) == [Joined(r, FillMissing(lookup[k].staging))]
  {
    hide Follows;
    if k == 0 {
      forall s | s in lookup[1..] ensures !Follows(s, r) {
        var j :| 1 <= j < |lookup| && lookup[j] == s;
      }
      MatchesNone(lookup[1..], r);
    } else {
      assert !Follows(lookup[0], r);
      FewerFollowers(lookup, r);
      MatchesOne(lookup[1..], r, k - 1);
    }
  }

  lemma FewerFollowers(lookup: seq<Snapshot>, r: Snapshot)
    requires lookup != [] && !TwoFollowers(lookup, r)
    ensures !TwoFollowers(lookup[1..], r)
  {
    hide Follows;
    forall j, k | 0 <= j < k < |lookup[1..]| ensures !(Follows(lookup[1..][j], r) && Follows(lookup[1..][k], r)) {
      assert lookup[1..][j] == lookup[j + 1] && lookup[1..][k] == lookup[k + 1];
    }
  }

  /** A loan with one row per month is never doubled by the join. */
  lemma OneRowNoTwo(lookup: seq<Snapshot>, r: Snapshot)
    requires OneRowPerMonth(lookup)
    ensures !TwoFollowers(lookup, r)
  {
    forall j, k | 0 <= j < k < |lookup| ensures !(Follows(lookup[j], r) && Follows(lookup[k], r)) {
      ShiftBackLandsOn(lookup[j].month, r.month);
      ShiftBackLandsOn(lookup[k].month, r.month);
    }
  }

  /** The next staging of r when no month is doubled: that of the one following row, Offbooks if none or missing. */
  ghost predicate NextStagingIs(lookup: seq<Snapshot>, r: Snapshot, next: Staging) {
    if exists s :: s in lookup && Follows(s, r)
    then exists s :: s in lookup && Follows(s, r) && next == FillMissing(s.staging)
    else next == Offbooks
  }

  lemma NextMonthOne(lookup: seq<Snapshot>, r: Snapshot)
    requires !TwoFollowers(lookup, r)
    ensures |NextMonth(lookup, r)| == 1 && NextMonth(lookup, r)[0].row == r
    ensures NextStagingIs(lookup, r, NextMonth(lookup, r)[0].next)
  {
    if s :| s in lookup && Follows(s, r) {
      var k :| 0 <= k < |lookup| && lookup[k] == s;
      MatchesOne(lookup, r, k);
    } else {
      MatchesNone(lookup, r);
    }
  }

  /** No row finds two next-month rows. */
  predicate NoneDoubled(lookup: seq<Snapshot>, rows: seq<Snapshot>) {
    forall i :: 0 <= i < |rows| ==> !TwoFollowers(lookup, rows[i])
  }

  /** Where no row finds two next-month rows, the join keeps every row exactly once, in order. */
  lemma {:induction false} JoinKeepsRows(lookup: seq<Snapshot>, rows: seq<Snapshot>)
    requires NoneDoubled(lookup, rows)
    ensures |JoinNext(lookup, rows)| == |rows|
    ensures forall i :: 0 <= i < |rows| ==>
              && JoinNext(lookup, rows)[i].row == rows[i]
              && NextStagingIs(lookup, rows[i], JoinNext(lookup, rows)[i].next)
  {
    hide NextMonth, NextStagingIs, TwoFollowers;
    if rows != [] {
      NextMonthOne(lookup, rows[0]);
      JoinKeepsRows(lookup, rows[1..]);
    }
  }

  lemma {:induction false} MatchesDoubled(lookup: seq<Snapshot>, r: Snapshot, j: nat, k: nat)
    requires j < k < |lookup| && Follows(lookup[j], r) && Follows(lookup[k], r)
    ensures |Matches(lookup, r)| >= 2
  {
    hide Follows;
    if j == 0 {
      MatchesSome(lookup[1..], r, k - 1);
    } else {
      MatchesDoubled(lookup[1..], r, j - 1, k - 1);
    }
  }

  /** The join keeps the number of rows exactly when no row finds two next-month rows; otherwise it adds some. */
  lemma {:induction false} JoinKeepsExactly(lookup: seq<Snapshot>, rows: seq<Snapshot>)
    ensures |JoinNext(lookup, rows)| >= |rows|
    ensures |JoinNext(lookup, rows)| == |rows| <==> NoneDoubled(lookup, rows)
  {
    hide Follows, Matches;
    if rows != [] {
      JoinKeepsExactly(lookup, rows[1..]);
      if TwoFollowers(lookup, rows[0]) {
        var j, k :| 0 <= j < k < |lookup| && Follows(lookup[j], rows[0]) && Follows(lookup[k], rows[0]);
        MatchesDoubled(lookup, rows[0], j, k);
      } else {
        NextMonthOne(lookup, rows[0]);
      }
      assert forall i :: 0 <= i < |rows[1..]| ==> rows[1..][i] == rows[i + 1];
      assert NoneDoubled(lookup, rows) <==> !TwoFollowers(lookup, rows[0]) && NoneDoubled(lookup, rows[1..]) by {
        if !TwoFollowers(lookup, rows[0]) && NoneDoubled(lookup, rows[1..]) {
          forall i | 0 <= i < |rows| ensures !TwoFollowers(lookup, rows[i]) {
            assert i == 0 || rows[i] == rows[1..][i - 1];
          }
        }
      }
    }
  }

  lemma OneRowNoneDoubled(rows: seq<Snapshot>)
    requires OneRowPerMonth(rows)
    ensures NoneDoubled(rows, rows)
  {
    forall i | 0 <= i < |rows| ensures !TwoFollowers(rows, rows[i]) {
      OneRowNoTwo(rows, rows[i]);
    }
  }

  /** On a fixed day up to the 28th, r is followed exactly by the same loan's row one month later. */
  lemma FixedDayFollows(s: Snapshot, r: Snapshot)
    requires s.month.day == r.month.day <= 28
    ensures Follows(s, r) <==> s.loan == r.loan && s.month == AddMonths(r.month, 1)
  {
    ShiftBackLandsOn(s.month, r.month);
    AddMonthsIndex(r.month, 1);
    BeforeByIndex(s.month, AddMonths(r.month, 1));
  }

  /** On month ends, the transition out of r is recorded exactly when the next month is not the shorter one. */
  lemma MonthEndFollows(s: Snapshot, r: Snapshot)
    requires s.month.MonthEnd() && r.month.MonthEnd()
    ensures Follows(s, r) <==> s.loan == r.loan && s.month.Index() == r.month.Index() + 1 && r.month.day <= s.month.day
  {
    ShiftBackLandsOn(s.month, r.month);
  }

  /** A portfolio reported on one fixed day up to the 28th: every row gets its own next-month staging, or Offbooks. */
  lemma FixedDayJoin(rows: seq<Snapshot>, day: int, i: nat)
    requires day <= 28 && UniqueKeys(rows) && i < |rows|
    requires forall r :: r in rows ==> r.month.day == day
    ensures |JoinNext(rows, rows)| == |rows| && JoinNext(rows, rows)[i].row == rows[i]
    ensures forall s :: s in rows && s.loan == rows[i].loan && s.month == AddMonths(rows[i].month, 1)
              ==> JoinNext(rows, rows)[i].next == FillMissing(s.staging)
    ensures (forall s :: s in rows && s.loan == rows[i].loan ==> s.month != AddMonths(rows[i].month, 1))
              ==> JoinNext(rows, rows)[i].next == Offbooks
  {
    forall a, b | 0 <= a < b < |rows| && rows[a].loan == rows[b].loan
      ensures rows[a].month.Index() != rows[b].month.Index()
    {
      BeforeByIndex(rows[a].month, rows[b].month);
    }
    OneRowNoneDoubled(rows);
    JoinKeepsRows(rows, rows);
    forall s | s in rows ensures Follows(s, rows[i]) <==> s.loan == rows[i].loan && s.month == AddMonths(rows[i].month, 1) {
      FixedDayFollows(s, rows[i]);
    }
    forall s, t | s in rows && t in rows && Follows(s, rows[i]) && Follows(t, rows[i]) ensures s == t {
      assert SameKey(s, t);
    }
  }

  /** A portfolio reported on month ends: a row's transition is lost exactly when the next month is shorter. */
  lemma MonthEndJoin(rows: seq<Snapshot>, i: nat, s: Snapshot)
    requires UniqueKeys(rows) && i < |rows| && s in rows
    requires forall r :: r in rows ==> r.month.MonthEnd()
    requires s.loan == rows[i].loan && s.month.Index() == rows[i].month.Index() + 1
    ensures |JoinNext(rows, rows)| == |rows| && JoinNext(rows, rows)[i].row == rows[i]
    ensures JoinNext(rows, rows)[i].next
         == if rows[i].month.day <= s.month.day then FillMissing(s.staging) else Offbooks
  {
    forall a, b | 0 <= a < b < |rows| && rows[a].loan == rows[b].loan
      ensures rows[a].month.Index() != rows[b].month.Index()
    {
      BeforeByIndex(rows[a].month, rows[b].month);
    }
    OneRowNoneDoubled(rows);
    JoinKeepsRows(rows, rows);
    forall t | t in rows && t.loan == s.loan && t.month.Index() == s.month.Index() ensures t == s {
      BeforeByIndex(t.month, s.month);
      assert SameKey(s, t);
    }
    forall t | t in rows
      ensures Follows(t, rows[i]) <==> t == s && rows[i].month.day <= s.month.day
    {
      MonthEndFollows(t, rows[i]);
    }
  }

  /** The shipped test data: of the three month-to-month transitions its README counts, only February to March is recorded. */
  lemma TestDataTransitions(jan: Snapshot, feb: Snapshot, mar: Snapshot, apr: Snapshot)
    requires jan.loan == feb.loan == mar.loan == apr.loan
    requires jan.month == RawDate.Date(2025, 1, 31) && feb.month == RawDate.Date(2025, 2, 28)
    requires mar.month == RawDate.Date(2025, 3, 31) && apr.month == RawDate.Date(2025, 4, 30)
    ensures !Follows(feb, jan) && Follows(mar, feb) && !Follows(apr, mar)
  {}
}
