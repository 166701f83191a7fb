/** process_email_outbox: a bounded-retry queue polled in batches of 100. */
module Outbox {

  const BATCH := 100
  const MAX_ATTEMPTS := 5

  datatype RowStatus = Pending | Dispatched | DeadLetter

  /** One outbox row; `known` says whether its task name is in the dispatch table. */
  datatype Row = Row(known: bool, status: RowStatus, attempts: nat)

  /** Whether the broker accepts the email job of the row at an index, for one poll. */
  type Broker = nat -> bool

  /** What one pass of the loop body does to a row. */
  function Attempt(row: Row, accepted: bool): Row {
    var tried := row.(attempts := row.attempts + 1);
    if !row.known then tried.(status := DeadLetter)
    else if accepted then tried.(status := Dispatched)
    else if tried.attempts >= MAX_ATTEMPTS then tried.(status := DeadLetter)
    else tried
  }

  function PendingCount(rows: seq<Row>): nat {
    if rows == [] then 0
    else PendingCount(rows[..|rows| - 1]) + if rows[|rows| - 1].status == Pending then 1 else 0
  }

  /** Row i is selected: pending, with fewer than 100 pending rows created before it. */
  predicate Chosen(rows: seq<Row>, i: nat)
    requires i < |rows|
  {
    rows[i].status == Pending && PendingCount(rows[..i]) < BATCH
  }

  /** The table after one poll; rows are in creation order. */
  function Polled(rows: seq<Row>, broker: Broker): (after: seq<Row>)
    ensures |after| == |rows|
    ensures forall i :: 0 <= i < |rows| ==> after[i] == if Chosen(rows, i) then Attempt(rows[i], broker(i)) else rows[i]
  {
    seq(|rows|, i requires 0 <= i < |rows| => if Chosen(rows, i) then Attempt(rows[i], broker(i)) else rows[i])
  }

  /** How often each row's task has been enqueued, after one poll. */
  function Sent(rows: seq<Row>, sent: seq<nat>, broker: Broker): (after: seq<nat>)
    requires |sent| == |rows|
    ensures |after| == |rows|
  {
    seq(|rows|, i requires 0 <= i < |rows| =>
      if Chosen(rows, i) && rows[i].known && broker(i) then sent[i] + 1 else sent[i])
  }

  class EmailOutbox {
    var rows: seq<Row>
    var sent: seq<nat>

    /** SELECT ... WHERE status = 'pending' ORDER BY created_at LIMIT 100. */
    method SelectPending() returns (selected: seq<nat>)
      ensures forall k :: 0 <= k < |selected| ==> selected[k] < |rows| && Chosen(rows, selected[k])
      ensures forall j, k :: 0 <= j < k < |selected| ==> selected[j] < selected[k]
      ensures forall i :: 0 <= i < |rows| && Chosen(rows, i) ==> i in selected
      ensures |selected| == if PendingCount(rows) < 100 then PendingCount(rows) else 100
    {
      selected := [];
      for i := 0 to |rows|
        invariant forall k :: 0 <= k < |selected| ==> selected[k] < i && Chosen(rows, selected[k])
        invariant forall j, k :: 0 <= j < k < |selected| ==> selected[j] < selected[k]
        invariant forall j :: 0 <= j < i && Chosen(rows, j) ==> j in selected
        invariant |selected| == if PendingCount(rows[..i]) < BATCH then PendingCount(rows[..i]) else BATCH
      {
        assert rows[..i + 1][..i] == rows[..i];
        if rows[i].status == Pending && |selected| < BATCH {
          selected := selected + [i];
        }
      }
      assert rows[..|rows|] == rows;
    }

    /** The loop body for one selected row. */
    method HandleRow(i: nat, accepted: bool) returns (outcome: RowStatus)
      requires i < |rows| == |sent|
      modifies this
      ensures rows == old(rows)[i := Attempt(old(rows)[i], accepted)]
      ensures sent == if old(rows)[i].known && accepted then old(sent)[i := old(sent)[i] + 1] else old(sent)
      ensures old(rows)[i].status == Pending ==> outcome == rows[i].status
    {
      var row := rows[i].(attempts := rows[i].attempts + 1);
      if !row.known {
        row := row.(status := DeadLetter);
        outcome := DeadLetter;
      } else if accepted {
        sent := sent[i := sent[i] + 1];
        row := row.(status := Dispatched);
        outcome := Dispatched;
      } else if row.attempts >= 5 {
        row := row.(status := DeadLetter);
        outcome := DeadLetter;
      } else {
        outcome := Pending;
      }
      rows := rows[i := row];
    }

    /** One poll, committed: the counters split what was found, and the rows and enqueues follow the specification. */
    method ProcessOutbox(broker: Broker) returns (found: nat, dispatched: nat, deadLettered: nat, skipped: nat)
      requires |sent| == |rows|
      modifies this
      ensures rows == Polled(old(rows), broker)
      ensures sent == Sent(old(rows), old(sent), broker)
      ensures found == dispatched + deadLettered + skipped
      ensures found == if PendingCount(old(rows)) < 100 then PendingCount(old(rows)) else 100
      ensures dispatched == |Became(old(rows), rows, Dispatched)| && deadLettered == |Became(old(rows), rows, DeadLetter)|
    {
      hide PendingCount, Attempt, Handled, Became, Polled, Sent;
      var selected := SelectPending();
      ghost var rows0, sent0 := rows, sent;
      found, dispatched, deadLettered, skipped := |selected|, 0, 0, 0;
      NothingHandled(rows0, sent0, broker);
      for k := 0 to |selected|
        invariant |rows| == |sent| == |rows0|
        invariant Handled(rows0, sent0, rows, sent, broker, selected[..k])
        invariant dispatched + deadLettered + skipped == k
        invariant dispatched == |Became(rows0, rows, Dispatched)| && deadLettered == |Became(rows0, rows, DeadLetter)|
      {
        var i := selected[k];
        assert i !in selected[..k];
        assert selected[..k + 1] == selected[..k] + [i];
        ghost var before, sentBefore := rows, sent;
        var outcome := HandleRow(i, broker(i));
        OneMoreHandled(rows0, sent0, before, sentBefore, rows, sent, broker, selected[..k], i);
        match outcome
        case Dispatched => dispatched := dispatched + 1;
        case DeadLetter => deadLettered := deadLettered + 1;
        case Pending => skipped := skipped + 1;
      }
      assert selected[..|selected|] == selected;
      AllHandled(rows0, sent0, rows, sent, broker, selected);
    }
  }

  /** The rows of `done` are handled, the others are as they were. */
  ghost predicate Handled(rows0: seq<Row>, sent0: seq<nat>, rows: seq<Row>, sent: seq<nat>, broker: Broker, done: seq<nat>) {
    && |rows| == |rows0| == |sent| == |sent0|
    && (forall i :: 0 <= i < |rows0| && i !in done ==> rows[i] == rows0[i] && sent[i] == sent0[i])
    && (forall i :: 0 <= i < |rows0| && i in done ==>
          rows[i] == Attempt(rows0[i], broker(i)) && sent[i] == sent0[i] + if rows0[i].known && broker(i) then 1 else 0)
  }

  /** The rows that left the pending status for the given one. */
  function Became(before: seq<Row>, after: seq<Row>, status: RowStatus): set<nat> {
    set i: nat | i < |before| && i < |after| && before[i].status == Pending && after[i].status == status
  }

  lemma NothingHandled(rows0: seq<Row>, sent0: seq<nat>, broker: Broker)
    requires |sent0| == |rows0|
    ensures Handled(rows0, sent0, rows0, sent0, broker, [])
    ensures Became(rows0, rows0, Dispatched) == {} && Became(rows0, rows0, DeadLetter) == {}
  {}

  lemma OneMoreHandled(rows0: seq<Row>, sent0: seq<nat>, rows: seq<Row>, sent: seq<nat>, after: seq<Row>, sentAfter: seq<nat>,
                       broker: Broker, done: seq<nat>, i: nat)
    requires Handled(rows0, sent0, rows, sent, broker, done) && i < |rows0| && i !in done && rows0[i].status == Pending
    requires after == rows[i := Attempt(rows[i], broker(i))]
    requires sentAfter == if rows[i].known && broker(i) then sent[i := sent[i] + 1] else sent
    ensures Handled(rows0, sent0, after, sentAfter, broker, done + [i])
    ensures rows[i].status == Pending
    ensures |Became(rows0, after, Dispatched)| == |Became(rows0, rows, Dispatched)| + if after[i].status == Dispatched then 1 else 0
    ensures |Became(rows0, after, DeadLetter)| == |Became(rows0, rows, DeadLetter)| + if after[i].status == DeadLetter then 1 else 0
  {
    hide Attempt, Became;
    BecameStep(rows0, rows, i, after[i], Dispatched);
    BecameStep(rows0, rows, i, after[i], DeadLetter);
  }

  lemma BecameStep(rows0: seq<Row>, rows: seq<Row>, i: nat, row: Row, status: RowStatus)
    requires i < |rows0| == |rows| && rows0[i].status == rows[i].status == Pending && status != Pending
    ensures |Became(rows0, rows[i := row], status)| == |Became(rows0, rows, status)| + if row.status == status then 1 else 0
  {
    var before, after := Became(rows0, rows, status), Became(rows0, rows[i := row], status);
    if row.status == status {
      assert after == before + {i};
    } else {
      assert after == before;
    }
  }

  lemma AllHandled(rows0: seq<Row>, sent0: seq<nat>, rows: seq<Row>, sent: seq<nat>, broker: Broker, selected: seq<nat>)
    requires Handled(rows0, sent0, rows, sent, broker, selected)
    requires forall k :: 0 <= k < |selected| ==> selected[k] < |rows0| && Chosen(rows0, selected[k])
    requires forall i :: 0 <= i < |rows0| && Chosen(rows0, i) ==> i in selected
    ensures rows == Polled(rows0, broker) && sent == Sent(rows0, sent0, broker)
  {
    hide Attempt, PendingCount;
  }

  // ----- Whole histories of polls -----

  /** A poll that commits, or one that is lost before its commit after handling the first rows. */
  datatype Poll = Commit(broker: Broker) | Lost(broker: Broker, upTo: nat)

  datatype Queue = Queue(rows: seq<Row>, sent: seq<nat>)

  /** A lost poll has enqueued for some selected rows but its row updates are rolled back. */
  function LostSent(rows: seq<Row>, sent: seq<nat>, broker: Broker, upTo: nat): (after: seq<nat>)
    requires |sent| == |rows|
    ensures |after| == |rows|
  {
    seq(|rows|, i requires 0 <= i < |rows| =>
      if i < upTo && Chosen(rows, i) && rows[i].known && broker(i) then sent[i] + 1 else sent[i])
  }

  function AfterOne(q: Queue, poll: Poll): (r: Queue)
    requires |q.sent| == |q.rows|
    ensures |r.sent| == |r.rows| == |q.rows|
  {
    match poll
    case Commit(broker) => Queue(Polled(q.rows, broker), Sent(q.rows, q.sent, broker))
    case Lost(broker, upTo) => Queue(q.rows, LostSent(q.rows, q.sent, broker, upTo))
  }

  function After(q: Queue, polls: seq<Poll>): (r: Queue)
    requires |q.sent| == |q.rows|
    ensures |r.sent| == |r.rows| == |q.rows|
    decreases |polls|
  {
    if polls == [] then q else After(AfterOne(q, polls[0]), polls[1..])
  }

  /** A pending row has attempts left, and a dispatched row was enqueued. */
  predicate Sound(q: Queue) {
    && |q.sent| == |q.rows|
    && forall i :: 0 <= i < |q.rows| ==>
         && (q.rows[i].status == Pending ==> q.rows[i].attempts <= 4)
         && (q.rows[i].status == Dispatched ==> q.sent[i] >= 1)
  }

  /** Rows as they are first written: pending, never tried, never enqueued. */
  lemma FreshQueue(rows: seq<Row>)
    requires forall i :: 0 <= i < |rows| ==> rows[i].status == Pending && rows[i].attempts == 0
    ensures var q := Queue(rows, seq(|rows|, i => 0)); Sound(q) && ExactlyOnce(q) && AttemptsLeft(q.rows)
  {}

  /** Over every history: pending rows keep an attempt, terminal rows never change, and dispatched means enqueued. */
  lemma {:induction false} HistorySound(q: Queue, polls: seq<Poll>)
    requires Sound(q)
    ensures Sound(After(q, polls))
    ensures forall i :: 0 <= i < |q.rows| && q.rows[i].status != Pending ==> After(q, polls).rows[i] == q.rows[i]
    ensures forall i :: 0 <= i < |q.rows| ==> q.rows[i].attempts <= After(q, polls).rows[i].attempts
    decreases |polls|
  {
    if polls != [] {
      HistorySound(AfterOne(q, polls[0]), polls[1..]);
    }
  }

  /** Each row is enqueued exactly once if it is dispatched and never otherwise. */
  predicate ExactlyOnce(q: Queue) {
    |q.sent| == |q.rows| && forall i :: 0 <= i < |q.rows| ==> q.sent[i] == if q.rows[i].status == Dispatched then 1 else 0
  }

  /** The poll is lost after it has enqueued something. */
  predicate LostAfterSending(q: Queue, poll: Poll) {
    poll.Lost? && exists i :: 0 <= i < |q.rows| && i < poll.upTo && Chosen(q.rows, i) && q.rows[i].known && poll.broker(i)
  }

  /** No poll of the history is lost after it has enqueued something. */
  predicate NothingLostSent(q: Queue, polls: seq<Poll>)
    requires |q.sent| == |q.rows|
    decreases |polls|
  {
    polls == [] || (!LostAfterSending(q, polls[0]) && NothingLostSent(AfterOne(q, polls[0]), polls[1..]))
  }

  /** Some row has been enqueued more often than its status accounts for. */
  predicate Oversent(q: Queue) {
    |q.sent| == |q.rows| && exists i :: 0 <= i < |q.rows| && q.sent[i] > if q.rows[i].status == Dispatched then 1 else 0
  }

  lemma OversentStep(q: Queue, poll: Poll)
    requires Oversent(q)
    ensures Oversent(AfterOne(q, poll))
  {
    hide PendingCount;
    var i :| 0 <= i < |q.rows| && q.sent[i] > if q.rows[i].status == Dispatched then 1 else 0;
    var next := AfterOne(q, poll);
    assert next.sent[i] > if next.rows[i].status == Dispatched then 1 else 0;
  }

  /** An email sent too often stays so. */
  lemma {:induction false} OversentStays(q: Queue, polls: seq<Poll>)
    requires Oversent(q)
    ensures Oversent(After(q, polls))
    decreases |polls|
  {
    hide AfterOne;
    if polls != [] {
      OversentStep(q, polls[0]);
      OversentStays(AfterOne(q, polls[0]), polls[1..]);
    }
  }

  lemma OnceStep(q: Queue, poll: Poll)
    requires ExactlyOnce(q)
    ensures LostAfterSending(q, poll) ==> Oversent(AfterOne(q, poll))
    ensures !LostAfterSending(q, poll) ==> ExactlyOnce(AfterOne(q, poll))
  {
    hide PendingCount;
    if LostAfterSending(q, poll) {
      var i :| 0 <= i < |q.rows| && i < poll.upTo && Chosen(q.rows, i) && q.rows[i].known && poll.broker(i);
      assert AfterOne(q, poll).sent[i] == 1;
    }
  }

  /** Over every history, each dispatched row was enqueued exactly once and no other row at all iff no lost poll had enqueued anything. */
  lemma {:induction false} ExactlyOnceExactly(q: Queue, polls: seq<Poll>)
    requires ExactlyOnce(q)
    ensures ExactlyOnce(After(q, polls)) <==> NothingLostSent(q, polls)
    decreases |polls|
  {
    hide AfterOne, LostAfterSending;
    if polls != [] {
      OnceStep(q, polls[0]);
      if LostAfterSending(q, polls[0]) {
        OversentStays(AfterOne(q, polls[0]), polls[1..]);
      } else {
        ExactlyOnceExactly(AfterOne(q, polls[0]), polls[1..]);
      }
    }
  }

  // ----- The queue drains -----

  lemma {:induction false} CountAppend(s: seq<Row>, t: seq<Row>)
    ensures PendingCount(s + t) == PendingCount(s) + PendingCount(t)
  {
    if t == [] {
      assert s + t == s;
    } else {
      assert (s + t)[..|s + t| - 1] == s + t[..|t| - 1];
      CountAppend(s, t[..|t| - 1]);
    }
  }

  /** Rows that only ever leave the pending status can only lower the count. */
  lemma {:induction false} CountFalls(before: seq<Row>, after: seq<Row>)
    requires |before| == |after|
    requires forall i :: 0 <= i < |before| && after[i].status == Pending ==> before[i].status == Pending
    ensures PendingCount(after) <= PendingCount(before)
  {
    if before != [] {
      CountFalls(before[..|before| - 1], after[..|after| - 1]);
    }
  }

  lemma {:induction false} CountZero(rows: seq<Row>)
    ensures PendingCount(rows) == 0 <==> forall i :: 0 <= i < |rows| ==> rows[i].status != Pending
  {
    if rows != [] {
      CountZero(rows[..|rows| - 1]);
      assert rows == rows[..|rows| - 1] + [rows[|rows| - 1]];
    }
  }

  lemma {:induction false} CountPrefix(rows: seq<Row>, i: nat, c: nat)
    requires i < c <= |rows| && rows[i].status == Pending
    ensures PendingCount(rows[..i]) < PendingCount(rows[..c])
  {
    assert rows[..c] == rows[..i] + ([rows[i]] + rows[i + 1..c]);
    CountAppend(rows[..i], [rows[i]] + rows[i + 1..c]);
    CountAppend([rows[i]], rows[i + 1..c]);
    assert PendingCount([rows[i]]) == PendingCount([rows[i]][..0]) + 1;
  }

  lemma {:induction false} PrefixWith(rows: seq<Row>, m: nat) returns (c: nat)
    requires m <= PendingCount(rows)
    ensures c <= |rows| && PendingCount(rows[..c]) == m
  {
    if PendingCount(rows) == m {
      c := |rows|;
      assert rows[..c] == rows;
    } else {
      var front := rows[..|rows| - 1];
      c := PrefixWith(front, m);
      assert rows[..c] == front[..c];
    }
  }

  predicate AttemptsLeft(rows: seq<Row>) {
    forall i :: 0 <= i < |rows| && rows[i].status == Pending ==> rows[i].attempts < MAX_ATTEMPTS
  }

  /** Every row still pending among the first c has been tried at least k times. */
  predicate Tried(rows: seq<Row>, c: nat, k: nat)
    requires c <= |rows|
  {
    forall i :: 0 <= i < c && rows[i].status == Pending ==> rows[i].attempts >= k
  }

  function Rows(rows: seq<Row>, brokers: seq<Broker>): (after: seq<Row>)
    ensures |after| == |rows|
    decreases |brokers|
  {
    if brokers == [] then rows else Rows(Polled(rows, brokers[0]), brokers[1..])
  }

  lemma PolledPrefix(rows: seq<Row>, broker: Broker, c: nat, k: nat)
    requires c <= |rows| && PendingCount(rows[..c]) <= BATCH && Tried(rows, c, k) && AttemptsLeft(rows)
    ensures PendingCount(Polled(rows, broker)[..c]) <= PendingCount(rows[..c])
    ensures PendingCount(Polled(rows, broker)[c..]) <= PendingCount(rows[c..])
    ensures Tried(Polled(rows, broker), c, k + 1) && AttemptsLeft(Polled(rows, broker))
  {
    hide PendingCount;
    var after := Polled(rows, broker);
    CountFalls(rows[..c], after[..c]);
    CountFalls(rows[c..], after[c..]);
    forall i | 0 <= i < c && after[i].status == Pending ensures after[i].attempts >= k + 1 {
      CountPrefix(rows, i, c);
      assert Chosen(rows, i);
    }
  }

  /** Polls age a head of at most 100 pending rows, whatever the broker does. */
  lemma {:induction false} HeadAges(rows: seq<Row>, brokers: seq<Broker>, c: nat, k: nat)
    requires c <= |rows| && PendingCount(rows[..c]) <= BATCH && Tried(rows, c, k) && AttemptsLeft(rows)
    ensures Tried(Rows(rows, brokers), c, k + |brokers|) && AttemptsLeft(Rows(rows, brokers))
    ensures PendingCount(Rows(rows, brokers)[c..]) <= PendingCount(rows[c..])
    decreases |brokers|
  {
    hide PendingCount, Polled, Tried, AttemptsLeft;
    if brokers != [] {
      PolledPrefix(rows, brokers[0], c, k);
      HeadAges(Polled(rows, brokers[0]), brokers[1..], c, k + 1);
    }
  }

  /** Five polls finish the first 100 pending rows. */
  lemma FivePolls(rows: seq<Row>, brokers: seq<Broker>)
    requires AttemptsLeft(rows) && |brokers| == MAX_ATTEMPTS
    ensures AttemptsLeft(Rows(rows, brokers))
    ensures PendingCount(Rows(rows, brokers)) <= if PendingCount(rows) <= BATCH then 0 else PendingCount(rows) - BATCH
  {
    hide PendingCount, Rows;
    var m := if PendingCount(rows) <= BATCH then PendingCount(rows) else BATCH;
    var c := PrefixWith(rows, m);
    assert Tried(rows, c, 0);
    HeadAges(rows, brokers, c, 0);
    var after := Rows(rows, brokers);
    CountZero(after[..c]);
    assert rows == rows[..c] + rows[c..] && after == after[..c] + after[c..];
    CountAppend(rows[..c], rows[c..]);
    CountAppend(after[..c], after[c..]);
  }

  lemma {:induction false} RowsAppend(rows: seq<Row>, first: seq<Broker>, rest: seq<Broker>)
    ensures Rows(rows, first + rest) == Rows(Rows(rows, first), rest)
    decreases |first|
  {
    hide Polled;
    if first == [] {
      assert first + rest == rest;
    } else {
      assert (first + rest)[1..] == first[1..] + rest;
      RowsAppend(Polled(rows, first[0]), first[1..], rest);
    }
  }

  function Batches(n: nat): nat { (n + BATCH - 1) / BATCH }

  /** N pending rows are all terminal after 5 polls per 100 of them, whatever the broker answers. */
  lemma {:induction false} OutboxDrains(rows: seq<Row>, brokers: seq<Broker>)
    requires AttemptsLeft(rows) && |brokers| >= 5 * ((PendingCount(rows) + 99) / 100)
    ensures forall i :: 0 <= i < |rows| ==> Rows(rows, brokers)[i].status != Pending
    decreases PendingCount(rows)
  {
    hide Polled, Rows, PendingCount;
    if PendingCount(rows) == 0 {
      StaysDrained(rows, brokers);
    } else {
      var first, rest := brokers[..MAX_ATTEMPTS], brokers[MAX_ATTEMPTS..];
      FivePolls(rows, first);
      RowsAppend(rows, first, rest);
      assert first + rest == brokers;
      OutboxDrains(Rows(rows, first), rest);
    }
  }

  lemma {:induction false} StaysDrained(rows: seq<Row>, brokers: seq<Broker>)
    requires PendingCount(rows) == 0
    ensures forall i :: 0 <= i < |rows| ==> Rows(rows, brokers)[i].status != Pending
    decreases |brokers|
  {
    CountZero(rows);
    if brokers != [] {
      CountZero(Polled(rows, brokers[0]));
      StaysDrained(Polled(rows, brokers[0]), brokers[1..]);
    }
  }
}
