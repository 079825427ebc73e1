/** Every outbox row leaves PENDING within a bounded number of poller ticks. */
module Starvation {
  import opened Shared
  import opened Domain
  import opened Postgres
  import opened Publishing
  import opened Batch
  import opened System
  import opened Runs

  /** The counter can still be written; it may be past the retry limit. */
  predicate Countable(m: Message) {
    0 <= m.attempts && (m.status.OutboxPending? ==> m.attempts < INT32_MAX)
  }

  predicate Ready(rows: seq<Message>, maxRetry: int) {
    0 < maxRetry <= INT32_MAX && DistinctIds(rows) && forall i :: 0 <= i < |rows| ==> Countable(rows[i])
  }

  /** No attempt is ever counted, and the row never retired, once the INTEGER counter is full. */
  lemma FullCounterIsStuck(rows: seq<Message>, l: seq<Entry>, i: nat, maxRetry: int, f: MessageFaults)
    requires DistinctIds(rows) && i < |rows| && rows[i].attempts >= INT32_MAX
    requires var (rows1, _, err) := Published(rows, l, rows[i], f.publish); err.Some? && rows1 == rows
    ensures Handled(rows, l, rows[i], maxRetry, f).0 == rows
  {
    AddAttemptAt(rows, i, f.increment);
  }

  predicate IsPending(rows: seq<Message>, id: int) {
    exists i :: 0 <= i < |rows| && rows[i].id == id && rows[i].status.OutboxPending?
  }

  /** Ids of the PENDING rows that come before x. */
  function Older(rows: seq<Message>, x: Message): set<int> {
    set i | 0 <= i < |rows| && rows[i].status.OutboxPending? && Before(rows[i], x) :: rows[i].id
  }

  function Ids(rows: seq<Message>): set<int> {
    set i | 0 <= i < |rows| :: rows[i].id
  }

  lemma {:induction false} IdsCount(rows: seq<Message>)
    requires DistinctIds(rows)
    ensures |Ids(rows)| == |rows|
  {
    if rows == [] {
    } else {
      var init, m := rows[..|rows| - 1], rows[|rows| - 1];
      IdsCount(init);
      assert Ids(rows) == Ids(init) + {m.id};
      assert m.id !in Ids(init);
    }
  }

  lemma SubsetSize<T>(a: set<T>, b: set<T>)
    requires a <= b
    ensures |a| <= |b|
    decreases a
  {
    if a != {} {
      var x :| x in a;
      SubsetSize(a - {x}, b - {x});
    }
  }

  /** What one row becomes in a tick: a fetched row is retired or, below the limit, counted. */
  ghost predicate RowTick(rows: seq<Message>, rows': seq<Message>, limit: nat, maxRetry: int, i: nat)
    requires i < |rows| <= |rows'|
  {
    && rows'[i].id == rows[i].id && rows'[i].createdAt == rows[i].createdAt
    && Countable(rows'[i])
    && (rows'[i].status.OutboxPending? ==>
          && rows[i].status.OutboxPending?
          && if rows[i] in SelectPending(rows, limit) then rows'[i].attempts == rows[i].attempts + 1 < maxRetry
             else rows'[i].attempts == rows[i].attempts)
  }

  /** One tick of the poller as the outbox sees it: every fetched row has been tried, and
      the rows committed meanwhile sort after x. */
  ghost predicate TickOf(rows: seq<Message>, rows': seq<Message>, limit: nat, maxRetry: int, x: Message) {
    && |rows| <= |rows'| && DistinctIds(rows')
    && (forall i :: 0 <= i < |rows| ==> RowTick(rows, rows', limit, maxRetry, i))
    && (forall i :: |rows| <= i < |rows'| ==> Before(x, rows'[i]) && Countable(rows'[i]))
  }

  /** The outbox between ticks: h[0], then what each tick leaves. */
  ghost predicate Ticks(h: seq<seq<Message>>, limit: nat, maxRetry: int, x: Message) {
    h != [] && Ready(h[0], maxRetry) && forall k :: 0 <= k < |h| - 1 ==> TickOf(h[k], h[k + 1], limit, maxRetry, x)
  }

  function Last(h: seq<seq<Message>>): seq<Message>
    requires h != []
  {
    h[|h| - 1]
  }

  /** The next state of the outbox, and the rest of the history from there. */
  lemma OneTick(h: seq<seq<Message>>, limit: nat, maxRetry: int, x: Message)
    requires |h| > 1 && Ticks(h, limit, maxRetry, x)
    ensures TickOf(h[0], h[1], limit, maxRetry, x) && Ready(h[1], maxRetry)
    ensures Ticks(h[1..], limit, maxRetry, x) && h[1..][0] == h[1] && Last(h[1..]) == Last(h)
  {
    assert TickOf(h[0], h[1], limit, maxRetry, x);
    TickKeepsReady(h[0], h[1], limit, maxRetry, x);
    forall k | 0 <= k < |h[1..]| - 1 ensures TickOf(h[1..][k], h[1..][k + 1], limit, maxRetry, x) {
      assert TickOf(h[k + 1], h[k + 2], limit, maxRetry, x);
    }
  }

  lemma TickKeepsReady(rows: seq<Message>, rows': seq<Message>, limit: nat, maxRetry: int, x: Message)
    requires Ready(rows, maxRetry) && TickOf(rows, rows', limit, maxRetry, x)
    ensures Ready(rows', maxRetry)
  {
    forall i | 0 <= i < |rows'| ensures Countable(rows'[i]) {
      if i < |rows| {
        assert RowTick(rows, rows', limit, maxRetry, i);
      }
    }
  }

  lemma InBatchById(rows: seq<Message>, limit: nat, i: nat)
    requires DistinctIds(rows) && i < |rows|
    ensures IndexById(SelectPending(rows, limit), rows[i].id).Some? <==> rows[i] in SelectPending(rows, limit)
    ensures rows[i] in SelectPending(rows, limit) ==> rows[i].status.OutboxPending?
  {
    SelectPendingIs(rows, limit);
    var batch := SelectPending(rows, limit);
    match IndexById(batch, rows[i].id)
    case None =>
    case Some(k) =>
      assert batch[k] in rows;
      var j :| 0 <= j < |rows| && rows[j] == batch[k];
      assert i == j;
  }

  /** Nothing ever joins the rows ahead of y, for y at or before x. */
  lemma OlderShrinks(rows: seq<Message>, rows': seq<Message>, limit: nat, maxRetry: int, x: Message, y: Message)
    requires TickOf(rows, rows', limit, maxRetry, x) && !Before(x, y)
    ensures Older(rows', y) <= Older(rows, y)
  {
    forall id | id in Older(rows', y) ensures id in Older(rows, y) {
      var i :| 0 <= i < |rows'| && rows'[i].status.OutboxPending? && Before(rows'[i], y) && rows'[i].id == id;
      if i < |rows| {
        assert RowTick(rows, rows', limit, maxRetry, i);
      }
    }
  }

  /** A row that has left PENDING does not come back. */
  lemma {:induction false} StaysGone(h: seq<seq<Message>>, limit: nat, maxRetry: int, x: Message, i: nat)
    requires Ticks(h, limit, maxRetry, x) && i < |h[0]| && !h[0][i].status.OutboxPending?
    ensures Ready(Last(h), maxRetry) && i < |Last(h)| && Last(h)[i].id == h[0][i].id
        && !Last(h)[i].status.OutboxPending?
    decreases |h|
  {
    if |h| > 1 {
      OneTick(h, limit, maxRetry, x);
      assert RowTick(h[0], h[1], limit, maxRetry, i);
      StaysGone(h[1..], limit, maxRetry, x, i);
    }
  }

  /** A PENDING row with fewer than limit rows ahead of it is in the batch. */
  lemma Served(rows: seq<Message>, limit: nat, i: nat)
    requires DistinctIds(rows) && i < |rows| && rows[i].status.OutboxPending? && |Older(rows, rows[i])| < limit
    ensures rows[i] in SelectPending(rows, limit)
  {
    SelectPendingIs(rows, limit);
    var batch := SelectPending(rows, limit);
    if rows[i] !in batch {
      forall id | id in Ids(batch) ensures id in Older(rows, rows[i]) {
        var k :| 0 <= k < |batch| && batch[k].id == id;
        BatchIsAhead(rows, limit, k, i);
      }
      IdsCount(batch);
      SubsetSize(Ids(batch), Older(rows, rows[i]));
    }
  }

  lemma BatchIsAhead(rows: seq<Message>, limit: nat, k: nat, i: nat)
    requires DistinctIds(rows) && k < |SelectPending(rows, limit)|
    requires i < |rows| && rows[i].status.OutboxPending? && rows[i] !in SelectPending(rows, limit)
    ensures SelectPending(rows, limit)[k].id in Older(rows, rows[i])
    ensures Before(SelectPending(rows, limit)[k], rows[i])
  {
    SelectPendingIs(rows, limit);
    var b := SelectPending(rows, limit)[k];
    assert b in SelectPending(rows, limit);
    assert b in rows && NotAfter(b, rows[i]);
    var j :| 0 <= j < |rows| && rows[j] == b;
    assert j != i;
  }

  /** Turns after which a row is certainly retired. */
  function TurnsLeft(m: Message, maxRetry: int): int {
    if m.attempts < maxRetry then maxRetry - m.attempts else 1
  }

  /** With room in every batch, a row is tried every tick until it leaves PENDING. */
  lemma {:induction false} LeavesSoon(h: seq<seq<Message>>, limit: nat, maxRetry: int, x: Message, i: nat)
    requires Ticks(h, limit, maxRetry, x)
    requires i < |h[0]| && |Older(h[0], h[0][i])| < limit && !Before(x, h[0][i])
    requires |h| - 1 >= TurnsLeft(h[0][i], maxRetry)
    ensures Ready(Last(h), maxRetry) && i < |Last(h)| && Last(h)[i].id == h[0][i].id
        && !Last(h)[i].status.OutboxPending?
    decreases |h|
  {
    if !h[0][i].status.OutboxPending? {
      StaysGone(h, limit, maxRetry, x, i);
    } else {
      var rows, next := h[0], h[1];
      OneTick(h, limit, maxRetry, x);
      OlderShrinks(rows, next, limit, maxRetry, x, rows[i]);
      Served(rows, limit, i);
      assert RowTick(rows, next, limit, maxRetry, i);
      assert Older(next, next[i]) == Older(next, rows[i]);
      SubsetSize(Older(next, next[i]), Older(rows, rows[i]));
      if next[i].status.OutboxPending? {
        LeavesSoon(h[1..], limit, maxRetry, x, i);
      } else {
        StaysGone(h[1..], limit, maxRetry, x, i);
      }
    }
  }

  // ---- the bound ----

  /** Over any ticks the rows ahead of x only dwindle, and x keeps its place. */
  lemma {:induction false} TicksShrink(h: seq<seq<Message>>, limit: nat, maxRetry: int, x: Message, i: nat)
    requires Ticks(h, limit, maxRetry, x) && i < |h[0]|
    ensures Ready(Last(h), maxRetry) && Older(Last(h), x) <= Older(h[0], x)
    ensures i < |Last(h)| && Last(h)[i].id == h[0][i].id && Last(h)[i].createdAt == h[0][i].createdAt
    decreases |h|
  {
    if |h| > 1 {
      OneTick(h, limit, maxRetry, x);
      OlderShrinks(h[0], h[1], limit, maxRetry, x, x);
      assert RowTick(h[0], h[1], limit, maxRetry, i);
      TicksShrink(h[1..], limit, maxRetry, x, i);
    }
  }

  /** The row behind a fetched id. */
  lemma Fetched(rows: seq<Message>, limit: nat, id: int) returns (k: nat, j: nat)
    requires DistinctIds(rows) && id in Ids(SelectPending(rows, limit))
    ensures k < |SelectPending(rows, limit)| && j < |rows| && rows[j] == SelectPending(rows, limit)[k]
    ensures rows[j].id == id && rows[j].status.OutboxPending?
  {
    SelectPendingIs(rows, limit);
    var batch := SelectPending(rows, limit);
    k :| 0 <= k < |batch| && batch[k].id == id;
    assert batch[k] in rows;
    j :| 0 <= j < |rows| && rows[j] == batch[k];
  }

  lemma BatchCount(rows: seq<Message>, limit: nat)
    requires DistinctIds(rows)
    ensures |Ids(SelectPending(rows, limit))| == |SelectPending(rows, limit)| <= limit
    ensures forall i :: 0 <= i < |rows| && rows[i].status.OutboxPending? && rows[i] !in SelectPending(rows, limit) ==>
      |SelectPending(rows, limit)| == limit
  {
    SelectPendingIs(rows, limit);
    IdsCount(SelectPending(rows, limit));
  }

  /** A fetched row has all its elders in the batch, so fewer than limit of them. */
  lemma FetchedIsNearFront(rows: seq<Message>, limit: nat, i: nat)
    requires DistinctIds(rows) && i < |rows| && rows[i] in SelectPending(rows, limit)
    ensures |Older(rows, rows[i])| < limit
  {
    BatchCount(rows, limit);
    var elders, ids := Older(rows, rows[i]), Ids(SelectPending(rows, limit));
    forall id | id in elders + {rows[i].id} ensures id in ids {
      AheadInBatch(rows, limit, i, id);
    }
    NotOwnElder(rows, i);
    SubsetSize(elders + {rows[i].id}, ids);
  }

  /** When x is not among the first limit rows, the batch is full of rows ahead of it. */
  lemma FullBatchAhead(rows: seq<Message>, limit: nat, i: nat)
    requires DistinctIds(rows) && i < |rows| && rows[i].status.OutboxPending? && |Older(rows, rows[i])| >= limit
    ensures var batch := SelectPending(rows, limit);
      rows[i] !in batch && |Ids(batch)| == limit && Ids(batch) <= Older(rows, rows[i])
  {
    if rows[i] in SelectPending(rows, limit) {
      FetchedIsNearFront(rows, limit, i);
    }
    BatchCount(rows, limit);
    forall id | id in Ids(SelectPending(rows, limit)) ensures id in Older(rows, rows[i]) {
      var k, j := Fetched(rows, limit, id);
      BatchIsAhead(rows, limit, k, i);
    }
  }

  lemma NotOwnElder(rows: seq<Message>, i: nat)
    requires DistinctIds(rows) && i < |rows|
    ensures rows[i].id !in Older(rows, rows[i])
  {
  }

  lemma AheadInBatch(rows: seq<Message>, limit: nat, i: nat, id: int)
    requires DistinctIds(rows) && i < |rows| && rows[i] in SelectPending(rows, limit)
    requires id in Older(rows, rows[i]) + {rows[i].id}
    ensures id in Ids(SelectPending(rows, limit))
  {
    SelectPendingIs(rows, limit);
    var batch := SelectPending(rows, limit);
    var m := rows[i];
    if id != rows[i].id {
      var j :| 0 <= j < |rows| && rows[j].status.OutboxPending? && Before(rows[j], rows[i]) && rows[j].id == id;
      m := rows[j];
      assert m in batch;
    }
    var k :| 0 <= k < |batch| && batch[k] == m;
  }

  /** In maxRetry ticks at least limit rows ahead of x leave PENDING. */
  lemma OnePhase(h: seq<seq<Message>>, limit: nat, maxRetry: int, i: nat)
    requires h != [] && i < |h[0]| && Ticks(h, limit, maxRetry, h[0][i]) && |h| == maxRetry + 1
    requires h[0][i].status.OutboxPending? && |Older(h[0], h[0][i])| >= limit
    ensures |Older(Last(h), h[0][i])| <= |Older(h[0], h[0][i])| - limit
  {
    var rows, x := h[0], h[0][i];
    var front := Ids(SelectPending(rows, limit));
    FullBatchAhead(rows, limit, i);
    TicksShrink(h, limit, maxRetry, x, i);
    forall id | id in front ensures id !in Older(Last(h), x) {
      FrontLeaves(h, limit, maxRetry, i, id);
    }
    SubsetSize(Older(Last(h), x), Older(rows, x) - front);
  }

  lemma FrontLeaves(h: seq<seq<Message>>, limit: nat, maxRetry: int, i: nat, id: int)
    requires h != [] && i < |h[0]| && Ticks(h, limit, maxRetry, h[0][i]) && |h| == maxRetry + 1
    requires h[0][i].status.OutboxPending? && |Older(h[0], h[0][i])| >= limit
    requires id in Ids(SelectPending(h[0], limit))
    ensures id !in Older(Last(h), h[0][i])
  {
    var rows := h[0];
    var k, j := Fetched(rows, limit, id);
    FullBatchAhead(rows, limit, i);
    BatchIsAhead(rows, limit, k, i);
    FetchedIsNearFront(rows, limit, j);
    LeavesSoon(h, limit, maxRetry, rows[i], j);
    GoneIsNotOlder(Last(h), j, rows[i]);
  }

  lemma GoneIsNotOlder(rows: seq<Message>, j: nat, x: Message)
    requires DistinctIds(rows) && j < |rows| && !rows[j].status.OutboxPending?
    ensures rows[j].id !in Older(rows, x) && !IsPending(rows, rows[j].id)
  {
  }

  /** phases + 1 copies of n, added up. */
  function Times(n: nat, phases: nat): nat {
    if phases == 0 then n else n + Times(n, phases - 1)
  }

  lemma {:induction false} TimesIs(n: nat, phases: nat)
    ensures Times(n, phases) == n * (phases + 1)
  {
    if phases > 0 {
      TimesIs(n, phases - 1);
    }
  }

  lemma LeavesNow(h: seq<seq<Message>>, limit: nat, maxRetry: int, i: nat)
    requires h != [] && i < |h[0]| && Ticks(h, limit, maxRetry, h[0][i])
    requires !h[0][i].status.OutboxPending? || (|Older(h[0], h[0][i])| < limit && |h| > maxRetry)
    ensures !IsPending(Last(h), h[0][i].id)
  {
    if !h[0][i].status.OutboxPending? {
      StaysGone(h, limit, maxRetry, h[0][i], i);
    } else {
      LeavesSoon(h, limit, maxRetry, h[0][i], i);
    }
    GoneIsNotOlder(Last(h), i, h[0][i]);
  }

  /** A history splits at any state, and only the place of x in the order matters to it. */
  lemma SplitTicks(h: seq<seq<Message>>, limit: nat, maxRetry: int, x: Message, x': Message, n: nat)
    requires Ticks(h, limit, maxRetry, x) && n < |h| && Ready(h[n], maxRetry)
    requires x'.id == x.id && x'.createdAt == x.createdAt
    ensures Ticks(h[..n + 1], limit, maxRetry, x) && Ticks(h[n..], limit, maxRetry, x') && Last(h[n..]) == Last(h)
  {
    forall k | 0 <= k < |h[n..]| - 1 ensures TickOf(h[n..][k], h[n..][k + 1], limit, maxRetry, x') {
      assert TickOf(h[n + k], h[n + k + 1], limit, maxRetry, x);
    }
  }

  /** After maxRetry ticks limit rows fewer are ahead, and the rest of the history goes on from there. */
  lemma PhaseStep(h: seq<seq<Message>>, limit: nat, maxRetry: int, i: nat)
    requires h != [] && i < |h[0]| && Ticks(h, limit, maxRetry, h[0][i]) && 0 < maxRetry < |h|
    requires h[0][i].status.OutboxPending? && |Older(h[0], h[0][i])| >= limit
    ensures var rest := h[maxRetry..];
      && i < |rest[0]| && rest[0][i].id == h[0][i].id && Ticks(rest, limit, maxRetry, rest[0][i])
      && |Older(rest[0], rest[0][i])| <= |Older(h[0], h[0][i])| - limit
      && Last(rest) == Last(h)
  {
    var phase := h[..maxRetry + 1];
    forall k | 0 <= k < |phase| - 1 ensures TickOf(phase[k], phase[k + 1], limit, maxRetry, h[0][i]) {
      assert TickOf(h[k], h[k + 1], limit, maxRetry, h[0][i]);
    }
    OnePhase(phase, limit, maxRetry, i);
    TicksShrink(phase, limit, maxRetry, h[0][i], i);
    var mid := h[maxRetry];
    assert Older(mid, mid[i]) == Older(mid, h[0][i]);
    SplitTicks(h, limit, maxRetry, h[0][i], mid[i], maxRetry);
  }

  lemma {:induction false} WithinPhases(h: seq<seq<Message>>, limit: nat, maxRetry: int, i: nat, phases: nat)
    requires limit > 0 && h != [] && i < |h[0]| && Ticks(h, limit, maxRetry, h[0][i])
    requires 0 < maxRetry && |Older(h[0], h[0][i])| < Times(limit, phases) && |h| > Times(maxRetry, phases)
    ensures !IsPending(Last(h), h[0][i].id)
    decreases phases
  {
    if !h[0][i].status.OutboxPending? || |Older(h[0], h[0][i])| < limit {
      LeavesNow(h, limit, maxRetry, i);
    } else {
      PhaseStep(h, limit, maxRetry, i);
      WithinPhases(h[maxRetry..], limit, maxRetry, i, phases - 1);
    }
  }

  /** No starvation: with k PENDING rows ahead of it, counter writes succeeding and new
      rows sorting later, a row leaves PENDING within maxRetry * (k / limit + 1) ticks,
      however publishing fails and however many rows arrive. */
  lemma NoStarvation(h: seq<seq<Message>>, limit: nat, maxRetry: int, i: nat)
    requires limit > 0 && h != [] && i < |h[0]| && Ticks(h, limit, maxRetry, h[0][i])
    requires |h| - 1 >= maxRetry * (|Older(h[0], h[0][i])| / limit + 1)
    ensures !IsPending(Last(h), h[0][i].id)
  {
    var phases := |Older(h[0], h[0][i])| / limit;
    assert |Older(h[0], h[0][i])| < limit * (phases + 1);
    TimesIs(limit, phases);
    TimesIs(maxRetry, phases);
    WithinPhases(h, limit, maxRetry, i, phases);
  }

  // ---- ProcessPendingMessages is such a tick ----

  /** Publishing may fail in any way; the counter is written and giving up takes effect. */
  predicate CounterWritten(f: MessageFaults) {
    f.increment.NoFault? && !f.giveUp.Lost?
  }

  /** Whatever the ledger, a call of ProcessPendingMessages followed by arrivals is a tick. */
  lemma PollIsTick(rows: seq<Message>, l: seq<Entry>, limit: nat, maxRetry: int, fs: seq<MessageFaults>,
                   arrivals: seq<Message>, x: Message)
    requires Ready(rows, maxRetry) && forall k :: 0 <= k < |fs| ==> CounterWritten(fs[k])
    requires DistinctIds(rows + arrivals)
    requires forall k :: 0 <= k < |arrivals| ==> Before(x, arrivals[k]) && Countable(arrivals[k])
    ensures var batch := SelectPending(rows, limit);
      TickOf(rows, BatchDone(rows, l, batch, maxRetry, fs, |batch|).0 + arrivals, limit, maxRetry, x)
  {
    var batch := SelectPending(rows, limit);
    var polled := BatchDone(rows, l, batch, maxRetry, fs, |batch|).0;
    var rows' := polled + arrivals;
    BatchOutcome(rows, l, limit, maxRetry, fs);
    forall i | 0 <= i < |rows| ensures RowTick(rows, rows', limit, maxRetry, i) {
      InBatchById(rows, limit, i);
      assert rows'[i] == polled[i];
    }
    forall i | 0 <= i < |rows'| ensures rows'[i].id == (rows + arrivals)[i].id {
      if i < |rows| {
        assert RowTick(rows, rows', limit, maxRetry, i);
      }
    }
  }

  // ---- ticks of a whole run ----

  predicate InsideRound(es: seq<System.Event>) {
    forall k :: 0 <= k < |es| ==> !es[k].Fetch? && !es[k].Restart? && (es[k].Handle? ==> CounterWritten(es[k].message))
  }

  /** From one fetch to just before the next: the batch is handled to its end, with
      submissions, deliveries and account openings anywhere in between. */
  predicate Round(s: Sys, s': Sys, limit: nat, maxRetry: int, es: seq<System.Event>) {
    && s.batch == [] && s'.batch == []
    && InsideRound(es)
    && RunFrom(After(s, maxRetry, Fetch(limit)), maxRetry, es) == Some(s')
  }

  predicate LaterThan(x: Message, s: Sys, s': Sys) {
    forall j :: |s.stores.pg.outbox| <= j < |s'.stores.pg.outbox| ==> Before(x, s'.stores.pg.outbox[j])
  }

  /** A row whose turn is over: retired, or PENDING with one more attempt. */
  predicate Tried(m: Message, m': Message, maxRetry: int) {
    && m'.id == m.id && m'.createdAt == m.createdAt && 0 <= m'.attempts
    && (m'.status.OutboxPending? ==> m'.attempts == m.attempts + 1 < maxRetry)
  }

  /** In the middle of a round the first k fetched rows have been tried and the rest wait untouched. */
  ghost predicate Midway(rows0: seq<Message>, batch: seq<Message>, s: Sys, maxRetry: int, k: nat) {
    var rows := s.stores.pg.outbox;
    && k <= |batch| && s.batch == batch[k..] && |rows0| <= |rows|
    && (forall i :: 0 <= i < |rows0| ==>
          match IndexById(batch, rows0[i].id)
          case Some(j) => if j < k then Tried(rows0[i], rows[i], maxRetry) else rows[i] == rows0[i]
          case None => rows[i] == rows0[i])
    && (forall i :: |rows0| <= i < |rows| ==> rows[i].status.OutboxPending? && rows[i].attempts == 0)
  }

  /** What a batch is to the table it was fetched from. */
  ghost predicate FetchedFrom(rows0: seq<Message>, batch: seq<Message>) {
    DistinctIds(batch) && forall m :: m in batch ==> m in rows0 && m.status.OutboxPending?
  }

  ghost predicate Reachable(s: Sys, maxRetry: int) {
    exists es :: Reached(maxRetry, es) == Some(s)
  }

  lemma ReachableNext(s: Sys, maxRetry: int, e: System.Event)
    requires Reachable(s, maxRetry) && Possible(s, e)
    ensures Reachable(After(s, maxRetry, e), maxRetry)
  {
    var es :| Reached(maxRetry, es) == Some(s);
    RunStep(START, maxRetry, es, e);
    assert Reached(maxRetry, es + [e]) == Some(After(s, maxRetry, e));
  }

  lemma HandledReached(s: Sys, maxRetry: int, f: MessageFaults) returns (i: nat)
    requires Reachable(s, maxRetry) && s.batch != []
    ensures i < |s.stores.pg.outbox| && s.stores.pg.outbox[i] == s.batch[0]
    ensures var (rows', l') := Handled(s.stores.pg.outbox, s.stores.ledger, s.batch[0], maxRetry, f);
      HandledRow(s.stores.pg.outbox, s.stores.ledger, rows', l', i, maxRetry, f)
  {
    var es :| Reached(maxRetry, es) == Some(s);
    RunKeeps(START, maxRetry, es);
    i := HandleIs(s, maxRetry, f);
  }

  lemma HandleReached(s: Sys, maxRetry: int, f: MessageFaults) returns (i: nat)
    requires Reachable(s, maxRetry) && s.batch != []
    ensures var rows, rows' := s.stores.pg.outbox, After(s, maxRetry, Handle(f)).stores.pg.outbox;
      && i < |rows| == |rows'| && rows[i] == s.batch[0] && rows[i].status.OutboxPending?
      && rows' == rows[i := rows'[i]] && Settled(rows[i], rows'[i], maxRetry, f)
    ensures After(s, maxRetry, Handle(f)).batch == s.batch[1..]
  {
    i := HandledReached(s, maxRetry, f);
  }

  lemma OtherReached(s: Sys, maxRetry: int, e: System.Event)
    requires Reachable(s, maxRetry) && Possible(s, e) && !e.Handle? && !e.Fetch? && !e.Restart?
    ensures var rows, rows' := s.stores.pg.outbox, After(s, maxRetry, e).stores.pg.outbox;
      && |rows| <= |rows'| && (forall i :: 0 <= i < |rows| ==> rows'[i] == rows[i])
      && (forall i :: |rows| <= i < |rows'| ==> rows'[i].status.OutboxPending? && rows'[i].attempts == 0)
    ensures After(s, maxRetry, e).batch == s.batch
  {
    var es :| Reached(maxRetry, es) == Some(s);
    RunKeeps(START, maxRetry, es);
    RowStep(s, maxRetry, e);
  }

  lemma IdsDistinct(s: Sys, maxRetry: int)
    requires Reachable(s, maxRetry)
    ensures DistinctIds(s.stores.pg.outbox)
  {
    var es :| Reached(maxRetry, es) == Some(s);
    RunKeeps(START, maxRetry, es);
    InvParts(s);
  }

  lemma TurnInRound(rows0: seq<Message>, batch: seq<Message>, s: Sys, maxRetry: int, k: nat, f: MessageFaults)
    requires Reachable(s, maxRetry) && s.batch != [] && Midway(rows0, batch, s, maxRetry, k)
    requires Ready(rows0, maxRetry) && FetchedFrom(rows0, batch) && CounterWritten(f)
    ensures Midway(rows0, batch, After(s, maxRetry, Handle(f)), maxRetry, k + 1)
  {
    IdsDistinct(s, maxRetry);
    var i := HandleReached(s, maxRetry, f);
    assert batch[k] in rows0;
    var i0 :| 0 <= i0 < |rows0| && rows0[i0] == batch[k];
    assert s.stores.pg.outbox[i0].id == rows0[i0].id;
    assert i == i0 && IndexById(batch, rows0[i].id) == Some(k);
    assert Tried(rows0[i], After(s, maxRetry, Handle(f)).stores.pg.outbox[i], maxRetry);
  }

  lemma {:induction false} MidwayHolds(s: Sys, limit: nat, maxRetry: int, es: seq<System.Event>) returns (k: nat)
    requires Reachable(s, maxRetry) && s.batch == [] && Ready(s.stores.pg.outbox, maxRetry)
    requires InsideRound(es) && RunFrom(After(s, maxRetry, Fetch(limit)), maxRetry, es).Some?
    ensures var s' := RunFrom(After(s, maxRetry, Fetch(limit)), maxRetry, es).value;
      Reachable(s', maxRetry) && Midway(s.stores.pg.outbox, SelectPending(s.stores.pg.outbox, limit), s', maxRetry, k)
  {
    var rows0, start := s.stores.pg.outbox, After(s, maxRetry, Fetch(limit));
    if es == [] {
      k := 0;
      ReachableNext(s, maxRetry, Fetch(limit));
    } else {
      var before, e := RunFrom(start, maxRetry, es[..|es| - 1]).value, es[|es| - 1];
      k := MidwayHolds(s, limit, maxRetry, es[..|es| - 1]);
      ReachableNext(before, maxRetry, e);
      if e.Handle? {
        SelectPendingIs(rows0, limit);
        TurnInRound(rows0, SelectPending(rows0, limit), before, maxRetry, k, e.message);
        k := k + 1;
      } else {
        OtherReached(before, maxRetry, e);
      }
    }
  }

  /** A round of a run is a tick of the outbox. */
  lemma RoundIsTick(s: Sys, s': Sys, limit: nat, maxRetry: int, es: seq<System.Event>, x: Message)
    requires Reachable(s, maxRetry) && Ready(s.stores.pg.outbox, maxRetry)
    requires Round(s, s', limit, maxRetry, es) && LaterThan(x, s, s')
    ensures Reachable(s', maxRetry) && Ready(s'.stores.pg.outbox, maxRetry)
    ensures TickOf(s.stores.pg.outbox, s'.stores.pg.outbox, limit, maxRetry, x)
  {
    var rows, rows' := s.stores.pg.outbox, s'.stores.pg.outbox;
    var k := MidwayHolds(s, limit, maxRetry, es);
    IdsDistinct(s', maxRetry);
    assert k == |SelectPending(rows, limit)|;
    forall i | 0 <= i < |rows| ensures RowTick(rows, rows', limit, maxRetry, i) {
      InBatchById(rows, limit, i);
    }
    TickKeepsReady(rows, rows', limit, maxRetry, x);
  }

  function Outboxes(ss: seq<Sys>): (h: seq<seq<Message>>)
    ensures |h| == |ss| && forall k :: 0 <= k < |ss| ==> h[k] == ss[k].stores.pg.outbox
  {
    seq(|ss|, k requires 0 <= k < |ss| => ss[k].stores.pg.outbox)
  }

  predicate RoundAt(ss: seq<Sys>, limit: nat, maxRetry: int, rounds: seq<seq<System.Event>>, x: Message, k: nat)
    requires k < |rounds| == |ss| - 1
  {
    Round(ss[k], ss[k + 1], limit, maxRetry, rounds[k]) && LaterThan(x, ss[k], ss[k + 1])
  }

  lemma {:induction false} RoundsAreTicks(ss: seq<Sys>, limit: nat, maxRetry: int, rounds: seq<seq<System.Event>>,
                                          x: Message, n: nat)
    requires n <= |rounds| == |ss| - 1 && Reachable(ss[0], maxRetry) && Ready(ss[0].stores.pg.outbox, maxRetry)
    requires forall k :: 0 <= k < |rounds| ==> RoundAt(ss, limit, maxRetry, rounds, x, k)
    ensures Reachable(ss[n], maxRetry) && Ready(ss[n].stores.pg.outbox, maxRetry)
    ensures forall k :: 0 <= k < n ==> TickOf(Outboxes(ss)[k], Outboxes(ss)[k + 1], limit, maxRetry, x)
  {
    if n > 0 {
      RoundsAreTicks(ss, limit, maxRetry, rounds, x, n - 1);
      assert RoundAt(ss, limit, maxRetry, rounds, x, n - 1);
      RoundIsTick(ss[n - 1], ss[n], limit, maxRetry, rounds[n - 1], x);
    }
  }

  /** The bound in whole runs: from any reachable point with room in the counters, whatever
      faults led there and whatever is submitted and delivered between the poller's store calls. */
  lemma NoStarvationInRuns(maxRetry: int, es: seq<System.Event>, ss: seq<Sys>, limit: nat,
                           rounds: seq<seq<System.Event>>, i: nat)
    requires 0 < maxRetry <= INT32_MAX && limit > 0 && |rounds| == |ss| - 1
    requires Reached(maxRetry, es) == Some(ss[0]) && i < |ss[0].stores.pg.outbox|
    requires forall k :: 0 <= k < |ss[0].stores.pg.outbox| && ss[0].stores.pg.outbox[k].status.OutboxPending? ==>
      ss[0].stores.pg.outbox[k].attempts < INT32_MAX
    requires forall k :: 0 <= k < |rounds| ==> RoundAt(ss, limit, maxRetry, rounds, ss[0].stores.pg.outbox[i], k)
    requires var rows := ss[0].stores.pg.outbox; |rounds| >= maxRetry * (|Older(rows, rows[i])| / limit + 1)
    ensures !IsPending(ss[|rounds|].stores.pg.outbox, ss[0].stores.pg.outbox[i].id)
  {
    var rows, h := ss[0].stores.pg.outbox, Outboxes(ss);
    NoNegativeAttempts(maxRetry, es);
    IdsDistinct(ss[0], maxRetry);
    RoundsAreTicks(ss, limit, maxRetry, rounds, rows[i], |rounds|);
    NoStarvation(h, limit, maxRetry, i);
  }


  // ---- the retry budget ----

  /** Attempts left over all PENDING rows. */
  function AttemptsLeft(rows: seq<Message>, maxRetry: int): int {
    if rows == [] then 0
    else
      var m := rows[|rows| - 1];
      AttemptsLeft(rows[..|rows| - 1], maxRetry) + (if m.status.OutboxPending? then maxRetry - m.attempts else 0)
  }

  ghost predicate NoRicher(m: Message, m': Message, maxRetry: int) {
    (if m'.status.OutboxPending? then maxRetry - m'.attempts else 0)
        <= (if m.status.OutboxPending? then maxRetry - m.attempts else 0)
  }

  lemma {:induction false} BudgetFalls(rows: seq<Message>, rows': seq<Message>, maxRetry: int)
    requires |rows| == |rows'| && forall i :: 0 <= i < |rows| ==> NoRicher(rows[i], rows'[i], maxRetry)
    ensures AttemptsLeft(rows', maxRetry) <= AttemptsLeft(rows, maxRetry)
    ensures (exists i :: 0 <= i < |rows| && !NoRicher(rows'[i], rows[i], maxRetry)) ==>
      AttemptsLeft(rows', maxRetry) < AttemptsLeft(rows, maxRetry)
  {
    if rows == [] {
    } else {
      BudgetFalls(rows[..|rows| - 1], rows'[..|rows| - 1], maxRetry);
      if i :| 0 <= i < |rows| && !NoRicher(rows'[i], rows[i], maxRetry) {
        if i < |rows| - 1 {
          assert !NoRicher(rows'[..|rows| - 1][i], rows[..|rows| - 1][i], maxRetry);
        } else {
          assert NoRicher(rows[|rows| - 1], rows'[|rows| - 1], maxRetry);
        }
      }
    }
  }

  /** A tick that finds pending rows and meets no new ones uses up some of the budget. */
  lemma TickUsesBudget(rows: seq<Message>, rows': seq<Message>, limit: nat, maxRetry: int, x: Message)
    requires Ready(rows, maxRetry) && Budgeted(rows, maxRetry)
    requires TickOf(rows, rows', limit, maxRetry, x) && |rows'| == |rows|
    requires SelectPending(rows, limit) != []
    ensures AttemptsLeft(rows', maxRetry) < AttemptsLeft(rows, maxRetry)
  {
    SelectPendingIs(rows, limit);
    forall i | 0 <= i < |rows| ensures NoRicher(rows[i], rows'[i], maxRetry) {
      assert RowTick(rows, rows', limit, maxRetry, i);
    }
    assert SelectPending(rows, limit)[0] in rows;
    var i :| 0 <= i < |rows| && rows[i] == SelectPending(rows, limit)[0];
    assert RowTick(rows, rows', limit, maxRetry, i);
    assert !NoRicher(rows'[i], rows[i], maxRetry);
    BudgetFalls(rows, rows', maxRetry);
  }
}
