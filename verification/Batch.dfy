/** Which rows the poller fetches and what a whole batch does to the outbox table. */
module Batch {
  import opened Shared
  import opened Domain
  import opened Sorting
  import opened Postgres
  import opened Publishing

  lemma {:induction false} InsertDistinct(x: Message, s: seq<Message>)
    requires DistinctIds(s) && forall m :: m in s ==> m.id != x.id
    ensures DistinctIds(Insert(x, s, NotAfter))
  {
    if s == [] || NotAfter(x, s[0]) {
    } else {
      InsertDistinct(x, s[1..]);
      var t := Insert(x, s[1..], NotAfter);
      forall m | m in t ensures m.id != s[0].id {
        assert m == x || m in s[1..];
      }
      assert Insert(x, s, NotAfter) == [s[0]] + t;
    }
  }

  lemma {:induction false} SortDistinct(s: seq<Message>)
    requires DistinctIds(s)
    ensures DistinctIds(Sort(s, NotAfter))
  {
    if s == [] {
    } else {
      SortDistinct(s[1..]);
      forall m | m in Sort(s[1..], NotAfter) ensures m.id != s[0].id {
        assert m in s[1..];
      }
      InsertDistinct(s[0], Sort(s[1..], NotAfter));
    }
  }

  lemma {:induction false} FilterDistinct(s: seq<Message>, keep: Message -> bool)
    requires DistinctIds(s)
    ensures DistinctIds(Filter(s, keep))
  {
    if s == [] {
    } else {
      FilterDistinct(s[1..], keep);
      forall m | m in Filter(s[1..], keep) ensures m.id != s[0].id {
        assert m in s[1..];
      }
    }
  }

  /** The pending list: exactly the PENDING rows, each once, oldest first. */
  lemma PendingSortedIs(rows: seq<Message>)
    requires DistinctIds(rows)
    ensures DistinctIds(PendingSorted(rows)) && Sorted(PendingSorted(rows), NotAfter)
    ensures forall m :: m in PendingSorted(rows) <==> m in rows && m.status.OutboxPending?
  {
    var pending := Filter(rows, (m: Message) => m.status.OutboxPending?);
    FilterDistinct(rows, (m: Message) => m.status.OutboxPending?);
    SortDistinct(pending);
    SortSorts(pending, NotAfter);
  }

  /** GetPending's answer: PENDING rows without repetition, in order, never more than the
      limit, and any PENDING row left out means a full batch of rows that come before it. */
  lemma SelectPendingIs(rows: seq<Message>, limit: nat)
    requires DistinctIds(rows)
    ensures var batch := SelectPending(rows, limit);
      && DistinctIds(batch) && Sorted(batch, NotAfter) && |batch| <= limit
      && (forall j, k :: 0 <= j < k < |batch| ==> batch[j].createdAt <= batch[k].createdAt)
      && (forall m :: m in batch ==> m in rows && m.status.OutboxPending?)
      && (forall m :: m in rows && m.status.OutboxPending? && m !in batch ==>
            |batch| == limit && forall b :: b in batch ==> NotAfter(b, m) && b.createdAt <= m.createdAt)
  {
    PendingSortedIs(rows);
    var batch := SelectPending(rows, limit);
    assert forall j, k :: 0 <= j < k < |batch| ==> NotAfter(batch[j], batch[k]);
    forall m | m in rows && m.status.OutboxPending? && m !in batch
      ensures |batch| == limit && forall b :: b in batch ==> NotAfter(b, m) && b.createdAt <= m.createdAt
    {
      LeftOut(PendingSorted(rows), limit, m);
    }
  }

  /** What a limit cuts off a sorted list comes after everything it keeps. */
  lemma LeftOut(p: seq<Message>, limit: nat, m: Message)
    requires Sorted(p, NotAfter) && m in p && limit < |p| && m !in p[..limit]
    ensures forall b :: b in p[..limit] ==> NotAfter(b, m) && b.createdAt <= m.createdAt
  {
    var j :| 0 <= j < |p| && p[j] == m;
    forall b | b in p[..limit] ensures NotAfter(b, m) && b.createdAt <= m.createdAt {
      var i :| 0 <= i < limit && p[..limit][i] == b;
      assert p[i] == b;
      assert j >= limit;
    }
  }

  /** First written, first fetched: of two PENDING rows the one written at an earlier instant
      is in every batch the other is in, and before it. */
  lemma EarlierIsFetchedFirst(rows: seq<Message>, limit: nat, early: Message, k: nat)
    requires DistinctIds(rows) && early in rows && early.status.OutboxPending?
    requires k < |SelectPending(rows, limit)| && early.createdAt < SelectPending(rows, limit)[k].createdAt
    ensures exists j :: 0 <= j < k && SelectPending(rows, limit)[j] == early
  {
    var batch := SelectPending(rows, limit);
    SelectPendingIs(rows, limit);
    assert batch[k] in batch;
    assert early in batch;
    var j :| 0 <= j < |batch| && batch[j] == early;
  }

  /** After n turns the first n fetched rows have settled and every other row is as it was. */
  ghost predicate BatchSoFar(rows: seq<Message>, rows': seq<Message>, batch: seq<Message>, maxRetry: int,
                             fs: seq<MessageFaults>, n: nat) {
    && |rows'| == |rows|
    && forall i :: 0 <= i < |rows| ==>
         match IndexById(batch, rows[i].id)
         case Some(k) => if k < n then Settled(rows[i], rows'[i], maxRetry, FaultsAt(fs, k)) else rows'[i] == rows[i]
         case None => rows'[i] == rows[i]
  }

  lemma SoFarDistinct(rows: seq<Message>, rows': seq<Message>, batch: seq<Message>, maxRetry: int,
                      fs: seq<MessageFaults>, n: nat)
    requires DistinctIds(rows) && BatchSoFar(rows, rows', batch, maxRetry, fs, n)
    ensures DistinctIds(rows')
  {
  }

  /** When its turn comes a snapshot still matches its row, so that row settles and no other moves. */
  lemma TurnSettles(rows: seq<Message>, before: seq<Message>, l: seq<Entry>, batch: seq<Message>, maxRetry: int,
                    fs: seq<MessageFaults>, n: nat, i: nat)
    requires DistinctIds(rows) && DistinctIds(batch) && n < |batch| && i < |rows|
    requires rows[i] == batch[n] && batch[n].status.OutboxPending?
    requires BatchSoFar(rows, before, batch, maxRetry, fs, n)
    ensures BatchSoFar(rows, Handled(before, l, batch[n], maxRetry, FaultsAt(fs, n)).0, batch, maxRetry, fs, n + 1)
  {
    SoFarDistinct(rows, before, batch, maxRetry, fs, n);
    assert IndexById(batch, rows[i].id) == Some(n);
    assert before[i] == batch[n];
    HandledSettles(before, l, i, maxRetry, FaultsAt(fs, n));
  }

  /** One failure never stops later messages. */
  lemma {:induction false} BatchSettles(rows: seq<Message>, l: seq<Entry>, batch: seq<Message>, maxRetry: int,
                                        fs: seq<MessageFaults>, n: nat)
    requires DistinctIds(rows) && DistinctIds(batch) && n <= |batch|
    requires forall m :: m in batch ==> m in rows && m.status.OutboxPending?
    ensures BatchSoFar(rows, BatchDone(rows, l, batch, maxRetry, fs, n).0, batch, maxRetry, fs, n)
  {
    if n == 0 {
    } else {
      var (before, l1) := BatchDone(rows, l, batch, maxRetry, fs, n - 1);
      BatchSettles(rows, l, batch, maxRetry, fs, n - 1);
      assert batch[n - 1] in rows;
      var i :| 0 <= i < |rows| && rows[i] == batch[n - 1];
      TurnSettles(rows, before, l1, batch, maxRetry, fs, n - 1, i);
    }
  }

  /** The batch loop: each fetched row is PROCESSED, given up, or PENDING for another
      try as its own faults dictate; no other row changes. */
  lemma BatchOutcome(rows: seq<Message>, l: seq<Entry>, limit: nat, maxRetry: int, fs: seq<MessageFaults>)
    requires DistinctIds(rows)
    ensures var batch := SelectPending(rows, limit);
      BatchSoFar(rows, BatchDone(rows, l, batch, maxRetry, fs, |batch|).0, batch, maxRetry, fs, |batch|)
  {
    SelectPendingIs(rows, limit);
    var batch := SelectPending(rows, limit);
    BatchSettles(rows, l, batch, maxRetry, fs, |batch|);
  }
}
