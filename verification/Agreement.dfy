/** The two stores agree on the money: balance = opening + published + not yet published. */
module Agreement {
  import opened Shared
  import opened Domain
  import opened Accounts
  import opened Postgres
  import opened LedgerStore
  import opened Bank
  import opened System

  /** Signed total of the account's COMPLETED ledger entries. */
  function CompletedSum(l: seq<Entry>, a: Uuid): int {
    if l == [] then 0
    else
      var e := l[|l| - 1];
      CompletedSum(l[..|l| - 1], a)
      + (if e.status.Completed? && e.accountId == a then Signed(e.kind, e.amount) else 0)
  }

  /** Signed total of the account's outbox rows whose ledger entry is missing or not COMPLETED. */
  function UnpublishedSum(rows: seq<Message>, l: seq<Entry>, a: Uuid): int {
    if rows == [] then 0
    else
      var m := rows[|rows| - 1];
      UnpublishedSum(rows[..|rows| - 1], l, a)
      + (if !IsCompleted(l, m.transactionId) && m.accountId == a then RowDelta(m) else 0)
  }

  // ---- the same totals over sets of transaction ids ----

  function Delta(topic: seq<Request>, id: Uuid, a: Uuid): int {
    match Find(topic, id)
    case None => 0
    case Some(req) => if req.accountId == a then Signed(req.kind, req.amount) else 0
  }

  ghost function Total(topic: seq<Request>, ids: set<Uuid>, a: Uuid): int {
    if ids == {} then 0
    else var id :| id in ids; Delta(topic, id, a) + Total(topic, ids - {id}, a)
  }

  lemma {:induction false} TotalRemove(topic: seq<Request>, ids: set<Uuid>, id: Uuid, a: Uuid)
    requires id in ids
    ensures Total(topic, ids, a) == Delta(topic, id, a) + Total(topic, ids - {id}, a)
    decreases ids
  {
    var first :| first in ids && Total(topic, ids, a) == Delta(topic, first, a) + Total(topic, ids - {first}, a);
    if first != id {
      TotalRemove(topic, ids - {first}, id, a);
      TotalRemove(topic, ids - {id}, first, a);
      assert ids - {first} - {id} == ids - {id} - {first};
    }
  }

  lemma {:induction false} TotalSplit(topic: seq<Request>, ids: set<Uuid>, part: set<Uuid>, a: Uuid)
    requires part <= ids
    ensures Total(topic, ids, a) == Total(topic, part, a) + Total(topic, ids - part, a)
    decreases part
  {
    if part == {} {
      assert ids - part == ids;
    } else {
      var id :| id in part;
      TotalRemove(topic, ids, id, a);
      TotalRemove(topic, part, id, a);
      TotalSplit(topic, ids - {id}, part - {id}, a);
      assert ids - {id} - (part - {id}) == ids - part;
    }
  }

  function RowIds(rows: seq<Message>): set<Uuid> {
    set i | 0 <= i < |rows| :: rows[i].transactionId
  }

  function CompletedIds(l: seq<Entry>): set<Uuid> {
    set j | 0 <= j < |l| && l[j].status.Completed? :: l[j].transactionId
  }

  lemma CompletedIdsAre(l: seq<Entry>, id: Uuid)
    requires Unique(l)
    ensures id in CompletedIds(l) <==> IsCompleted(l, id)
  {
  }

  lemma OneMoreRow(rows: seq<Message>, completed: set<Uuid>)
    requires rows != [] && DistinctTransactions(rows)
    ensures var ids, ids' := RowIds(rows[..|rows| - 1]) - completed, RowIds(rows) - completed;
      var id := rows[|rows| - 1].transactionId;
      if id in completed then ids' == ids else id in ids' && ids' - {id} == ids
  {
    var init, id := rows[..|rows| - 1], rows[|rows| - 1].transactionId;
    assert RowIds(rows) == RowIds(init) + {id};
    assert id !in RowIds(init);
  }

  /** What the sums need to know of a row and of an entry: the request's account and amount. */
  predicate RowRepeats(topic: seq<Request>, m: Message) {
    && Find(topic, m.transactionId).Some?
    && var req := Find(topic, m.transactionId).value;
    && m.accountId == req.accountId && RowDelta(m) == Signed(req.kind, req.amount)
  }

  predicate EntryRepeats(topic: seq<Request>, rows: seq<Message>, e: Entry) {
    e.status.Completed? ==>
      && Find(topic, e.transactionId).Some? && HasTransaction(rows, e.transactionId)
      && var req := Find(topic, e.transactionId).value;
      && e.accountId == req.accountId && e.kind == req.kind && e.amount == req.amount
  }

  predicate DistinctTransactions(rows: seq<Message>) {
    forall i, j :: 0 <= i < j < |rows| ==> rows[i].transactionId != rows[j].transactionId
  }

  predicate Reconcilable(topic: seq<Request>, rows: seq<Message>, l: seq<Entry>) {
    && DistinctTransactions(rows) && Unique(l)
    && (forall i :: 0 <= i < |rows| ==> RowRepeats(topic, rows[i]))
    && (forall j :: 0 <= j < |l| ==> EntryRepeats(topic, rows, l[j]))
  }

  lemma {:induction false} UnpublishedIs(topic: seq<Request>, rows: seq<Message>, l: seq<Entry>, a: Uuid)
    requires DistinctTransactions(rows) && Unique(l) && forall i :: 0 <= i < |rows| ==> RowRepeats(topic, rows[i])
    ensures UnpublishedSum(rows, l, a) == Total(topic, RowIds(rows) - CompletedIds(l), a)
  {
    if rows == [] {
    } else {
      var m := rows[|rows| - 1];
      UnpublishedIs(topic, rows[..|rows| - 1], l, a);
      CompletedIdsAre(l, m.transactionId);
      OneMoreRow(rows, CompletedIds(l));
      if !IsCompleted(l, m.transactionId) {
        TotalRemove(topic, RowIds(rows) - CompletedIds(l), m.transactionId, a);
      }
    }
  }

  lemma {:induction false} CompletedIs(topic: seq<Request>, rows: seq<Message>, l: seq<Entry>, a: Uuid)
    requires Unique(l) && forall j :: 0 <= j < |l| ==> EntryRepeats(topic, rows, l[j])
    ensures CompletedSum(l, a) == Total(topic, CompletedIds(l), a)
  {
    if l == [] {
    } else {
      var init, e := l[..|l| - 1], l[|l| - 1];
      assert EntryRepeats(topic, rows, e);
      CompletedIs(topic, rows, init, a);
      assert e.transactionId !in CompletedIds(init);
      if e.status.Completed? {
        assert CompletedIds(l) == CompletedIds(init) + {e.transactionId};
        TotalRemove(topic, CompletedIds(l), e.transactionId, a);
        assert CompletedIds(l) - {e.transactionId} == CompletedIds(init);
      } else {
        assert CompletedIds(l) == CompletedIds(init);
      }
    }
  }

  lemma {:induction false} AllUnpublished(rows: seq<Message>, a: Uuid)
    ensures UnpublishedSum(rows, [], a) == Sum(rows, a)
  {
    if rows == [] {
    } else {
      AllUnpublished(rows[..|rows| - 1], a);
    }
  }

  lemma CompletedHaveRows(topic: seq<Request>, rows: seq<Message>, l: seq<Entry>)
    requires Reconcilable(topic, rows, l)
    ensures CompletedIds(l) <= RowIds(rows)
  {
    forall id | id in CompletedIds(l) ensures id in RowIds(rows) {
      var j :| 0 <= j < |l| && l[j].status.Completed? && l[j].transactionId == id;
      assert EntryRepeats(topic, rows, l[j]);
    }
  }

  /** The rows split into published and unpublished, whatever the poller has managed so far. */
  lemma SumsAgree(topic: seq<Request>, rows: seq<Message>, l: seq<Entry>, a: Uuid)
    requires Reconcilable(topic, rows, l)
    ensures Sum(rows, a) == CompletedSum(l, a) + UnpublishedSum(rows, l, a)
  {
    AllUnpublished(rows, a);
    UnpublishedIs(topic, rows, [], a);
    UnpublishedIs(topic, rows, l, a);
    CompletedIs(topic, rows, l, a);
    CompletedHaveRows(topic, rows, l);
    TotalSplit(topic, RowIds(rows), CompletedIds(l), a);
    assert RowIds(rows) - CompletedIds([]) == RowIds(rows);
  }

  lemma StoresReconcilable(topic: seq<Request>, accounts: map<Uuid, AccountRow>, rows: seq<Message>, l: seq<Entry>)
    requires RowsOk(topic, accounts, rows, l) && LedgerOk(topic, rows, l) && OutboxOk(accounts, rows)
    ensures Reconcilable(topic, rows, l)
  {
    forall i | 0 <= i < |rows| ensures RowRepeats(topic, rows[i]) {
      assert RowOk(topic, accounts, l, rows[i]);
    }
    forall j | 0 <= j < |l| ensures EntryRepeats(topic, rows, l[j]) {
      assert EntryOk(topic, rows, l[j]);
    }
  }

  /** In every state the invariant allows, the balance is the opening balance plus the
      COMPLETED ledger entries plus the rows not yet COMPLETED in the ledger. */
  lemma StoresAgree(s: Sys, a: Uuid)
    requires SysInv(s) && a in s.stores.pg.accounts
    ensures a in s.opening
    ensures s.stores.pg.accounts[a].balance
         == s.opening[a] + CompletedSum(s.stores.ledger, a) + UnpublishedSum(s.stores.pg.outbox, s.stores.ledger, a)
  {
    assert BooksOk(Bank(s.stores.pg.accounts, s.stores.pg.outbox, s.opening), a);
    StoresReconcilable(s.topic, s.stores.pg.accounts, s.stores.pg.outbox, s.stores.ledger);
    SumsAgree(s.topic, s.stores.pg.outbox, s.stores.ledger, a);
  }

  lemma {:induction false} NothingUnpublished(topic: seq<Request>, accounts: map<Uuid, AccountRow>, rows: seq<Message>,
                                              l: seq<Entry>, a: Uuid)
    requires RowsOk(topic, accounts, rows, l)
    requires forall i :: 0 <= i < |rows| && rows[i].accountId == a ==> rows[i].status.OutboxProcessed?
    ensures UnpublishedSum(rows, l, a) == 0
  {
    if rows == [] {
    } else {
      assert RowOk(topic, accounts, l, rows[|rows| - 1]);
      NothingUnpublished(topic, accounts, rows[..|rows| - 1], l, a);
    }
  }

  /** Once all of an account's rows are PROCESSED the ledger alone reproduces its balance. */
  lemma LedgerReproducesBalance(s: Sys, a: Uuid)
    requires SysInv(s) && a in s.stores.pg.accounts
    requires forall i :: 0 <= i < |s.stores.pg.outbox| && s.stores.pg.outbox[i].accountId == a ==>
               s.stores.pg.outbox[i].status.OutboxProcessed?
    ensures a in s.opening && s.stores.pg.accounts[a].balance == s.opening[a] + CompletedSum(s.stores.ledger, a)
  {
    StoresAgree(s, a);
    NothingUnpublished(s.topic, s.stores.pg.accounts, s.stores.pg.outbox, s.stores.ledger, a);
  }
}
