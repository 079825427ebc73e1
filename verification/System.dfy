/** Whole runs of the pipeline over both stores: submissions, deliveries in any number
    and order, and one outbox poller, under injected errors in every store call. */
module System {
  import opened Shared
  import opened Domain
  import opened Accounts
  import opened Postgres
  import opened LedgerStore
  import opened Bank
  import opened Workers
  import opened Processing
  import opened Outcome
  import opened Publishing
  import opened Batch
  import opened Gateway

  /** batch holds the snapshots the poller has fetched and not yet handled. */
  datatype Sys = Sys(topic: seq<Request>, opening: map<Uuid, int64>, stores: Stores, batch: seq<Message>)

  const START := Sys([], map[], Stores(Tables(map[], [], 1), []), [])

  datatype Event =
    | Submit(req: Request, submit: SubmitFaults)
    | Open(id: Uuid, row: AccountRow)
    | Deliver(transaction: Uuid, now: int, process: ProcessFaults)
    | Fetch(limit: nat)
    | Handle(message: MessageFaults)
    | Restart  // the poller dies between two messages

  /** The request published under a transaction id. */
  function Find(topic: seq<Request>, id: Uuid): (r: Option<Request>)
    ensures r.Some? ==> r.value.transactionId == id
  {
    if topic == [] then None
    else if topic[|topic| - 1].transactionId == id then Some(topic[|topic| - 1])
    else Find(topic[..|topic| - 1], id)
  }

  predicate Possible(s: Sys, e: Event) {
    match e
    case Submit(req, _) => Find(s.topic, req.transactionId).None?  // a fresh UUID
    case Open(id, row) => CreateAccountRow(s.stores.pg, id, row, NoFault).1.None? && row.version == 1
    case Deliver(id, _, _) => Find(s.topic, id).Some?
    case Fetch(_) => s.batch == []
    case Handle(_) => s.batch != []
    case Restart => true
  }

  function After(s: Sys, maxRetry: int, e: Event): Sys
    requires Possible(s, e)
  {
    match e
    case Submit(req, f) => s.(topic := Submitted(s.stores.ledger, s.topic, req, f).0)
    case Open(id, row) =>
      s.(opening := s.opening[id := row.balance],
         stores := s.stores.(pg := CreateAccountRow(s.stores.pg, id, row, NoFault).0))
    case Deliver(id, now, f) => s.(stores := Processed(s.stores, Find(s.topic, id).value, now, f).0)
    case Fetch(limit) => s.(batch := SelectPending(s.stores.pg.outbox, limit))
    case Handle(f) =>
      var (rows, l) := Handled(s.stores.pg.outbox, s.stores.ledger, s.batch[0], maxRetry, f);
      s.(stores := Stores(s.stores.pg.(outbox := rows), l), batch := s.batch[1..])
    case Restart => s.(batch := [])
  }

  // ---- the invariant ----

  predicate IsCompleted(l: seq<Entry>, id: Uuid) {
    EntryIndex(l, id).Some? && l[EntryIndex(l, id).value].status.Completed?
  }

  /** A row is the request's own, its account has the request's currency, and PROCESSED means published. */
  predicate RowOk(topic: seq<Request>, accounts: map<Uuid, AccountRow>, l: seq<Entry>, m: Message) {
    && Find(topic, m.transactionId).Some?
    && var req := Find(topic, m.transactionId).value;
    && WellFormed(req)
    && m == AppliedRow(req, m.id, m.createdAt).(status := m.status, attempts := m.attempts)
    && m.accountId in accounts && accounts[m.accountId].currency == req.currency
    && (m.status.OutboxProcessed? ==> IsCompleted(l, m.transactionId))
  }

  /** Only COMPLETED and FAILED are stored; COMPLETED means the money moved; FAILED beside
      a row is a redelivered withdrawal that no longer fits, not yet published. */
  predicate EntryOk(topic: seq<Request>, rows: seq<Message>, e: Entry) {
    && Find(topic, e.transactionId).Some? && Faithful(e, Find(topic, e.transactionId).value) && e.processed
    && match e.status
       case Completed => e.failureReason == NoReason && HasTransaction(rows, e.transactionId)
       case Failed =>
         && e.failureReason != NoReason
         && forall i :: 0 <= i < |rows| && rows[i].transactionId == e.transactionId ==>
              e.kind.Withdrawal? && e.failureReason == InsufficientFundsReason && !rows[i].status.OutboxProcessed?
       case _ => false
  }

  predicate RowsOk(topic: seq<Request>, accounts: map<Uuid, AccountRow>, rows: seq<Message>, l: seq<Entry>) {
    forall i :: 0 <= i < |rows| ==> RowOk(topic, accounts, l, rows[i])
  }

  predicate LedgerOk(topic: seq<Request>, rows: seq<Message>, l: seq<Entry>) {
    Unique(l) && forall j :: 0 <= j < |l| ==> EntryOk(topic, rows, l[j])
  }

  predicate SnapshotsOk(rows: seq<Message>, batch: seq<Message>) {
    DistinctIds(batch) && forall k :: 0 <= k < |batch| ==> batch[k] in rows && batch[k].status.OutboxPending?
  }

  ghost predicate SysInv(s: Sys) {
    && BankOk(Bank(s.stores.pg.accounts, s.stores.pg.outbox, s.opening)) && IdsBelow(s.stores.pg)
    && RowsOk(s.topic, s.stores.pg.accounts, s.stores.pg.outbox, s.stores.ledger)
    && LedgerOk(s.topic, s.stores.pg.outbox, s.stores.ledger)
    && SnapshotsOk(s.stores.pg.outbox, s.batch)
  }

  // ---- submissions ----

  lemma FindAppended(topic: seq<Request>, req: Request, id: Uuid)
    ensures Find(topic + [req], id) == if req.transactionId == id then Some(req) else Find(topic, id)
  {
  }

  lemma SubmitKeeps(s: Sys, maxRetry: int, e: Event)
    requires SysInv(s) && e.Submit? && Possible(s, e)
    ensures SysInv(After(s, maxRetry, e))
  {
    var topic, rows, l := s.topic, s.stores.pg.outbox, s.stores.ledger;
    var topic' := After(s, maxRetry, e).topic;
    if topic' != topic {
      assert topic' == topic + [e.req];
      forall id ensures Find(topic, id).Some? ==> Find(topic', id) == Find(topic, id) {
        FindAppended(topic, e.req, id);
      }
      forall i | 0 <= i < |rows| ensures RowOk(topic', s.stores.pg.accounts, l, rows[i]) {
        assert RowOk(topic, s.stores.pg.accounts, l, rows[i]);
      }
      forall j | 0 <= j < |l| ensures EntryOk(topic', rows, l[j]) {
        assert EntryOk(topic, rows, l[j]);
      }
    }
  }

  lemma OpenKeepsSys(s: Sys, maxRetry: int, e: Event)
    requires SysInv(s) && e.Open? && Possible(s, e)
    ensures SysInv(After(s, maxRetry, e))
  {
    var pg, pg' := s.stores.pg, After(s, maxRetry, e).stores.pg;
    OpenKeeps(Bank(pg.accounts, pg.outbox, s.opening), e.id, e.row);
    forall i | 0 <= i < |pg.outbox| ensures RowOk(s.topic, pg'.accounts, s.stores.ledger, pg.outbox[i]) {
      assert RowOk(s.topic, pg.accounts, s.stores.ledger, pg.outbox[i]);
    }
  }

  // ---- deliveries ----

  lemma AppliedRows(topic: seq<Request>, t: Tables, t': Tables, l: seq<Entry>, req: Request, now: int)
    requires AccountsOk(t.accounts) && AppliedTo(t, t', req, now) && RowsOk(topic, t.accounts, t.outbox, l)
    requires Find(topic, req.transactionId) == Some(req)
    ensures RowsOk(topic, t'.accounts, t'.outbox, l)
  {
  }

  /** In a ledger that stores only final statuses, not terminal means absent. */
  lemma NotTerminalIsAbsent(topic: seq<Request>, rows: seq<Message>, l: seq<Entry>, id: Uuid)
    requires LedgerOk(topic, rows, l)
    ensures Terminal(l, id) <==> EntryIndex(l, id).Some?
  {
  }

  lemma AppliedLedger(topic: seq<Request>, rows: seq<Message>, m: Message, l: seq<Entry>)
    requires LedgerOk(topic, rows, l) && EntryIndex(l, m.transactionId).None?
    ensures LedgerOk(topic, rows + [m], l)
  {
    forall j | 0 <= j < |l| ensures EntryOk(topic, rows + [m], l[j]) {
      assert EntryOk(topic, rows, l[j]);
      if HasTransaction(rows, l[j].transactionId) {
        var i :| 0 <= i < |rows| && rows[i].transactionId == l[j].transactionId;
        assert (rows + [m])[i].transactionId == l[j].transactionId;
      }
    }
  }

  lemma AppliedBank(t: Tables, t': Tables, opening: map<Uuid, int64>, req: Request, now: int)
    requires BankOk(Bank(t.accounts, t.outbox, opening)) && IdsBelow(t) && AppliedTo(t, t', req, now)
    ensures BankOk(Bank(t'.accounts, t'.outbox, opening)) && IdsBelow(t')
  {
    var b := Bank(t.accounts, t.outbox, opening);
    assert CanApply(b, req, t.nextId);
    ApplyKeeps(b, req, t.nextId, now);
  }

  lemma CommittedKeeps(s: Sys, s': Sys, req: Request, now: int)
    requires SysInv(s) && Find(s.topic, req.transactionId) == Some(req)
    requires Committed(s.stores, s'.stores, req, now) && s' == s.(stores := s'.stores)
    ensures SysInv(s')
  {
    var t, t' := s.stores.pg, s'.stores.pg;
    NotTerminalIsAbsent(s.topic, t.outbox, s.stores.ledger, req.transactionId);
    AppliedBank(t, t', s.opening, req, now);
    AppliedRows(s.topic, t, t', s.stores.ledger, req, now);
    AppliedLedger(s.topic, t.outbox, AppliedRow(req, t.nextId, now), s.stores.ledger);
  }

  /** Recording a failure either changes nothing or adds the one entry of its transaction. */
  lemma RecordedIs(l: seq<Entry>, req: Request, reason: FailureReason, f: RecordFaults)
    requires EntryIndex(l, req.transactionId).Some? ==> l[EntryIndex(l, req.transactionId).value].status.Failed?
    ensures var l' := Recorded(l, req, reason, f).0;
      l' == l || (l' == l + [FailedEntry(req, reason)] && EntryIndex(l, req.transactionId).None?)
  {
  }

  lemma CompletedStays(l: seq<Entry>, e: Entry, id: Uuid)
    requires IsCompleted(l, id)
    ensures IsCompleted(l + [e], id)
  {
    var i := EntryIndex(l, id).value;
    assert (l + [e])[i].transactionId == id;
    assert EntryIndex(l + [e], id) == Some(i);
  }

  lemma AddedEntry(topic: seq<Request>, accounts: map<Uuid, AccountRow>, rows: seq<Message>, l: seq<Entry>, e: Entry)
    requires RowsOk(topic, accounts, rows, l) && LedgerOk(topic, rows, l)
    requires EntryIndex(l, e.transactionId).None? && EntryOk(topic, rows, e)
    ensures RowsOk(topic, accounts, rows, l + [e]) && LedgerOk(topic, rows, l + [e])
  {
    forall i | 0 <= i < |rows| ensures RowOk(topic, accounts, l + [e], rows[i]) {
      assert RowOk(topic, accounts, l, rows[i]);
      if rows[i].status.OutboxProcessed? {
        CompletedStays(l, e, rows[i].transactionId);
      }
    }
  }

  /** A refusal of a request whose money already moved can only be a withdrawal that no longer fits. */
  lemma RefusedAgain(topic: seq<Request>, t: Tables, l: seq<Entry>, req: Request, i: nat)
    requires RowsOk(topic, t.accounts, t.outbox, l) && Find(topic, req.transactionId) == Some(req)
    requires i < |t.outbox| && t.outbox[i].transactionId == req.transactionId && RefusalReason(t.accounts, req).Some?
    ensures WellFormed(req) && req.kind.Withdrawal? && RefusalReason(t.accounts, req) == Some(InsufficientFundsReason)
  {
  }

  lemma CompletedIsWellFormed(topic: seq<Request>, accounts: map<Uuid, AccountRow>, rows: seq<Message>, l: seq<Entry>,
                              req: Request)
    requires RowsOk(topic, accounts, rows, l) && LedgerOk(topic, rows, l)
    requires Find(topic, req.transactionId) == Some(req) && IsCompleted(l, req.transactionId)
    ensures WellFormed(req)
  {
  }

  lemma RefusedKeeps(s: Sys, s': Sys, req: Request, f: RecordFaults)
    requires SysInv(s) && Find(s.topic, req.transactionId) == Some(req)
    requires Refused(s.stores, s'.stores, req, f) && s' == s.(stores := s'.stores)
        && s'.stores.pg.nextId >= s.stores.pg.nextId
    ensures SysInv(s')
    ensures s'.stores.ledger == s.stores.ledger
            || (EntryIndex(s.stores.ledger, req.transactionId).None?
                && s'.stores.ledger == s.stores.ledger
                    + [FailedEntry(req, RefusalReason(s.stores.pg.accounts, req).value)])
  {
    var topic, t, l := s.topic, s.stores.pg, s.stores.ledger;
    var reason := RefusalReason(t.accounts, req).value;
    NotTerminalIsAbsent(topic, t.outbox, l, req.transactionId);
    if EntryIndex(l, req.transactionId).Some? {
      assert EntryOk(topic, t.outbox, l[EntryIndex(l, req.transactionId).value]);
      if IsCompleted(l, req.transactionId) {
        CompletedIsWellFormed(topic, t.accounts, t.outbox, l, req);
      }
    }
    RecordedIs(l, req, reason, f);
    if s'.stores.ledger != l {
      var e := FailedEntry(req, reason);
      forall i | 0 <= i < |t.outbox| && t.outbox[i].transactionId == e.transactionId
        ensures e.kind.Withdrawal? && e.failureReason == InsufficientFundsReason && !t.outbox[i].status.OutboxProcessed?
      {
        RefusedAgain(topic, t, l, req, i);
        assert RowOk(topic, t.accounts, l, t.outbox[i]);
      }
      AddedEntry(topic, t.accounts, t.outbox, l, e);
    }
  }

  lemma UnchangedKeeps(s: Sys, s': Sys)
    requires SysInv(s) && s' == s.(stores := s'.stores)
    requires SameBooks(s.stores.pg, s'.stores.pg) && s'.stores.pg.nextId >= s.stores.pg.nextId
    requires s'.stores.ledger == s.stores.ledger
    ensures SysInv(s')
  {
  }

  lemma DeliverKeeps(s: Sys, maxRetry: int, e: Event)
    requires SysInv(s) && e.Deliver? && Possible(s, e)
    ensures SysInv(After(s, maxRetry, e))
  {
    var s' := After(s, maxRetry, e);
    var req := Find(s.topic, e.transaction).value;
    OutcomeContract(s.stores, req, e.now, e.process);
    if Committed(s.stores, s'.stores, req, e.now) {
      CommittedKeeps(s, s', req, e.now);
    } else if Refused(s.stores, s'.stores, req, e.process.record) {
      RefusedKeeps(s, s', req, e.process.record);
    } else {
      UnchangedKeeps(s, s');
    }
  }

  // ---- the poller ----

  lemma LedgerWithCompletes(l: seq<Entry>, payload: Entry, id: Uuid)
    requires Unique(l) && (IsCompleted(l, id) || id == payload.transactionId)
    ensures IsCompleted(LedgerWith(l, payload), id)
  {
    LedgerWithSettles(l, payload);
    if id != payload.transactionId {
      var i := EntryIndex(l, id).value;
      assert LedgerWith(l, payload)[i].transactionId == id;
    }
  }

  /** Completing the entry of a row keeps every entry in order. */
  lemma PublishedKeeps(topic: seq<Request>, accounts: map<Uuid, AccountRow>, rows: seq<Message>, l: seq<Entry>, i: nat)
    requires RowsOk(topic, accounts, rows, l) && LedgerOk(topic, rows, l) && i < |rows|
    ensures rows[i].payload.Decodes? && rows[i].payload.entry.transactionId == rows[i].transactionId
    ensures var l' := LedgerWith(l, rows[i].payload.entry);
      RowsOk(topic, accounts, rows, l') && LedgerOk(topic, rows, l') && IsCompleted(l', rows[i].transactionId)
  {
    assert RowOk(topic, accounts, l, rows[i]);
    var payload := rows[i].payload.entry;
    var l' := LedgerWith(l, payload);
    LedgerWithSettles(l, payload);
    LedgerWithCompletes(l, payload, rows[i].transactionId);
    forall k | 0 <= k < |rows| ensures RowOk(topic, accounts, l', rows[k]) {
      assert RowOk(topic, accounts, l, rows[k]);
      if rows[k].status.OutboxProcessed? {
        LedgerWithCompletes(l, payload, rows[k].transactionId);
      }
    }
    forall j | 0 <= j < |l'| ensures EntryOk(topic, rows, l'[j]) {
      if j < |l| {
        assert EntryOk(topic, rows, l[j]);
      }
    }
  }

  /** Changing a row's status and attempts keeps rows and ledger in order, as long as
      PROCESSED is written only beside a completed entry. */
  lemma RowChangeKeeps(topic: seq<Request>, accounts: map<Uuid, AccountRow>, rows: seq<Message>, l: seq<Entry>,
                       i: nat, m: Message)
    requires RowsOk(topic, accounts, rows, l) && LedgerOk(topic, rows, l) && i < |rows|
    requires m == rows[i].(status := m.status, attempts := m.attempts)
    requires m.status.OutboxProcessed? ==> IsCompleted(l, m.transactionId)
    ensures RowsOk(topic, accounts, rows[i := m], l) && LedgerOk(topic, rows[i := m], l)
  {
    var rows' := rows[i := m];
    assert RowOk(topic, accounts, l, rows[i]);
    forall j | 0 <= j < |l| ensures EntryOk(topic, rows', l[j]) {
      assert EntryOk(topic, rows, l[j]);
      if l[j].status.Completed? {
        var k :| 0 <= k < |rows| && rows[k].transactionId == l[j].transactionId;
        assert rows'[k].transactionId == l[j].transactionId;
      } else if m.transactionId == l[j].transactionId {
        assert rows[i].transactionId == l[j].transactionId;
        assert EntryIndex(l, m.transactionId) == Some(j);
      }
    }
  }

  /** The remaining snapshots still match their rows. */
  lemma SnapshotsKeep(rows: seq<Message>, batch: seq<Message>, i: nat, m: Message)
    requires SnapshotsOk(rows, batch) && batch != [] && i < |rows| && rows[i] == batch[0]
    ensures SnapshotsOk(rows[i := m], batch[1..])
  {
    forall k | 0 <= k < |batch[1..]| ensures batch[1..][k] in rows[i := m] {
      assert batch[k + 1] in rows;
      var j :| 0 <= j < |rows| && rows[j] == batch[k + 1];
      assert batch[0].id != batch[k + 1].id;
      assert rows[i := m][j] == batch[k + 1];
    }
  }

  /** What handling a snapshot does to its row and the ledger. */
  ghost predicate HandledRow(rows: seq<Message>, l: seq<Entry>, rows': seq<Message>, l': seq<Entry>, i: nat,
                             maxRetry: int, f: MessageFaults) {
    && i < |rows| == |rows'| && rows[i].status.OutboxPending?
    && rows' == rows[i := rows'[i]] && Settled(rows[i], rows'[i], maxRetry, f)
    && rows[i].payload.Decodes?
    && (l' == l || l' == LedgerWith(l, rows[i].payload.entry))
    && (rows'[i].status.OutboxProcessed? ==> l' == LedgerWith(l, rows[i].payload.entry))
  }

  lemma HandleRowIs(topic: seq<Request>, accounts: map<Uuid, AccountRow>, rows: seq<Message>, l: seq<Entry>, m: Message,
                    maxRetry: int, f: MessageFaults) returns (i: nat)
    requires RowsOk(topic, accounts, rows, l) && DistinctIds(rows) && m in rows && m.status.OutboxPending?
    ensures i < |rows| && rows[i] == m
    ensures HandledRow(rows, l, Handled(rows, l, m, maxRetry, f).0, Handled(rows, l, m, maxRetry, f).1, i, maxRetry, f)
  {
    i :| 0 <= i < |rows| && rows[i] == m;
    assert RowOk(topic, accounts, l, rows[i]);
    HandledSettles(rows, l, i, maxRetry, f);
    HandledLedger(rows, l, i, maxRetry, f);
  }

  lemma InvParts(s: Sys)
    requires SysInv(s)
    ensures RowsOk(s.topic, s.stores.pg.accounts, s.stores.pg.outbox, s.stores.ledger)
        && DistinctIds(s.stores.pg.outbox)
    ensures s.batch != [] ==> s.batch[0] in s.stores.pg.outbox && s.batch[0].status.OutboxPending?
  {
  }

  lemma HandleIs(s: Sys, maxRetry: int, f: MessageFaults) returns (i: nat)
    requires SysInv(s) && s.batch != []
    ensures i < |s.stores.pg.outbox| && s.stores.pg.outbox[i] == s.batch[0]
    ensures var (rows', l') := Handled(s.stores.pg.outbox, s.stores.ledger, s.batch[0], maxRetry, f);
      HandledRow(s.stores.pg.outbox, s.stores.ledger, rows', l', i, maxRetry, f)
  {
    InvParts(s);
    i := HandleRowIs(s.topic, s.stores.pg.accounts, s.stores.pg.outbox, s.stores.ledger, s.batch[0], maxRetry, f);
  }

  lemma HandledKeeps(s: Sys, rows': seq<Message>, l': seq<Entry>, i: nat, maxRetry: int, f: MessageFaults)
    requires SysInv(s) && s.batch != [] && HandledRow(s.stores.pg.outbox, s.stores.ledger, rows', l', i, maxRetry, f)
    requires s.stores.pg.outbox[i] == s.batch[0]
    ensures SysInv(s.(stores := Stores(s.stores.pg.(outbox := rows'), l'), batch := s.batch[1..]))
  {
    var pg, rows, l := s.stores.pg, s.stores.pg.outbox, s.stores.ledger;
    SameMoneySameBooks(Bank(pg.accounts, rows, s.opening), rows');
    PublishedKeeps(s.topic, pg.accounts, rows, l, i);
    RowChangeKeeps(s.topic, pg.accounts, rows, l', i, rows'[i]);
    SnapshotsKeep(rows, s.batch, i, rows'[i]);
  }

  lemma AfterHandle(s: Sys, maxRetry: int, f: MessageFaults)
    requires s.batch != []
    ensures var (rows', l') := Handled(s.stores.pg.outbox, s.stores.ledger, s.batch[0], maxRetry, f);
      After(s, maxRetry, Handle(f)) == s.(stores := Stores(s.stores.pg.(outbox := rows'), l'), batch := s.batch[1..])
  {
  }

  lemma HandleKeeps(s: Sys, maxRetry: int, f: MessageFaults)
    requires SysInv(s) && s.batch != []
    ensures SysInv(After(s, maxRetry, Handle(f)))
  {
    AfterHandle(s, maxRetry, f);
    var i := HandleIs(s, maxRetry, f);
    var (rows', l') := Handled(s.stores.pg.outbox, s.stores.ledger, s.batch[0], maxRetry, f);
    HandledKeeps(s, rows', l', i, maxRetry, f);
  }

  lemma FetchKeeps(s: Sys, maxRetry: int, limit: nat)
    requires SysInv(s)
    ensures SysInv(s.(batch := SelectPending(s.stores.pg.outbox, limit)))
  {
    SelectPendingIs(s.stores.pg.outbox, limit);
  }

  /** Every step, under any faults, keeps the invariant. */
  lemma AfterKeeps(s: Sys, maxRetry: int, e: Event)
    requires SysInv(s) && Possible(s, e)
    ensures SysInv(After(s, maxRetry, e))
  {
    match e
    case Submit(_, _) => SubmitKeeps(s, maxRetry, e);
    case Open(_, _) => OpenKeepsSys(s, maxRetry, e);
    case Deliver(_, _, _) => DeliverKeeps(s, maxRetry, e);
    case Fetch(limit) => FetchKeeps(s, maxRetry, limit);
    case Handle(f) => HandleKeeps(s, maxRetry, f);
    case Restart =>
  }
}
