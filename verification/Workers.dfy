/** Any number of workers running ProcessTransaction's database transaction
    concurrently, statement by statement, under READ COMMITTED with row locks. */
module Workers {
  import opened Shared
  import opened Domain
  import opened Accounts
  import opened Postgres
  import opened Bank
  import opened Replay
  import opened Sorting

  /** Where a worker is: transaction begun, row locked, row updated, outbox row
      inserted, or on the error path with the deferred rollback still to run. */
  datatype Pc = Began | Locked | Updated | Inserted | Aborting

  datatype Worker = Idle | Running(req: Request, pc: Pc, tx: TxState, seen: Option<AccountRow>)

  /** opening records each account's first balance; no step reads it. */
  datatype State = State(tables: Tables, opening: map<Uuid, int64>, workers: seq<Worker>)

  datatype Label =
    | Start(w: nat, req: Request)   // delivered, valid, ledger check passed, BEGIN
    | Lock(w: nat)
    | Update(w: nat)
    | Insert(w: nat, now: int)
    | Commit(w: nat, f: Fault)
    | Rollback(w: nat)
    | Fail(w: nat)                  // a statement reports a driver error
    | Crash(w: nat)                 // the process dies and the server drops the transaction
    | OpenAccount(id: Uuid, row: AccountRow)
    | Poll(rowId: int, status: OutboxStatus, attempts: int)

  predicate At(s: State, w: nat, pc: Pc) {
    w < |s.workers| && s.workers[w].Running? && s.workers[w].pc == pc
  }

  /** No other open transaction holds the row lock. */
  predicate RowFree(s: State, w: nat, id: Uuid) {
    forall v :: 0 <= v < |s.workers| && v != w && s.workers[v].Running? ==> id !in s.workers[v].tx.locks
  }

  /** No other open transaction has inserted this transaction id: the unique index would block. */
  predicate KeyFree(s: State, w: nat, id: Uuid) {
    forall v :: 0 <= v < |s.workers| && v != w && s.workers[v].Running? ==> !HasTransaction(s.workers[v].tx.inserts, id)
  }

  predicate Enabled(s: State, l: Label) {
    match l
    case Start(w, req) => w < |s.workers| && s.workers[w].Idle? && WellFormed(req)
    case Lock(w) => At(s, w, Began) && RowFree(s, w, s.workers[w].req.accountId)
    case Update(w) => At(s, w, Locked) && s.workers[w].seen.Some?
    case Insert(w, _) => At(s, w, Updated) && KeyFree(s, w, s.workers[w].req.transactionId)
    case Commit(w, _) => At(s, w, Inserted)
    case Rollback(w) => At(s, w, Aborting)
    case Fail(w) => w < |s.workers| && s.workers[w].Running?
    case Crash(w) => w < |s.workers| && s.workers[w].Running?
    case OpenAccount(id, row) => CreateAccountRow(s.tables, id, row, NoFault).1.None? && row.version == 1
    case Poll(rowId, _, _) => IndexById(s.tables.outbox, rowId).Some?
  }

  function AfterLock(t: Tables, wk: Worker): Worker
    requires wk.Running?
  {
    match LockRow(t, wk.tx, wk.req.accountId)
    case Ok((tx, row)) => wk.(pc := Locked, tx := tx, seen := Some(row))
    case Err(_) => wk.(pc := Aborting)
  }

  function AfterUpdate(t: Tables, wk: Worker): Worker
    requires wk.Running? && wk.seen.Some?
  {
    match Decide(wk.seen.value, wk.req)
    case Err(_) => wk.(pc := Aborting)
    case Ok(acc) =>
      match UpdateRow(t, wk.tx, wk.req.accountId, acc)
      case Ok(tx) => wk.(pc := Updated, tx := tx)
      case Err(_) => wk.(pc := Aborting)
  }

  function AfterInsert(t: Tables, wk: Worker, now: int): (Tables, Worker)
    requires wk.Running?
  {
    var (t', r) := InsertRow(t, wk.tx, NewMessage(ProcessingEntry(wk.req), now));
    match r
    case Ok((tx, _)) => (t', wk.(pc := Inserted, tx := tx))
    case Err(_) => (t', wk.(pc := Aborting))
  }

  function With(s: State, w: nat, wk: Worker): State
    requires w < |s.workers|
  {
    s.(workers := s.workers[w := wk])
  }

  function Next(s: State, l: Label): State
    requires Enabled(s, l)
  {
    match l
    case Start(w, req) => With(s, w, Running(req, Began, EMPTY_TX, None))
    case Lock(w) => With(s, w, AfterLock(s.tables, s.workers[w]))
    case Update(w) => With(s, w, AfterUpdate(s.tables, s.workers[w]))
    case Insert(w, now) =>
      var (t, wk) := AfterInsert(s.tables, s.workers[w], now);
      With(s, w, wk).(tables := t)
    case Commit(w, f) =>
      if f.Lost? then With(s, w, s.workers[w].(pc := Aborting))
      else With(s, w, Idle).(tables := CommitTx(s.tables, s.workers[w].tx))
    case Rollback(w) => With(s, w, Idle)
    case Fail(w) => With(s, w, s.workers[w].(pc := Aborting))
    case Crash(w) => With(s, w, Idle)
    case OpenAccount(id, row) =>
      s.(tables := CreateAccountRow(s.tables, id, row, NoFault).0, opening := s.opening[id := row.balance])
    case Poll(rowId, status, attempts) =>
      var i := IndexById(s.tables.outbox, rowId).value;
      s.(tables := s.tables.(outbox :=
           s.tables.outbox[i := s.tables.outbox[i].(status := status, attempts := attempts)]))
  }

  // ---- the invariant ----

  function BankOf(s: State): Bank {
    Bank(s.tables.accounts, s.tables.outbox, s.opening)
  }

  /** The lock holder's snapshot is the committed row. */
  predicate Holds(t: Tables, wk: Worker)
    requires wk.Running?
  {
    && wk.tx.locks == {wk.req.accountId}
    && wk.req.accountId in t.accounts
    && wk.seen == Some(t.accounts[wk.req.accountId])
    && Sound(t.accounts[wk.req.accountId])
  }

  predicate Wrote(wk: Worker)
    requires wk.Running?
  {
    && wk.seen.Some? && Sound(wk.seen.value) && Acceptable(wk.seen.value, wk.req)
    && wk.tx.writes == map[wk.req.accountId := Moved(wk.seen.value, wk.req)]
  }

  predicate HasInserted(t: Tables, wk: Worker)
    requires wk.Running?
  {
    && |wk.tx.inserts| == 1
    && wk.tx.inserts[0] == AppliedRow(wk.req, wk.tx.inserts[0].id, wk.tx.inserts[0].createdAt)
    && FreshId(t.outbox, wk.req.accountId, wk.tx.inserts[0].id)
    && !HasTransaction(t.outbox, wk.req.transactionId)
  }

  predicate WorkerOk(t: Tables, wk: Worker) {
    wk.Running? ==>
      && WellFormed(wk.req)
      && wk.tx.locks <= {wk.req.accountId}
      && (forall i :: 0 <= i < |wk.tx.inserts| ==> wk.tx.inserts[i].id < t.nextId)
      && match wk.pc
         case Began => wk.tx == EMPTY_TX
         case Locked => Holds(t, wk) && wk.tx.writes == map[] && wk.tx.inserts == []
         case Updated => Holds(t, wk) && Wrote(wk) && wk.tx.inserts == []
         case Inserted => Holds(t, wk) && Wrote(wk) && HasInserted(t, wk)
         case Aborting => true
  }

  predicate Compatible(a: Worker, b: Worker) {
    a.Running? && b.Running? ==>
      && a.tx.locks !! b.tx.locks
      && forall i, j :: 0 <= i < |a.tx.inserts| && 0 <= j < |b.tx.inserts| ==>
           a.tx.inserts[i].id != b.tx.inserts[j].id
           && a.tx.inserts[i].transactionId != b.tx.inserts[j].transactionId
  }

  predicate IdsBelow(t: Tables) {
    forall i :: 0 <= i < |t.outbox| ==> t.outbox[i].id < t.nextId
  }

  predicate WorkersOk(t: Tables, ws: seq<Worker>) {
    && (forall w :: 0 <= w < |ws| ==> WorkerOk(t, ws[w]))
    && forall v, w :: 0 <= v < |ws| && 0 <= w < |ws| && v != w ==> Compatible(ws[v], ws[w])
  }

  ghost predicate Inv(s: State) {
    BankOk(BankOf(s)) && IdsBelow(s.tables) && WorkersOk(s.tables, s.workers)
  }

  // ---- one step ----

  /** What a step makes visible to everyone; None for a step that is private to its worker. */
  function EventOf(s: State, l: Label): Option<Event>
    requires Enabled(s, l)
  {
    match l
    case Commit(w, f) =>
      var wk := s.workers[w];
      if f.Lost? || wk.tx.inserts == [] then None
      else Some(Applied(wk.req, wk.tx.inserts[0].id, wk.tx.inserts[0].createdAt))
    case OpenAccount(id, row) => Some(Opened(id, row))
    case Poll(rowId, status, attempts) => Some(Polled(rowId, status, attempts))
    case _ => None
  }

  /** Replacing one worker needs only that worker's facts. */
  lemma ReplaceWorker(t: Tables, ws: seq<Worker>, w: nat, wk: Worker)
    requires w < |ws| && WorkersOk(t, ws) && WorkerOk(t, wk)
    requires forall v :: 0 <= v < |ws| && v != w ==> Compatible(ws[v], wk) && Compatible(wk, ws[v])
    ensures WorkersOk(t, ws[w := wk])
  {
  }

  /** A worker that takes no new lock and inserts nothing new stays compatible with the rest. */
  lemma ShrinkWorker(t: Tables, ws: seq<Worker>, w: nat, wk: Worker)
    requires w < |ws| && ws[w].Running? && WorkersOk(t, ws) && WorkerOk(t, wk)
    requires wk.Running? ==> wk.tx.locks == ws[w].tx.locks && wk.tx.inserts == ws[w].tx.inserts
    ensures WorkersOk(t, ws[w := wk])
  {
  }

  lemma LockKeeps(s: State, w: nat)
    requires Inv(s) && Enabled(s, Lock(w))
    ensures Inv(Next(s, Lock(w)))
  {
    var prior, wk := s.workers[w], AfterLock(s.tables, s.workers[w]);
    assert WorkerOk(s.tables, prior);
    assert s.tables.accounts + map[] == s.tables.accounts;
    assert WorkerOk(s.tables, wk);
    forall v | 0 <= v < |s.workers| && v != w ensures Compatible(s.workers[v], wk) && Compatible(wk, s.workers[v]) {
      assert Compatible(s.workers[v], prior) && Compatible(prior, s.workers[v]);
    }
    ReplaceWorker(s.tables, s.workers, w, wk);
  }

  /** With the lock held the UPDATE succeeds exactly when the money may move. */
  lemma UpdateUnderLock(t: Tables, wk: Worker)
    requires wk.Running? && wk.pc == Locked && WorkerOk(t, wk) && AccountsOk(t.accounts)
    ensures AfterUpdate(t, wk).pc == (if Acceptable(wk.seen.value, wk.req) then Updated else Aborting)
    ensures WorkerOk(t, AfterUpdate(t, wk))
    ensures Decide(wk.seen.value, wk.req).Ok? ==>
      UpdateRow(t, wk.tx, wk.req.accountId, Decide(wk.seen.value, wk.req).value)
        != Err(ErrConcurrentModification(wk.req.accountId))
  {
  }

  lemma UpdateKeeps(s: State, w: nat)
    requires Inv(s) && Enabled(s, Update(w))
    ensures Inv(Next(s, Update(w)))
  {
    UpdateUnderLock(s.tables, s.workers[w]);
    ShrinkWorker(s.tables, s.workers, w, AfterUpdate(s.tables, s.workers[w]));
  }

  lemma AdvanceSequence(t: Tables, ws: seq<Worker>)
    requires WorkersOk(t, ws)
    ensures WorkersOk(t.(nextId := t.nextId + 1), ws)
  {
  }

  lemma InsertUnderLock(t: Tables, wk: Worker, now: int)
    requires wk.Running? && wk.pc == Updated && WorkerOk(t, wk) && IdsBelow(t)
    ensures AfterInsert(t, wk, now).0 == t.(nextId := t.nextId + 1)
    ensures WorkerOk(t.(nextId := t.nextId + 1), AfterInsert(t, wk, now).1)
    ensures AfterInsert(t, wk, now).1.tx.locks == wk.tx.locks
    ensures forall m :: m in AfterInsert(t, wk, now).1.tx.inserts ==>
        m.id == t.nextId && m.transactionId == wk.req.transactionId
  {
    assert t.outbox + wk.tx.inserts == t.outbox;
  }

  lemma InsertKeeps(s: State, w: nat, now: int)
    requires Inv(s) && Enabled(s, Insert(w, now))
    ensures Inv(Next(s, Insert(w, now)))
  {
    var prior := s.workers[w];
    var (t, wk) := AfterInsert(s.tables, prior, now);
    InsertUnderLock(s.tables, prior, now);
    AdvanceSequence(s.tables, s.workers);
    forall v | 0 <= v < |s.workers| && v != w ensures Compatible(s.workers[v], wk) && Compatible(wk, s.workers[v]) {
      InsertCompatible(s.tables, s.workers[v], prior, wk);
    }
    ReplaceWorker(t, s.workers, w, wk);
  }

  lemma InsertCompatible(t: Tables, other: Worker, prior: Worker, wk: Worker)
    requires WorkerOk(t, other) && prior.Running? && wk.Running? && wk.tx.locks == prior.tx.locks
    requires Compatible(other, prior) && Compatible(prior, other)
    requires other.Running? ==> !HasTransaction(other.tx.inserts, prior.req.transactionId)
    requires forall m :: m in wk.tx.inserts ==> m.id == t.nextId && m.transactionId == prior.req.transactionId
    ensures Compatible(other, wk) && Compatible(wk, other)
  {
  }

  /** Committing publishes the lock holder's row and leaves everyone else's facts true. */
  lemma OthersUnmoved(t: Tables, wk: Worker, other: Worker)
    requires wk.Running? && wk.pc == Inserted && WorkerOk(t, wk) && WorkerOk(t, other) && Compatible(wk, other)
    ensures WorkerOk(CommitTx(t, wk.tx), other)
  {
  }

  /** The commit of a worker is one step of the sequential bank. */
  lemma CommitEvent(s: State, w: nat, f: Fault)
    requires BankOk(BankOf(s)) && Enabled(s, Commit(w, f)) && !f.Lost? && WorkerOk(s.tables, s.workers[w])
    ensures var e := EventOf(s, Commit(w, f));
            e.Some? && Can(BankOf(s), e.value) && BankOf(Next(s, Commit(w, f))) == Do(BankOf(s), e.value)
  {
    var wk := s.workers[w];
    var t' := CommitTx(s.tables, wk.tx);
    assert t'.accounts == s.tables.accounts[wk.req.accountId := Moved(wk.seen.value, wk.req)];
    assert wk.tx.inserts == [AppliedRow(wk.req, wk.tx.inserts[0].id, wk.tx.inserts[0].createdAt)];
  }

  lemma CommitWorkers(t: Tables, ws: seq<Worker>, w: nat)
    requires w < |ws| && ws[w].Running? && ws[w].pc == Inserted && WorkersOk(t, ws)
    ensures WorkersOk(CommitTx(t, ws[w].tx), ws[w := Idle])
  {
    var ws' := ws[w := Idle];
    forall v | 0 <= v < |ws'| ensures WorkerOk(CommitTx(t, ws[w].tx), ws'[v]) {
      if v != w {
        assert Compatible(ws[w], ws[v]);
        OthersUnmoved(t, ws[w], ws[v]);
      }
    }
  }

  lemma CommitBank(s: State, w: nat, f: Fault)
    requires BankOk(BankOf(s)) && Enabled(s, Commit(w, f)) && !f.Lost? && WorkerOk(s.tables, s.workers[w])
    ensures BankOk(BankOf(Next(s, Commit(w, f))))
  {
    CommitEvent(s, w, f);
    DoKeeps(BankOf(s), EventOf(s, Commit(w, f)).value);
  }

  lemma CommitIdsBelow(t: Tables, wk: Worker)
    requires IdsBelow(t) && wk.Running? && wk.pc == Inserted && WorkerOk(t, wk)
    ensures IdsBelow(CommitTx(t, wk.tx))
  {
  }

  lemma CommitKeeps(s: State, w: nat, f: Fault)
    requires Inv(s) && Enabled(s, Commit(w, f)) && !f.Lost?
    ensures Inv(Next(s, Commit(w, f)))
  {
    assert WorkerOk(s.tables, s.workers[w]);
    CommitBank(s, w, f);
    CommitIdsBelow(s.tables, s.workers[w]);
    CommitWorkers(s.tables, s.workers, w);
  }

  lemma OpenKeepsWorkers(s: State, id: Uuid, row: AccountRow)
    requires Inv(s) && Enabled(s, OpenAccount(id, row))
    ensures Inv(Next(s, OpenAccount(id, row)))
  {
    var s' := Next(s, OpenAccount(id, row));
    DoKeeps(BankOf(s), Opened(id, row));
    forall w | 0 <= w < |s.workers| ensures WorkerOk(s'.tables, s.workers[w]) {
      assert WorkerOk(s.tables, s.workers[w]);
    }
  }

  lemma PollWorker(t: Tables, rows: seq<Message>, wk: Worker)
    requires WorkerOk(t, wk) && SameMoney(t.outbox, rows)
    ensures WorkerOk(t.(outbox := rows), wk)
  {
  }

  lemma PollKeepsWorkers(s: State, l: Label)
    requires Inv(s) && l.Poll? && Enabled(s, l)
    ensures Inv(Next(s, l))
  {
    var rows := Next(s, l).tables.outbox;
    SameMoneySameBooks(BankOf(s), rows);
    assert BankOf(Next(s, l)) == BankOf(s).(outbox := rows);
    forall w | 0 <= w < |s.workers| ensures WorkerOk(Next(s, l).tables, s.workers[w]) {
      PollWorker(s.tables, rows, s.workers[w]);
    }
  }

  lemma StepKeeps(s: State, l: Label)
    requires Inv(s) && Enabled(s, l)
    ensures Inv(Next(s, l))
  {
    match l
    case Start(w, req) => ReplaceWorker(s.tables, s.workers, w, Running(req, Began, EMPTY_TX, None));
    case Lock(w) => LockKeeps(s, w);
    case Update(w) => UpdateKeeps(s, w);
    case Insert(w, now) => InsertKeeps(s, w, now);
    case Commit(w, f) =>
      if f.Lost? {
        ShrinkWorker(s.tables, s.workers, w, s.workers[w].(pc := Aborting));
      } else {
        CommitKeeps(s, w, f);
      }
    case Rollback(w) => ShrinkWorker(s.tables, s.workers, w, Idle);
    case Fail(w) => ShrinkWorker(s.tables, s.workers, w, s.workers[w].(pc := Aborting));
    case Crash(w) => ShrinkWorker(s.tables, s.workers, w, Idle);
    case OpenAccount(id, row) => OpenKeepsWorkers(s, id, row);
    case Poll(_, _, _) => PollKeepsWorkers(s, l);
  }

  /** Every step either changes nothing anyone can see or is one atomic step of the sequential bank. */
  lemma StepRefines(s: State, l: Label)
    requires Inv(s) && Enabled(s, l)
    ensures match EventOf(s, l)
            case None => BankOf(Next(s, l)) == BankOf(s)
            case Some(e) => Can(BankOf(s), e) && BankOf(Next(s, l)) == Do(BankOf(s), e)
  {
    if l.Commit? && !l.f.Lost? {
      CommitEvent(s, l.w, l.f);
    }
  }

  // ---- whole runs ----

  /** The state n idle workers and empty tables reach by these steps; None when some step is not enabled. */
  function Run(n: nat, ls: seq<Label>): Option<State> {
    if ls == [] then
      Some(State(Tables(map[], [], 1), map[], seq(n, _ => Idle)))
    else
      match Run(n, ls[..|ls| - 1])
      case None => None
      case Some(s) => if Enabled(s, ls[|ls| - 1]) then Some(Next(s, ls[|ls| - 1])) else None
  }

  /** The invariant holds along every run. */
  lemma {:induction false} RunKeeps(n: nat, ls: seq<Label>)
    requires Run(n, ls).Some?
    ensures Inv(Run(n, ls).value)
  {
    if ls == [] {
    } else {
      RunKeeps(n, ls[..|ls| - 1]);
      StepKeeps(Run(n, ls[..|ls| - 1]).value, ls[|ls| - 1]);
    }
  }

  /** The commits, account openings and poller writes of a run, in the order they took effect. */
  function Trace(n: nat, ls: seq<Label>): seq<Event>
    requires Run(n, ls).Some?
  {
    if ls == [] then []
    else
      var before := ls[..|ls| - 1];
      var s := Run(n, before).value;
      match EventOf(s, ls[|ls| - 1])
      case None => Trace(n, before)
      case Some(e) => Trace(n, before) + [e]
  }

  /** Serializability: whatever the interleaving, faults and crashes, the committed
      state is what the sequential bank reaches by the committed requests in commit order. */
  lemma {:induction false} Serializable(n: nat, ls: seq<Label>)
    requires Run(n, ls).Some?
    ensures History(Trace(n, ls)) == Some(BankOf(Run(n, ls).value))
  {
    if ls == [] {
    } else {
      var before := ls[..|ls| - 1];
      var l := ls[|ls| - 1];
      var s := Run(n, before).value;
      RunKeeps(n, before);
      Serializable(n, before);
      StepRefines(s, l);
      if EventOf(s, l).Some? {
        assert Trace(n, ls)[..|Trace(n, before)|] == Trace(n, before);
      }
    }
  }

  /** In every reachable state each balance is its opening balance plus the signed
      sum of the committed rows, and those rows replay to it in id order. */
  lemma MoneyIsConserved(n: nat, ls: seq<Label>, a: Uuid)
    requires Run(n, ls).Some? && a in Run(n, ls).value.tables.accounts
    ensures var s := Run(n, ls).value;
      && a in s.opening
      && s.tables.accounts[a].balance == s.opening[a] + Sum(s.tables.outbox, a)
      && Rerun(s.opening[a], Sort(RowsOf(s.tables.outbox, a), ById)) == Some(s.tables.accounts[a].balance)
      && s.tables.accounts[a].version == 1 + |RowsOf(s.tables.outbox, a)|
      && 0 <= s.tables.accounts[a].balance <= INT64_MAX && 1 <= s.tables.accounts[a].version <= INT32_MAX
  {
    var b := BankOf(Run(n, ls).value);
    RunKeeps(n, ls);
    assert BooksOk(b, a);
    ReplayReproducesBalance(b, a);
  }

  /** However often a transaction id is delivered, and to how many workers, it is applied at most once. */
  lemma AppliedAtMostOnce(n: nat, ls: seq<Label>, i: nat, j: nat)
    requires Run(n, ls).Some? && i < j < |Trace(n, ls)|
    requires Trace(n, ls)[i].Applied? && Trace(n, ls)[j].Applied?
    ensures Trace(n, ls)[i].req.transactionId != Trace(n, ls)[j].req.transactionId
  {
    Serializable(n, ls);
    AtMostOnce(Trace(n, ls), i, j);
  }

  // ---- lock discipline ----

  predicate PastLock(s: State, w: nat) {
    At(s, w, Locked) || At(s, w, Updated) || At(s, w, Inserted)
  }

  ghost predicate Disciplined(s: State, w: nat)
    requires w < |s.workers| && s.workers[w].Running?
  {
    var wk, a := s.workers[w], s.workers[w].req.accountId;
    && a in s.tables.accounts && wk.seen == Some(s.tables.accounts[a])
    && (forall v: nat :: v != w && PastLock(s, v) ==> s.workers[v].req.accountId != a)
    && (wk.pc == Locked && Decide(wk.seen.value, wk.req).Ok? ==>
          UpdateRow(s.tables, wk.tx, a, Decide(wk.seen.value, wk.req).value) != Err(ErrConcurrentModification(a)))
  }

  lemma LockedOut(t: Tables, v: Worker, w: Worker)
    requires v.Running? && w.Running? && WorkerOk(t, v) && WorkerOk(t, w) && Compatible(v, w)
    requires v.pc in {Locked, Updated, Inserted} && w.pc in {Locked, Updated, Inserted}
    ensures v.req.accountId != w.req.accountId
  {
  }

  /** Past the lock a worker's snapshot is the committed row, no other worker is past
      the lock on that account, and its UPDATE never reports a concurrent modification. */
  lemma LockDiscipline(n: nat, ls: seq<Label>, w: nat)
    requires Run(n, ls).Some? && PastLock(Run(n, ls).value, w)
    ensures Disciplined(Run(n, ls).value, w)
  {
    RunKeeps(n, ls);
    Discipline(Run(n, ls).value, w);
  }

  lemma Discipline(s: State, w: nat)
    requires WorkersOk(s.tables, s.workers) && AccountsOk(s.tables.accounts) && PastLock(s, w)
    ensures Disciplined(s, w)
  {
  }

  /** A lock once taken is held until the transaction ends, failed statements included. */
  lemma LockHeldToTheEnd(s: State, l: Label, w: nat)
    requires Enabled(s, l) && w < |s.workers| && s.workers[w].Running?
    requires !(l.Commit? && l.w == w && !l.f.Lost?) && l != Rollback(w) && l != Crash(w)
    ensures Next(s, l).workers[w].Running? && s.workers[w].tx.locks <= Next(s, l).workers[w].tx.locks
  {
  }

  /** Aborting workers have only the rollback left to do; the end of a transaction leaves the worker idle. */
  lemma HowItEnds(s: State, l: Label)
    requires Enabled(s, l)
    ensures l.Fail? ==> At(Next(s, l), l.w, Aborting) && Next(s, l).tables == s.tables
    ensures l.Rollback? || l.Crash? ==> Next(s, l).workers[l.w].Idle? && Next(s, l).tables == s.tables
    ensures l.Commit? ==> if l.f.Lost? then At(Next(s, l), l.w, Aborting) else Next(s, l).workers[l.w].Idle?
    ensures forall v :: 0 <= v < |s.workers| && !l.OpenAccount? && !l.Poll? && v != l.w ==>
      Next(s, l).workers[v] == s.workers[v]
  {
  }

  /** While a transaction id always carries the same request, at most one worker is past the lock for it. */
  lemma OneWorkerPerTransaction(n: nat, ls: seq<Label>, v: nat, w: nat)
    requires Run(n, ls).Some? && v != w && PastLock(Run(n, ls).value, v) && PastLock(Run(n, ls).value, w)
    requires var ws := Run(n, ls).value.workers;
             ws[v].req.transactionId == ws[w].req.transactionId ==> ws[v].req == ws[w].req
    ensures var ws := Run(n, ls).value.workers; ws[v].req.transactionId != ws[w].req.transactionId
  {
    var s := Run(n, ls).value;
    RunKeeps(n, ls);
    LockedOut(s.tables, s.workers[v], s.workers[w]);
  }

  /** The next statement of a worker's own program, without faults. */
  predicate CanProceed(s: State, w: nat) {
    || Enabled(s, Lock(w)) || Enabled(s, Update(w)) || Enabled(s, Insert(w, 0))
    || Enabled(s, Commit(w, NoFault)) || Enabled(s, Rollback(w))
  }

  /** No deadlock: while any worker is unfinished, some worker's next statement is not blocked. */
  lemma NoDeadlock(n: nat, ls: seq<Label>, w: nat)
    requires Run(n, ls).Some? && w < |Run(n, ls).value.workers| && Run(n, ls).value.workers[w].Running?
    ensures exists v: nat :: v < |Run(n, ls).value.workers| && CanProceed(Run(n, ls).value, v)
  {
    RunKeeps(n, ls);
    SomeoneProceeds(Run(n, ls).value, w);
  }

  lemma SomeoneProceeds(s: State, w: nat)
    requires WorkersOk(s.tables, s.workers) && w < |s.workers| && s.workers[w].Running?
    ensures exists v: nat :: v < |s.workers| && CanProceed(s, v)
  {
    assert WorkerOk(s.tables, s.workers[w]);
    if At(s, w, Began) && !RowFree(s, w, s.workers[w].req.accountId) {
      var v :| 0 <= v < |s.workers| && v != w && s.workers[v].Running?
          && s.workers[w].req.accountId in s.workers[v].tx.locks;
      HolderProceeds(s, v);
    } else if At(s, w, Updated) {
      HolderProceeds(s, w);
    } else {
      assert CanProceed(s, w);
    }
  }

  /** A worker that has inserted its row waits for nobody. */
  lemma InserterProceeds(s: State, u: nat)
    requires u < |s.workers| && s.workers[u].Running? && WorkerOk(s.tables, s.workers[u])
        && s.workers[u].tx.inserts != []
    ensures CanProceed(s, u)
  {
    assert At(s, u, Inserted) || At(s, u, Aborting);
  }

  /** A worker that holds its row lock can move, or waits for one that can commit or roll back. */
  lemma HolderProceeds(s: State, v: nat)
    requires WorkersOk(s.tables, s.workers) && v < |s.workers| && s.workers[v].Running? && s.workers[v].tx.locks != {}
    ensures exists u: nat :: u < |s.workers| && CanProceed(s, u)
  {
    assert WorkerOk(s.tables, s.workers[v]);
    if At(s, v, Updated) && !KeyFree(s, v, s.workers[v].req.transactionId) {
      var u: nat :| u < |s.workers| && u != v && s.workers[u].Running?
               && HasTransaction(s.workers[u].tx.inserts, s.workers[v].req.transactionId);
      InserterProceeds(s, u);
    } else {
      assert CanProceed(s, v);
    }
  }

  /** Even without row locks the version check refuses the second of two updates made from one snapshot. */
  lemma StaleUpdateRefused(t: Tables, id: Uuid, first: AccountRow, second: AccountRow)
    requires UpdateRow(t, EMPTY_TX, id, first).Ok? && Sound(second) && second.version == first.version
    ensures var t' := CommitTx(t, UpdateRow(t, EMPTY_TX, id, first).value);
      UpdateRow(t', EMPTY_TX, id, second) == Err(ErrConcurrentModification(id))
  {
  }
}
