/** The two Postgres tables, the statements the repositories issue, and the
    transaction object they run on (internal/data/postgres, migrations/postgres). */
module Postgres {
  import opened Shared
  import opened Domain
  import opened Accounts
  import opened Sorting

  /** Committed contents. The outbox is listed in commit order; nextId is the BIGSERIAL sequence. */
  datatype Tables = Tables(accounts: map<Uuid, AccountRow>, outbox: seq<Message>, nextId: int)

  /** What an open transaction holds: row locks and writes nobody else sees. */
  datatype TxState = TxState(locks: set<Uuid>, writes: map<Uuid, AccountRow>, inserts: seq<Message>)

  const EMPTY_TX := TxState({}, map[], [])

  predicate NationalIdFree(accounts: map<Uuid, AccountRow>, id: Uuid, nationalId: string) {
    forall other :: other in accounts && other != id ==> accounts[other].nationalId != nationalId
  }

  function IndexById(rows: seq<Message>, id: int): (r: Option<nat>)
    ensures r.Some? ==> r.value < |rows| && rows[r.value].id == id
    ensures r.Some? ==> forall j :: 0 <= j < r.value ==> rows[j].id != id
    ensures r.None? ==> forall j :: 0 <= j < |rows| ==> rows[j].id != id
  {
    if rows == [] then None
    else if rows[0].id == id then Some(0)
    else match IndexById(rows[1..], id)
      case None => None
      case Some(i) => Some(i + 1)
  }

  predicate HasTransaction(rows: seq<Message>, id: Uuid) {
    exists i :: 0 <= i < |rows| && rows[i].transactionId == id
  }

  predicate DistinctIds(rows: seq<Message>) {
    forall i, j :: 0 <= i < j < |rows| ==> rows[i].id != rows[j].id
  }

  // ---- statements inside a transaction ----

  /** SELECT ... FOR UPDATE, once the row lock is available. */
  function LockRow(t: Tables, tx: TxState, id: Uuid): Result<(TxState, AccountRow), Error> {
    var visible := t.accounts + tx.writes;
    if id in visible then Ok((tx.(locks := tx.locks + {id}), visible[id]))
    else Err(ErrAccountNotFound(id))
  }

  /** UPDATE accounts SET ... WHERE id = $7 AND version = $8, with $8 = acc.Version - 1. */
  function UpdateRow(t: Tables, tx: TxState, id: Uuid, acc: AccountRow): Result<TxState, Error> {
    var visible := t.accounts + tx.writes;
    if !(-INT32_MAX <= acc.version <= INT32_MAX) then Err(ErrStore)
    else if id !in visible || visible[id].version != acc.version - 1 then Err(ErrConcurrentModification(id))
    else if !Storable(acc) || !NationalIdFree(visible, id, acc.nationalId) then Err(ErrStore)
    else Ok(tx.(writes := tx.writes[id := acc]))
  }

  /** INSERT INTO transaction_outbox ... RETURNING id. The sequence moves even when a
      constraint (unique transaction id, account foreign key) rejects the row. */
  function InsertRow(t: Tables, tx: TxState, m: Message): (Tables, Result<(TxState, int), Error>) {
    var t' := t.(nextId := t.nextId + 1);
    if HasTransaction(t.outbox + tx.inserts, m.transactionId) || m.accountId !in t.accounts
    then (t', Err(ErrStore))
    else (t', Ok((tx.(inserts := tx.inserts + [m.(id := t.nextId)]), t.nextId)))
  }

  function CommitTx(t: Tables, tx: TxState): Tables {
    t.(accounts := t.accounts + tx.writes, outbox := t.outbox + tx.inserts)
  }

  // ---- statements on the pool, each its own transaction ----

  function CreateAccountRow(t: Tables, id: Uuid, row: AccountRow, f: Fault): (Tables, Option<Error>) {
    if f.Lost? || id in t.accounts || !Storable(row) || !NationalIdFree(t.accounts, id, row.nationalId)
    then (t, Some(ErrStore))
    else (t.(accounts := t.accounts[id := row]), if f.Ambiguous? then Some(ErrStore) else None)
  }

  function SetStatus(rows: seq<Message>, id: int, status: OutboxStatus, f: Fault): (seq<Message>, Option<Error>) {
    if f.Lost? then (rows, Some(ErrStore))
    else match IndexById(rows, id)
      case None => (rows, Some(if f.NoFault? then ErrMessageNotFound(id) else ErrStore))
      case Some(i) => (rows[i := rows[i].(status := status)], if f.NoFault? then None else Some(ErrStore))
  }

  /** attempts is an INTEGER column: the statement fails when the counter is full. */
  function AddAttempt(rows: seq<Message>, id: int, f: Fault): (seq<Message>, Option<Error>) {
    if f.Lost? then (rows, Some(ErrStore))
    else match IndexById(rows, id)
      case None => (rows, Some(if f.NoFault? then ErrMessageNotFound(id) else ErrStore))
      case Some(i) =>
        if rows[i].attempts >= INT32_MAX then (rows, Some(ErrStore))
        else (rows[i := rows[i].(attempts := rows[i].attempts + 1)], if f.NoFault? then None else Some(ErrStore))
  }

  /** created_at order, ties broken by id. */
  predicate Before(a: Message, b: Message) {
    a.createdAt < b.createdAt || (a.createdAt == b.createdAt && a.id < b.id)
  }

  predicate NotAfter(a: Message, b: Message) {
    !Before(b, a)
  }

  function PendingSorted(rows: seq<Message>): seq<Message> {
    Sort(Filter(rows, (m: Message) => m.status.OutboxPending?), NotAfter)
  }

  function SelectPending(rows: seq<Message>, limit: nat): seq<Message> {
    var p := PendingSorted(rows);
    if |p| <= limit then p else p[..limit]
  }

  // ---- objects ----

  class Database {
    var tables: Tables
    var locks: set<Uuid>  // account rows locked by open transactions

    constructor ()
      ensures tables == Tables(map[], [], 1) && locks == {}
    {
      tables, locks := Tables(map[], [], 1), {};
    }

    /** Pool().Begin: a Go caller gets no transaction when it fails. */
    method Begin(f: Fault) returns (r: Result<Tx, Error>)
      ensures r.Ok? <==> f.NoFault?
      ensures r.Ok? ==> fresh(r.value) && r.value.db == this && r.value.state == EMPTY_TX && r.value.open
      ensures r.Err? ==> r.error == ErrStore
    {
      if !f.NoFault? {
        return Err(ErrStore);
      }
      var tx := new Tx(this);
      return Ok(tx);
    }
  }

  class Tx {
    const db: Database
    var state: TxState
    var open: bool

    constructor (db: Database)
      ensures this.db == db && state == EMPTY_TX && open
    {
      this.db, state, open := db, EMPTY_TX, true;
    }

    method Commit(f: Fault) returns (err: Option<Error>)
      requires open
      modifies this, db
      ensures err == if f.NoFault? then None else Some(ErrStore)
      ensures f.Lost? ==> db.tables == old(db.tables) && db.locks == old(db.locks) && open && state == old(state)
      ensures !f.Lost? ==> db.tables == CommitTx(old(db.tables), old(state)) && !open
      ensures !f.Lost? ==> db.locks == old(db.locks) - old(state.locks)
    {
      if f.Lost? {
        return Some(ErrStore);
      }
      db.tables := CommitTx(db.tables, state);
      db.locks := db.locks - state.locks;
      open := false;
      return if f.NoFault? then None else Some(ErrStore);
    }

    /** Undoes an open transaction; on a closed one it only reports an error, which callers
        log. When the statement fails the driver drops the connection, and the server the
        transaction with it: the tables and the locks are the same either way. */
    method Rollback(f: Fault) returns (err: Option<Error>)
      modifies this, db
      ensures db.tables == old(db.tables) && !open
      ensures db.locks == if old(open) then old(db.locks) - old(state.locks) else old(db.locks)
      ensures err.None? <==> old(open) && f.NoFault?
    {
      if !open {
        return Some(ErrStore);
      }
      db.locks := db.locks - state.locks;
      state := EMPTY_TX;
      open := false;
      return if f.NoFault? then None else Some(ErrStore);
    }
  }

  /** AccountRepository.Create, on the pool. */
  method CreateAccount(db: Database, acc: Account, f: Fault) returns (err: Option<Error>)
    modifies db
    ensures (db.tables, err) == CreateAccountRow(old(db.tables), acc.id, acc.Row(), f)
    ensures db.locks == old(db.locks)
    ensures err.None? <==> f.NoFault? && acc.id !in old(db.tables.accounts) && Storable(acc.Row())
                           && NationalIdFree(old(db.tables.accounts), acc.id, acc.nationalId)
    ensures db.tables == old(db.tables)
            || db.tables == old(db.tables).(accounts := old(db.tables.accounts)[acc.id := acc.Row()])
    ensures err.None? ==> acc.id in db.tables.accounts && db.tables.accounts[acc.id] == acc.Row()
    ensures err.None? ==>
      && acc.balance >= 0 && |acc.ownerName| <= 50 && |acc.nationalId| <= 50 && |acc.currency| <= 3
      && forall a :: a in old(db.tables.accounts) ==> old(db.tables.accounts)[a].nationalId != acc.nationalId
    ensures f.NoFault? && err.Some? && 0 <= acc.balance && 1 <= acc.version <= INT32_MAX
            && |acc.ownerName| <= 50 && |acc.nationalId| <= 50 && |acc.currency| <= 3 ==>
      acc.id in old(db.tables.accounts)
      || exists a :: a in old(db.tables.accounts) && old(db.tables.accounts)[a].nationalId == acc.nationalId
    ensures err.Some? ==> err.value == ErrStore
    ensures err.Some? && !f.Ambiguous? ==> db.tables == old(db.tables)
  {
    var (t, e) := CreateAccountRow(db.tables, acc.id, acc.Row(), f);
    db.tables := t;
    return e;
  }

  /** A statement that waits for a row lock until its context ends has no effect. */
  function Waiting(f: Fault, held: bool): Fault {
    if held then Lost else f
  }

  /** AccountRepository.LockForUpdate. While another transaction holds the row the caller
      waits; a wait that ends with the lock released is a call made at that moment. */
  method LockForUpdate(tx: Tx, id: Uuid, f: Fault) returns (r: Result<Account, Error>)
    requires tx.open
    modifies tx, tx.db
    ensures tx.db.tables == old(tx.db.tables) && tx.open
    ensures f.Lost? || id in old(tx.db.locks) - old(tx.state.locks) ==> r == Err(ErrStore) && tx.state == old(tx.state)
    ensures !f.Lost? && id !in old(tx.db.locks) - old(tx.state.locks) ==>
      match LockRow(old(tx.db.tables), old(tx.state), id)
      case Ok((state, row)) =>
        tx.state == state &&
        (if f.Ambiguous? then r == Err(ErrStore)
         else r.Ok? && fresh(r.value) && r.value.id == id && r.value.Row() == row)
      case Err(e) => tx.state == old(tx.state) && r == Err(if f.Ambiguous? then ErrStore else e)
    ensures var visible := tx.db.tables.accounts + old(tx.state.writes);
      && (r.Ok? ==> id in visible && r.value.Row() == visible[id]
                    && tx.state == old(tx.state).(locks := old(tx.state.locks) + {id}))
      && (r == Err(ErrAccountNotFound(id)) <==>
            f.NoFault? && id !in old(tx.db.locks) - old(tx.state.locks) && id !in visible)
    ensures tx.db.locks == old(tx.db.locks) + (tx.state.locks - old(tx.state.locks))
  {
    if Waiting(f, id in tx.db.locks - tx.state.locks).Lost? {
      return Err(ErrStore);
    }
    match LockRow(tx.db.tables, tx.state, id)
    case Err(e) =>
      return Err(if f.Ambiguous? then ErrStore else e);
    case Ok((state, row)) =>
      tx.db.locks := tx.db.locks + (state.locks - tx.state.locks);
      tx.state := state;
      if f.Ambiguous? {
        return Err(ErrStore);
      }
      var acc := new Account(id, row);
      return Ok(acc);
  }

  /** AccountRepository.Update inside a transaction. */
  method UpdateAccount(tx: Tx, acc: Account, f: Fault) returns (err: Option<Error>)
    requires tx.open
    modifies tx
    ensures tx.open && tx.state == old(tx.state).(writes := tx.state.writes)
    ensures (tx.state, err) == Updating(tx.db.tables, old(tx.state), acc.id, acc.Row(), f)
    ensures var visible := tx.db.tables.accounts + old(tx.state.writes);
      && (err.None? ==>
            && tx.state.writes == old(tx.state.writes)[acc.id := acc.Row()] && Storable(acc.Row())
            && acc.id in visible && visible[acc.id].version == acc.version - 1)
      && (err == Some(ErrConcurrentModification(acc.id)) <==>
            && f.NoFault? && -INT32_MAX <= acc.version <= INT32_MAX
            && (acc.id !in visible || visible[acc.id].version != acc.version - 1))
      && (err.Some? ==> err.value in {ErrConcurrentModification(acc.id), ErrStore})
      && (f.NoFault? && Storable(acc.Row()) && acc.version > -INT32_MAX
          && acc.id in visible && visible[acc.id].version == acc.version - 1
          && (forall a :: a in visible && a != acc.id ==> visible[a].nationalId != acc.nationalId)
          ==> err.None?)
    ensures err.Some? && !f.Ambiguous? ==> tx.state == old(tx.state)
  {
    var (state, e) := Updating(tx.db.tables, tx.state, acc.id, acc.Row(), f);
    tx.state := state;
    return e;
  }

  function Updating(t: Tables, tx: TxState, id: Uuid, acc: AccountRow, f: Fault): (TxState, Option<Error>) {
    if f.Lost? then (tx, Some(ErrStore))
    else match UpdateRow(t, tx, id, acc)
      case Err(e) => (tx, Some(if f.Ambiguous? then ErrStore else e))
      case Ok(tx') => (tx', if f.Ambiguous? then Some(ErrStore) else None)
  }

  function Inserting(t: Tables, tx: TxState, m: Message, f: Fault): (Tables, TxState, Option<Error>) {
    if f.Lost? then (t, tx, Some(ErrStore))
    else
      var (t', r) := InsertRow(t, tx, m);
      match r
      case Err(e) => (t', tx, Some(e))
      case Ok((tx', _)) => (t', tx', if f.Ambiguous? then Some(ErrStore) else None)
  }

  /** OutboxRepository.Create inside a transaction; id is what the message's ID field holds afterwards. */
  method CreateMessage(tx: Tx, m: Message, f: Fault) returns (id: int, err: Option<Error>)
    requires tx.open
    modifies tx, tx.db
    ensures tx.open && tx.state == old(tx.state).(inserts := tx.state.inserts) && tx.db.locks == old(tx.db.locks)
    ensures (tx.db.tables, tx.state, err) == Inserting(old(tx.db.tables), old(tx.state), m, f)
    ensures err.None? <==> f.NoFault? && m.accountId in old(tx.db.tables.accounts)
                           && !HasTransaction(old(tx.db.tables.outbox) + old(tx.state.inserts), m.transactionId)
    ensures tx.db.tables == old(tx.db.tables).(nextId := old(tx.db.tables.nextId) + if f.Lost? then 0 else 1)
    ensures err.None? ==> id == old(tx.db.tables.nextId) && tx.state.inserts == old(tx.state.inserts) + [m.(id := id)]
    ensures err.Some? ==> err.value == ErrStore && id == m.id
    ensures err.Some? && !f.Ambiguous? ==> tx.state == old(tx.state)
  {
    id := m.id;
    if f.NoFault? && InsertRow(tx.db.tables, tx.state, m).1.Ok? {
      id := InsertRow(tx.db.tables, tx.state, m).1.value.1;
    }
    var (t, state, e) := Inserting(tx.db.tables, tx.state, m, f);
    tx.db.tables := t;
    tx.state := state;
    err := e;
  }

  /** OutboxRepository.GetPending. */
  method GetPending(db: Database, limit: nat, f: Fault) returns (r: Result<seq<Message>, Error>)
    ensures r == if f.NoFault? then Ok(SelectPending(db.tables.outbox, limit)) else Err(ErrStore)
  {
    return if f.NoFault? then Ok(SelectPending(db.tables.outbox, limit)) else Err(ErrStore);
  }

  method UpdateStatus(db: Database, id: int, status: OutboxStatus, f: Fault) returns (err: Option<Error>)
    modifies db
    ensures db.locks == old(db.locks)
    ensures db.tables == old(db.tables).(outbox := SetStatus(old(db.tables.outbox), id, status, f).0)
    ensures err == SetStatus(old(db.tables.outbox), id, status, f).1
    ensures err.None? <==>
      f.NoFault? && exists i :: 0 <= i < |old(db.tables.outbox)| && old(db.tables.outbox)[i].id == id
    ensures |db.tables.outbox| == |old(db.tables.outbox)|
    ensures DistinctIds(old(db.tables.outbox)) ==>
      forall i :: 0 <= i < |db.tables.outbox| ==>
        var m := old(db.tables.outbox)[i];
        db.tables.outbox[i] == if m.id == id && !f.Lost? then m.(status := status) else m
    ensures err.Some? ==> err.value == if f.NoFault? then ErrMessageNotFound(id) else ErrStore
  {
    var (rows, e) := SetStatus(db.tables.outbox, id, status, f);
    db.tables := db.tables.(outbox := rows);
    return e;
  }

  method IncrementAttempts(db: Database, id: int, f: Fault) returns (err: Option<Error>)
    modifies db
    ensures db.locks == old(db.locks)
    ensures db.tables == old(db.tables).(outbox := AddAttempt(old(db.tables.outbox), id, f).0)
    ensures err == AddAttempt(old(db.tables.outbox), id, f).1
    ensures DistinctIds(old(db.tables.outbox)) ==>
      (err.None? <==> f.NoFault? && exists m :: m in old(db.tables.outbox) && m.id == id && m.attempts < INT32_MAX)
    ensures err.Some? ==> err.value in {ErrMessageNotFound(id), ErrStore}
    ensures err == Some(ErrMessageNotFound(id)) <==>
      f.NoFault? && forall i :: 0 <= i < |old(db.tables.outbox)| ==> old(db.tables.outbox)[i].id != id
    ensures |db.tables.outbox| == |old(db.tables.outbox)|
    ensures DistinctIds(old(db.tables.outbox)) ==>
      forall i :: 0 <= i < |db.tables.outbox| ==>
        var m := old(db.tables.outbox)[i];
        db.tables.outbox[i] ==
          if m.id == id && !f.Lost? && m.attempts < INT32_MAX then m.(attempts := m.attempts + 1) else m
  {
    var (rows, e) := AddAttempt(db.tables.outbox, id, f);
    db.tables := db.tables.(outbox := rows);
    return e;
  }
}
