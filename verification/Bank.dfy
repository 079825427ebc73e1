/** The sequential specification of the money side: a bank that applies one
    request at a time, and what every history of it guarantees. */
module Bank {
  import opened Shared
  import opened Domain
  import opened Accounts
  import opened Postgres

  /** Committed tables plus each account's balance when it was opened. */
  datatype Bank = Bank(accounts: map<Uuid, AccountRow>, outbox: seq<Message>, opening: map<Uuid, int64>)

  const EMPTY_BANK := Bank(map[], [], map[])

  datatype Event =
    | Opened(id: Uuid, row: AccountRow)
    | Applied(req: Request, rowId: int, createdAt: int)
    | Polled(rowId: int, status: OutboxStatus, attempts: int)

  /** The outbox row an applied request leaves: PENDING, untried, carrying the request as a PROCESSING entry. */
  function AppliedRow(req: Request, rowId: int, createdAt: int): (m: Message)
    ensures m.id == rowId && m.createdAt == createdAt
    ensures m.transactionId == req.transactionId && m.accountId == req.accountId
    ensures m.status.OutboxPending? && m.attempts == 0
    ensures m.payload.Decodes? && Faithful(m.payload.entry, req) && m.payload.entry.status.Processing?
  {
    NewMessage(ProcessingEntry(req), createdAt).(id := rowId)
  }

  /** A row id above every committed row of the same account and used by no other. */
  predicate FreshId(rows: seq<Message>, account: Uuid, id: int) {
    forall i :: 0 <= i < |rows| ==> rows[i].id != id && (rows[i].accountId == account ==> rows[i].id < id)
  }

  predicate CanApply(b: Bank, req: Request, rowId: int) {
    && WellFormed(req) && req.accountId in b.accounts
    && Sound(b.accounts[req.accountId]) && Acceptable(b.accounts[req.accountId], req)
    && !HasTransaction(b.outbox, req.transactionId)
    && FreshId(b.outbox, req.accountId, rowId)
  }

  predicate Can(b: Bank, e: Event) {
    match e
    case Opened(id, row) => id !in b.accounts && Storable(row) && row.version == 1
        && NationalIdFree(b.accounts, id, row.nationalId)
    case Applied(req, rowId, _) => CanApply(b, req, rowId)
    case Polled(rowId, _, _) => IndexById(b.outbox, rowId).Some?
  }

  function Do(b: Bank, e: Event): Bank
    requires Can(b, e)
  {
    match e
    case Opened(id, row) => Bank(b.accounts[id := row], b.outbox, b.opening[id := row.balance])
    case Applied(req, rowId, now) =>
      var a := req.accountId;
      b.(accounts := b.accounts[a := Moved(b.accounts[a], req)], outbox := b.outbox + [AppliedRow(req, rowId, now)])
    case Polled(rowId, status, attempts) =>
      var i := IndexById(b.outbox, rowId).value;
      b.(outbox := b.outbox[i := b.outbox[i].(status := status, attempts := attempts)])
  }

  // ---- sums over the outbox ----

  function RowDelta(m: Message): int {
    match m.payload
    case Decodes(e) => Signed(e.kind, e.amount)
    case Corrupt => 0
  }

  function Sum(rows: seq<Message>, a: Uuid): int {
    if rows == [] then 0
    else Sum(rows[..|rows| - 1], a) + (if rows[|rows| - 1].accountId == a then RowDelta(rows[|rows| - 1]) else 0)
  }

  function Count(rows: seq<Message>, a: Uuid): nat {
    if rows == [] then 0
    else Count(rows[..|rows| - 1], a) + (if rows[|rows| - 1].accountId == a then 1 else 0)
  }

  /** Same rows up to the poller's columns. */
  predicate SameMoney(rows: seq<Message>, rows': seq<Message>) {
    && |rows| == |rows'|
    && forall i :: 0 <= i < |rows| ==>
         rows'[i].id == rows[i].id && rows'[i].transactionId == rows[i].transactionId
         && rows'[i].accountId == rows[i].accountId && rows'[i].payload == rows[i].payload
  }

  lemma {:induction false} SameMoneySameSums(rows: seq<Message>, rows': seq<Message>, a: Uuid)
    requires SameMoney(rows, rows')
    ensures Sum(rows, a) == Sum(rows', a) && Count(rows, a) == Count(rows', a)
  {
    if rows == [] {
    } else {
      SameMoneySameSums(rows[..|rows| - 1], rows'[..|rows| - 1], a);
    }
  }

  // ---- the invariant of every history ----

  predicate AccountsOk(accounts: map<Uuid, AccountRow>) {
    && (forall a :: a in accounts ==> Sound(accounts[a]))
    && (forall a :: a in accounts ==> NationalIdFree(accounts, a, accounts[a].nationalId))
  }

  predicate OutboxOk(accounts: map<Uuid, AccountRow>, rows: seq<Message>) {
    && (forall i :: 0 <= i < |rows| ==> rows[i].accountId in accounts)
    && (forall i, j :: 0 <= i < j < |rows| ==>
        rows[i].transactionId != rows[j].transactionId && rows[i].id != rows[j].id)
    && (forall i, j :: 0 <= i < j < |rows| && rows[i].accountId == rows[j].accountId ==> rows[i].id < rows[j].id)
  }

  /** Replaying an account's rows from its opening balance. */
  ghost predicate BooksOk(b: Bank, a: Uuid)
    requires a in b.accounts && a in b.opening
  {
    && b.accounts[a].balance == b.opening[a] + Sum(b.outbox, a)
    && b.accounts[a].version == 1 + Count(b.outbox, a)
    && forall k :: 0 <= k <= |b.outbox| ==> 0 <= b.opening[a] + Sum(b.outbox[..k], a)
  }

  ghost predicate BankOk(b: Bank) {
    && AccountsOk(b.accounts) && OutboxOk(b.accounts, b.outbox)
    && b.opening.Keys == b.accounts.Keys
    && forall a :: a in b.accounts ==> BooksOk(b, a)
  }

  lemma OpenKeeps(b: Bank, id: Uuid, row: AccountRow)
    requires BankOk(b) && Can(b, Opened(id, row))
    ensures BankOk(Do(b, Opened(id, row)))
  {
    var b' := Do(b, Opened(id, row));
    AccountsKeep(b.accounts, id, row);
    NoRowsYet(b.outbox, id);
    forall a | a in b'.accounts ensures BooksOk(b', a) {
      if a != id { assert BooksOk(b, a); }
    }
  }

  lemma {:induction false} NoRowsYet(rows: seq<Message>, a: Uuid)
    requires forall i :: 0 <= i < |rows| ==> rows[i].accountId != a
    ensures Sum(rows, a) == 0 && Count(rows, a) == 0
    ensures forall k :: 0 <= k <= |rows| ==> Sum(rows[..k], a) == 0
  {
    if rows == [] {
    } else {
      var n := |rows| - 1;
      NoRowsYet(rows[..n], a);
      forall k | 0 <= k <= |rows| ensures Sum(rows[..k], a) == 0 {
        if k <= n { assert rows[..n][..k] == rows[..k]; } else { assert rows[..k] == rows; }
      }
    }
  }

  /** Appending a row moves only its own account, and only after every older prefix. */
  lemma AppendBooks(rows: seq<Message>, m: Message, a: Uuid)
    ensures Sum(rows + [m], a) == Sum(rows, a) + (if m.accountId == a then RowDelta(m) else 0)
    ensures Count(rows + [m], a) == Count(rows, a) + (if m.accountId == a then 1 else 0)
    ensures forall k :: 0 <= k <= |rows| ==> (rows + [m])[..k] == rows[..k]
    ensures (rows + [m])[..|rows| + 1] == rows + [m]
  {
  }

  lemma AccountsKeep(accounts: map<Uuid, AccountRow>, a: Uuid, row: AccountRow)
    requires AccountsOk(accounts) && Sound(row) && NationalIdFree(accounts, a, row.nationalId)
    ensures AccountsOk(accounts[a := row])
  {
  }

  lemma AppendOutbox(accounts: map<Uuid, AccountRow>, rows: seq<Message>, m: Message, moved: AccountRow)
    requires OutboxOk(accounts, rows) && m.accountId in accounts
    requires !HasTransaction(rows, m.transactionId) && FreshId(rows, m.accountId, m.id)
    ensures OutboxOk(accounts[m.accountId := moved], rows + [m])
  {
  }

  lemma ApplyKeeps(b: Bank, req: Request, rowId: int, now: int)
    requires BankOk(b) && CanApply(b, req, rowId)
    ensures BankOk(Do(b, Applied(req, rowId, now)))
  {
    var b' := Do(b, Applied(req, rowId, now));
    var m := AppliedRow(req, rowId, now);
    var moved := b'.accounts[req.accountId];
    ExactArithmetic(b.accounts[req.accountId], req);
    AccountsKeep(b.accounts, req.accountId, moved);
    AppendOutbox(b.accounts, b.outbox, m, moved);
    forall a | a in b'.accounts ensures BooksOk(b', a) {
      ApplyBooks(b, b', m, a, moved);
    }
  }

  lemma ApplyBooks(b: Bank, b': Bank, m: Message, a: Uuid, moved: AccountRow)
    requires a in b.accounts && a in b.opening && m.accountId in b.accounts && BooksOk(b, a)
    requires b' == Bank(b.accounts[m.accountId := moved], b.outbox + [m], b.opening)
    requires moved.balance == b.accounts[m.accountId].balance + RowDelta(m) && 0 <= moved.balance
    requires moved.version == b.accounts[m.accountId].version + 1
    ensures BooksOk(b', a)
  {
    AppendBooks(b.outbox, m, a);
    forall k | 0 <= k <= |b'.outbox| ensures 0 <= b'.opening[a] + Sum(b'.outbox[..k], a) {
      if k <= |b.outbox| {
        assert b'.outbox[..k] == b.outbox[..k];
      } else {
        assert b.outbox[..|b.outbox|] == b.outbox;
      }
    }
  }

  lemma SameMoneySameBooks(b: Bank, rows: seq<Message>)
    requires BankOk(b) && SameMoney(b.outbox, rows)
    ensures BankOk(b.(outbox := rows))
  {
    var b' := b.(outbox := rows);
    assert OutboxOk(b'.accounts, rows);
    forall a | a in b'.accounts ensures BooksOk(b', a) {
      SameMoneyBooks(b, b', a);
    }
  }

  lemma SameMoneyBooks(b: Bank, b': Bank, a: Uuid)
    requires a in b.accounts && a in b.opening && BooksOk(b, a)
    requires b'.accounts == b.accounts && b'.opening == b.opening && SameMoney(b.outbox, b'.outbox)
    ensures BooksOk(b', a)
  {
    SameMoneySameSums(b.outbox, b'.outbox, a);
    forall k | 0 <= k <= |b'.outbox| ensures 0 <= b'.opening[a] + Sum(b'.outbox[..k], a) {
      SameMoneySameSums(b.outbox[..k], b'.outbox[..k], a);
    }
  }

  /** Every step of the sequential bank keeps the books. */
  lemma DoKeeps(b: Bank, e: Event)
    requires BankOk(b) && Can(b, e)
    ensures BankOk(Do(b, e))
  {
    match e
    case Opened(id, row) => OpenKeeps(b, id, row);
    case Applied(req, rowId, now) => ApplyKeeps(b, req, rowId, now);
    case Polled(_, _, _) => SameMoneySameBooks(b, Do(b, e).outbox);
  }

  // ---- histories ----

  /** The bank an event history leads to; None when some event is not enabled. */
  function History(es: seq<Event>): Option<Bank> {
    if es == [] then Some(EMPTY_BANK)
    else
      var last := es[|es| - 1];
      match History(es[..|es| - 1])
      case None => None
      case Some(b) => if Can(b, last) then Some(Do(b, last)) else None
  }

  lemma {:induction false} HistoryKeeps(es: seq<Event>)
    requires History(es).Some?
    ensures BankOk(History(es).value)
  {
    if es == [] {
    } else {
      HistoryKeeps(es[..|es| - 1]);
      DoKeeps(History(es[..|es| - 1]).value, es[|es| - 1]);
    }
  }

  lemma DoRemembers(b: Bank, e: Event, id: Uuid)
    requires Can(b, e)
    requires HasTransaction(b.outbox, id) || (e.Applied? && e.req.transactionId == id)
    ensures HasTransaction(Do(b, e).outbox, id)
  {
    var rows, rows' := b.outbox, Do(b, e).outbox;
    if HasTransaction(rows, id) {
      var j :| 0 <= j < |rows| && rows[j].transactionId == id;
      assert rows'[j].transactionId == id;
    } else {
      assert rows'[|rows|].transactionId == id;
    }
  }

  /** Once a transaction has been applied its id is in the outbox for good. */
  lemma {:induction false} AppliedStays(es: seq<Event>, i: nat)
    requires i < |es| && es[i].Applied? && History(es).Some?
    ensures HasTransaction(History(es).value.outbox, es[i].req.transactionId)
    decreases |es|
  {
    if i < |es| - 1 {
      AppliedStays(es[..|es| - 1], i);
    }
    DoRemembers(History(es[..|es| - 1]).value, es[|es| - 1], es[i].req.transactionId);
  }

  /** No history applies one transaction id twice. */
  lemma {:induction false} AtMostOnce(es: seq<Event>, i: nat, j: nat)
    requires i < j < |es| && es[i].Applied? && es[j].Applied? && History(es).Some?
    ensures es[i].req.transactionId != es[j].req.transactionId
    decreases |es|
  {
    if j < |es| - 1 {
      AtMostOnce(es[..|es| - 1], i, j);
    } else {
      AppliedStays(es[..|es| - 1], i);
      assert Can(History(es[..|es| - 1]).value, es[j]);
    }
  }
}
