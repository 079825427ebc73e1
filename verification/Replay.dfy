/** Auditing an account from its outbox rows alone. */
module Replay {
  import opened Shared
  import opened Domain
  import opened Accounts
  import opened Sorting
  import opened Bank

  /** The account's rows in commit order. */
  function RowsOf(rows: seq<Message>, a: Uuid): seq<Message> {
    if rows == [] then []
    else RowsOf(rows[..|rows| - 1], a) + (if rows[|rows| - 1].accountId == a then [rows[|rows| - 1]] else [])
  }

  predicate ById(x: Message, y: Message) {
    x.id <= y.id
  }

  /** Re-run the amounts on a starting balance; None as soon as it would go negative. */
  function Rerun(start: int, rows: seq<Message>): Option<int> {
    if rows == [] then Some(start)
    else match Rerun(start, rows[..|rows| - 1])
      case None => None
      case Some(b) =>
        var b' := b + RowDelta(rows[|rows| - 1]);
        if b' < 0 then None else Some(b')
  }

  lemma RerunAppended(start: int, rows: seq<Message>, m: Message)
    ensures Rerun(start, rows + [m])
         == match Rerun(start, rows)
            case None => None
            case Some(b) => if b + RowDelta(m) < 0 then None else Some(b + RowDelta(m))
  {
    assert (rows + [m])[..|rows|] == rows;
  }

  lemma {:induction false} RerunReaches(start: int, rows: seq<Message>, a: Uuid)
    requires forall k :: 0 <= k <= |rows| ==> 0 <= start + Sum(rows[..k], a)
    ensures Rerun(start, RowsOf(rows, a)) == Some(start + Sum(rows, a))
    ensures |RowsOf(rows, a)| == Count(rows, a)
  {
    if rows == [] {
    } else {
      var init := rows[..|rows| - 1];
      forall k | 0 <= k <= |init| ensures 0 <= start + Sum(init[..k], a) {
        assert init[..k] == rows[..k];
      }
      RerunReaches(start, init, a);
      assert rows[..|rows|] == rows;
      if rows[|rows| - 1].accountId == a {
        RerunAppended(start, RowsOf(init, a), rows[|rows| - 1]);
      } else {
        assert RowsOf(rows, a) == RowsOf(init, a);
      }
    }
  }

  lemma {:induction false} CommitOrderIsIdOrder(accounts: map<Uuid, AccountRow>, rows: seq<Message>, a: Uuid)
    requires OutboxOk(accounts, rows)
    ensures Sorted(RowsOf(rows, a), ById)
    ensures forall m :: m in RowsOf(rows, a) ==> m in rows && m.accountId == a
  {
    if rows == [] {
    } else {
      CommitOrderIsIdOrder(accounts, rows[..|rows| - 1], a);
    }
  }

  lemma IdOrder(accounts: map<Uuid, AccountRow>, rows: seq<Message>, a: Uuid)
    requires OutboxOk(accounts, rows)
    ensures Sort(RowsOf(rows, a), ById) == RowsOf(rows, a)
  {
    CommitOrderIsIdOrder(accounts, rows, a);
    SortOfSorted(RowsOf(rows, a), ById);
  }

  lemma BooksReplay(b: Bank, a: Uuid)
    requires a in b.accounts && a in b.opening && BooksOk(b, a)
    ensures Rerun(b.opening[a], RowsOf(b.outbox, a)) == Some(b.accounts[a].balance)
    ensures b.accounts[a].version == 1 + |RowsOf(b.outbox, a)|
  {
    RerunReaches(b.opening[a], b.outbox, a);
  }

  /** Sorting an account's rows by id and replaying them from the opening balance
      never goes negative, ends at the stored balance, and the version counts the rows. */
  lemma ReplayReproducesBalance(b: Bank, a: Uuid)
    requires BankOk(b) && a in b.accounts
    ensures Rerun(b.opening[a], Sort(RowsOf(b.outbox, a), ById)) == Some(b.accounts[a].balance)
    ensures Sort(RowsOf(b.outbox, a), ById) == RowsOf(b.outbox, a)
    ensures b.accounts[a].version == 1 + |RowsOf(b.outbox, a)|
  {
    IdOrder(b.accounts, b.outbox, a);
    BooksReplay(b, a);
  }
}
