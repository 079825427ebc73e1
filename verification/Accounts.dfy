/** The account entity and its 64-bit balance arithmetic (internal/domain/account/account.go). */
module Accounts {
  import opened Shared
  import opened Domain

  /** One row of the accounts table; also the contents of an Account object. */
  datatype AccountRow = AccountRow(
    ownerName: string, nationalId: string, balance: int64, currency: string, version: int64)

  function Deposited(a: AccountRow, amount: int64): Result<AccountRow, Error> {
    if amount <= 0 then Err(ErrInvalidAmount)
    else Ok(a.(balance := Wrap64(a.balance + amount), version := Wrap64(a.version + 1)))
  }

  function Withdrawn(a: AccountRow, amount: int64): Result<AccountRow, Error> {
    if amount <= 0 then Err(ErrInvalidAmount)
    else if a.balance < amount then Err(ErrInsufficientFunds)
    else Ok(a.(balance := Wrap64(a.balance - amount), version := Wrap64(a.version + 1)))
  }

  class Account {
    const id: Uuid
    const ownerName: string
    const nationalId: string
    const currency: string
    var balance: int64
    var version: int64

    function Row(): AccountRow
      reads this
    {
      AccountRow(ownerName, nationalId, balance, currency, version)
    }

    constructor (id: Uuid, row: AccountRow)
      ensures this.id == id && Row() == row
    {
      this.id, ownerName, nationalId := id, row.ownerName, row.nationalId;
      balance, currency, version := row.balance, row.currency, row.version;
    }

    method Deposit(amount: int64) returns (err: Option<Error>)
      modifies this
      ensures err == ErrorOf(Deposited(old(Row()), amount))
      ensures Row() == ValueOr(Deposited(old(Row()), amount), old(Row()))
      ensures err == (if amount <= 0 then Some(ErrInvalidAmount) else None)
    {
      if amount <= 0 {
        return Some(ErrInvalidAmount);
      }
      balance := Wrap64(balance + amount);
      version := Wrap64(version + 1);
      return None;
    }

    method Withdraw(amount: int64) returns (err: Option<Error>)
      modifies this
      ensures err == ErrorOf(Withdrawn(old(Row()), amount))
      ensures Row() == ValueOr(Withdrawn(old(Row()), amount), old(Row()))
      ensures err == Some(ErrInvalidAmount) <==> amount <= 0
      ensures err == Some(ErrInsufficientFunds) <==> 0 < amount && old(balance) < amount
      ensures err.None? ==> balance == old(balance) - amount
    {
      if amount <= 0 {
        return Some(ErrInvalidAmount);
      }
      if balance < amount {
        return Some(ErrInsufficientFunds);
      }
      balance := Wrap64(balance - amount);
      version := Wrap64(version + 1);
      return None;
    }
  }

  /** An account is built exactly from a named owner, a three-letter currency and
      a non-negative balance, and starts at version 1. The id is the fresh UUID. */
  method NewAccount(id: Uuid, ownerName: string, nationalId: string, initialBalance: int64, currency: string)
    returns (r: Result<Account, Error>)
    ensures r.Ok? <==> ownerName != "" && |currency| == 3 && initialBalance >= 0
    ensures r.Ok? ==> fresh(r.value) && r.value.id == id
                      && r.value.Row() == AccountRow(ownerName, nationalId, initialBalance, currency, 1)
    ensures r == Err(ErrEmptyOwnerName) <==> ownerName == ""
    ensures r == Err(ErrInvalidCurrencyFormat) <==> ownerName != "" && |currency| != 3
    ensures r == Err(ErrInvalidAmount) <==> ownerName != "" && |currency| == 3 && initialBalance < 0
  {
    if ownerName == "" {
      return Err(ErrEmptyOwnerName);
    }
    if |currency| != 3 {
      return Err(ErrInvalidCurrencyFormat);
    }
    if initialBalance < 0 {
      return Err(ErrInvalidAmount);
    }
    var acc := new Account(id, AccountRow(ownerName, nationalId, initialBalance, currency, 1));
    return Ok(acc);
  }

  /** The CHECK constraint and column widths of the accounts table. */
  predicate Storable(row: AccountRow) {
    && 0 <= row.balance
    && -INT32_MAX - 1 <= row.version <= INT32_MAX
    && |row.ownerName| <= 50 && |row.nationalId| <= 50 && |row.currency| <= 3
  }

  /** Reading of a stored row: what every committed account satisfies. */
  predicate Sound(row: AccountRow) {
    Storable(row) && 1 <= row.version
  }

  /** The account manager's decision: currency first, then the operation. */
  function Decide(row: AccountRow, req: Request): Result<AccountRow, Error> {
    if row.currency != req.currency then Err(ErrInvalidCurrency)
    else match req.kind
      case Deposit => Deposited(row, req.amount)
      case Withdrawal => Withdrawn(row, req.amount)
      case OtherKind(_) => Ok(row)
  }

  /** When money should move, on unbounded integers. */
  predicate Acceptable(row: AccountRow, req: Request) {
    && row.currency == req.currency
    && 0 <= row.balance + Signed(req.kind, req.amount) <= INT64_MAX
    && row.version < INT32_MAX
  }

  /** The row after the money has moved, on unbounded integers. */
  function Moved(row: AccountRow, req: Request): AccountRow
    requires Sound(row) && Acceptable(row, req)
  {
    row.(balance := row.balance + Signed(req.kind, req.amount), version := row.version + 1)
  }

  /** Wrapped 64-bit arithmetic plus the table's constraints accept exactly the
      operations whose mathematical result fits, and store that exact result. */
  lemma ExactArithmetic(row: AccountRow, req: Request)
    requires Sound(row) && WellFormed(req)
    ensures (Decide(row, req).Ok? && Storable(Decide(row, req).value)) <==> Acceptable(row, req)
    ensures Acceptable(row, req) ==> Decide(row, req).value == Moved(row, req) && Sound(Moved(row, req))
  {
  }

  /** A deposit that overflows int64 always goes negative, so the CHECK rejects it. */
  lemma OverflowIsRejected(row: AccountRow, amount: int64)
    requires Sound(row) && amount > 0
    ensures Deposited(row, amount).Ok?
    ensures row.balance + amount > INT64_MAX <==> Deposited(row, amount).value.balance < 0
    ensures row.balance + amount > INT64_MAX ==> !Storable(Deposited(row, amount).value)
  {
  }

  /** A withdrawal undoes a deposit of the same amount exactly when the deposit did not overflow. */
  lemma WithdrawUndoesDeposit(a: AccountRow, amount: int64)
    requires Sound(a) && amount > 0
    ensures var d := Deposited(a, amount).value;
      Withdrawn(d, amount).Ok? <==> a.balance + amount <= INT64_MAX
    ensures a.balance + amount <= INT64_MAX ==>
      Withdrawn(Deposited(a, amount).value, amount).value == a.(version := a.version + 2)
  {
  }
}
