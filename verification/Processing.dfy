/** The transaction processor: validation, failure recording, locking and updating
    the account, writing the outbox row, and ProcessTransaction which drives them. */
module Processing {
  import opened Shared
  import opened Domain
  import opened Accounts
  import opened Postgres
  import opened LedgerStore
  import opened Bank

  // ---- transaction_validator.go ----

  function Validate(req: Request): (err: Option<Error>)
    ensures err.None? <==> WellFormed(req)
    ensures err == Some(ErrInvalidTransactionType) <==> req.kind.OtherKind?
    ensures err == Some(ErrAmountNotPositive) <==> !req.kind.OtherKind? && req.amount <= 0
  {
    if !req.kind.Deposit? && !req.kind.Withdrawal? then Some(ErrInvalidTransactionType)
    else if req.amount <= 0 then Some(ErrAmountNotPositive)
    else None
  }

  /** A ledger entry in a final status: the message is acknowledged without processing. */
  predicate Terminal(l: seq<Entry>, id: Uuid) {
    EntryIndex(l, id).Some? && l[EntryIndex(l, id).value].status in {Completed, Failed}
  }

  function CheckIdempotency(l: seq<Entry>, req: Request, f: Fault): (r: Result<bool, Error>)
    ensures r.Ok? <==> f.NoFault?
    ensures r.Ok? ==> (r.value <==> Terminal(l, req.transactionId))
    ensures r.Err? ==> r.error == ErrStore
  {
    match Lookup(l, req.transactionId, f)
    case Ok(e) => Ok(e.status.Completed? || e.status.Failed?)
    case Err(ErrEntryNotFound(_)) => Ok(false)
    case Err(e) => Err(e)
  }

  // ---- failure_recorder.go ----

  datatype RecordFaults = RecordFaults(get: Fault, create: CreateFaults, update: Fault)

  function Recorded(l: seq<Entry>, req: Request, reason: FailureReason, f: RecordFaults): (seq<Entry>, Option<Error>) {
    match Lookup(l, req.transactionId, f.get)
    case Ok(existing) =>
      if !existing.status.Failed? then StatusUpdated(l, req.transactionId, Failed, reason, f.update) else (l, None)
    case Err(_) => Created(l, FailedEntry(req, reason), f.create)
  }

  method RecordFailure(ledger: LedgerRepository, req: Request, reason: FailureReason, f: RecordFaults)
    returns (err: Option<Error>)
    modifies ledger
    ensures (ledger.entries, err) == Recorded(old(ledger.entries), req, reason, f)
  {
    var entry := FailedEntry(req, reason);
    // a failed lookup is only logged
    var existing := ledger.GetByTransactionID(req.transactionId, f.get);
    if existing.Ok? {
      if !existing.value.status.Failed? {
        err := ledger.UpdateStatus(req.transactionId, Failed, reason, f.update);
        return;
      }
      return None;
    }
    err := ledger.Create(entry, f.create);
  }

  // ---- account_manager.go ----

  datatype TxFaults = TxFaults(begin: Fault, lock: Fault, update: Fault, insert: Fault, commit: Fault, rollback: Fault)

  function LockedAndUpdated(t: Tables, tx: TxState, req: Request, f: TxFaults): (TxState, Option<Error>) {
    if f.lock.Lost? then (tx, Some(ErrStore))
    else match LockRow(t, tx, req.accountId)
      case Err(e) => (tx, Some(if f.lock.Ambiguous? then ErrStore else e))
      case Ok((tx, row)) =>
        if f.lock.Ambiguous? then (tx, Some(ErrStore))
        else match Decide(row, req)
          case Err(e) => (tx, Some(e))
          case Ok(acc) => Updating(t, tx, req.accountId, acc, f.update)
  }

  method LockAndUpdateAccount(tx: Tx, req: Request, f: TxFaults) returns (r: Result<Account, Error>)
    requires tx.open
    modifies tx, tx.db
    ensures tx.open && tx.db.tables == old(tx.db.tables)
    ensures var held := req.accountId in old(tx.db.locks) - old(tx.state.locks);
      (tx.state, ErrorOf(r)) == LockedAndUpdated(old(tx.db.tables), old(tx.state), req,
          f.(lock := Waiting(f.lock, held)))
    ensures tx.db.locks == old(tx.db.locks) + (tx.state.locks - old(tx.state.locks))
    ensures r.Ok? ==>
      && fresh(r.value) && r.value.id == req.accountId
      && tx.state == old(tx.state).(locks := old(tx.state.locks) + {req.accountId},
                                    writes := old(tx.state.writes)[req.accountId := r.value.Row()])
    ensures var visible := old(tx.db.tables.accounts) + old(tx.state.writes);
      r.Ok? && WellFormed(req) && req.accountId in visible && Sound(visible[req.accountId]) ==>
        Acceptable(visible[req.accountId], req) && r.value.Row() == Moved(visible[req.accountId], req)
    ensures req.kind.OtherKind? ==> r.Err?
  {
    ghost var visible := tx.db.tables.accounts + tx.state.writes;
    if WellFormed(req) && req.accountId in visible && Sound(visible[req.accountId]) {
      ExactArithmetic(visible[req.accountId], req);
    }
    var locked := LockForUpdate(tx, req.accountId, f.lock);
    if locked.Err? {
      return locked;
    }
    var lockedAccount := locked.value;
    if lockedAccount.currency != req.currency {
      return Err(ErrInvalidCurrency);
    }
    var opErr: Option<Error> := None;
    if req.kind.Deposit? {
      opErr := lockedAccount.Deposit(req.amount);
    } else if req.kind.Withdrawal? {
      opErr := lockedAccount.Withdraw(req.amount);
    }
    if opErr.Some? {
      return Err(opErr.value);
    }
    var updErr := UpdateAccount(tx, lockedAccount, f.update);
    if updErr.Some? {
      return Err(updErr.value);
    }
    return Ok(lockedAccount);
  }

  // ---- outbox_manager.go ----

  method CreateOutboxEntry(tx: Tx, req: Request, now: int, f: Fault) returns (err: Option<Error>)
    requires tx.open
    modifies tx, tx.db
    ensures tx.open && tx.state == old(tx.state).(inserts := tx.state.inserts) && tx.db.locks == old(tx.db.locks)
    ensures (tx.db.tables, tx.state, err)
         == Inserting(old(tx.db.tables), old(tx.state), NewMessage(ProcessingEntry(req), now), f)
    ensures err.None? <==> f.NoFault? && req.accountId in old(tx.db.tables.accounts)
                           && !HasTransaction(old(tx.db.tables.outbox) + old(tx.state.inserts), req.transactionId)
    ensures tx.db.tables == old(tx.db.tables).(nextId := tx.db.tables.nextId)
    ensures err.None? ==> tx.state.inserts == old(tx.state.inserts) + [AppliedRow(req, old(tx.db.tables.nextId), now)]
    ensures err.None? ==>
      var m := tx.state.inserts[|old(tx.state.inserts)|];
      && m.id == old(tx.db.tables.nextId) && m.createdAt == now
      && m.transactionId == req.transactionId && m.accountId == req.accountId
      && m.status.OutboxPending? && m.attempts == 0
      && m.payload.Decodes? && Faithful(m.payload.entry, req) && m.payload.entry.status.Processing?
    ensures err.Some? ==> err.value == ErrStore
    ensures err.Some? && !f.Ambiguous? ==> tx.state == old(tx.state)
  {
    var message := NewMessage(ProcessingEntry(req), now);
    var id;
    id, err := CreateMessage(tx, message, f);
  }

  // ---- processing_service.go ----

  datatype Stores = Stores(pg: Tables, ledger: seq<Entry>)

  datatype ProcessFaults = ProcessFaults(check: Fault, tx: TxFaults, record: RecordFaults)

  /** The failure reason for an error of LockAndUpdateAccount; None for one that Kafka should retry. */
  function BusinessReason(err: Error, req: Request): Option<FailureReason> {
    match err
    case ErrAccountNotFound(id) => if id == req.accountId then Some(AccountNotFoundReason) else None
    case ErrInvalidCurrency => Some(CurrencyMismatch(req.currency, "account_currency"))
    case ErrInvalidAmount => Some(InvalidAmountReason)
    case ErrInsufficientFunds => Some(InsufficientFundsReason)
    case _ => None
  }

  /** Which errors are business errors, and the reason each is recorded with. */
  lemma BusinessReasons(err: Error, req: Request)
    ensures BusinessReason(err, req).Some? <==>
      err == ErrAccountNotFound(req.accountId) || err in {ErrInvalidCurrency, ErrInvalidAmount, ErrInsufficientFunds}
    ensures BusinessReason(ErrAccountNotFound(req.accountId), req) == Some(AccountNotFoundReason)
    ensures BusinessReason(ErrInvalidCurrency, req) == Some(CurrencyMismatch(req.currency, "account_currency"))
    ensures BusinessReason(ErrInvalidAmount, req) == Some(InvalidAmountReason)
    ensures BusinessReason(ErrInsufficientFunds, req) == Some(InsufficientFundsReason)
  {
  }

  function ValidationReason(err: Error): FailureReason {
    if err.ErrInvalidTransactionType? then UnknownErrorReason else InvalidAmountReason
  }

  /** The database transaction: the tables it leaves and the value of err its deferred rollback reads. */
  function Transacted(t: Tables, req: Request, now: int, f: TxFaults): (Tables, Option<Error>) {
    if !f.begin.NoFault? then (t, Some(ErrStore))
    else
      var (tx1, err1) := LockedAndUpdated(t, EMPTY_TX, req, f);
      if err1.Some? then (t, err1)
      else
        var (t2, tx2, err2) := Inserting(t, tx1, NewMessage(ProcessingEntry(req), now), f.insert);
        if err2.Some? then (t2, err2)
        else if f.commit.Lost? then (t2, Some(ErrStore))
        else (CommitTx(t2, tx2), if f.commit.NoFault? then None else Some(ErrStore))
  }

  function Processed(s: Stores, req: Request, now: int, f: ProcessFaults): (Stores, Option<Error>) {
    match Validate(req)
    case Some(e) => (s.(ledger := Recorded(s.ledger, req, ValidationReason(e), f.record).0), None)
    case None =>
      match CheckIdempotency(s.ledger, req, f.check)
      case Err(e) => (s, Some(e))
      case Ok(true) => (s, None)
      case Ok(false) =>
        var (t, err) := Transacted(s.pg, req, now, f.tx);
        var reason := if err.Some? then BusinessReason(err.value, req) else None;
        match reason
        case Some(why) => (Stores(t, Recorded(s.ledger, req, why, f.record).0), None)
        case None => (s.(pg := t), err)
  }

  /** The error branch after LockAndUpdateAccount: a business error is recorded and
      acknowledged, any other is left for a retry. */
  method RecordBusinessError(ledger: LedgerRepository, req: Request, err: Error, f: RecordFaults)
    returns (recorded: bool)
    modifies ledger
    ensures recorded <==> BusinessReason(err, req).Some?
    ensures recorded ==> ledger.entries == Recorded(old(ledger.entries), req, BusinessReason(err, req).value, f).0
    ensures !recorded ==> ledger.entries == old(ledger.entries)
  {
    if err == ErrAccountNotFound(req.accountId) {
      var recordErr := RecordFailure(ledger, req, AccountNotFoundReason, f);
      return true;
    } else if err.ErrInvalidCurrency? {
      var recordErr := RecordFailure(ledger, req, CurrencyMismatch(req.currency, "account_currency"), f);
      return true;
    } else if err.ErrInvalidAmount? {
      var recordErr := RecordFailure(ledger, req, InvalidAmountReason, f);
      return true;
    } else if err.ErrInsufficientFunds? {
      var recordErr := RecordFailure(ledger, req, InsufficientFundsReason, f);
      return true;
    }
    return false;
  }

  /** From BEGIN to the deferred rollback. */
  method RunTransaction(db: Database, ledger: LedgerRepository, req: Request, now: int, f: ProcessFaults)
    returns (result: Option<Error>)
    modifies db, ledger
    ensures db.locks == old(db.locks)
    ensures var held := req.accountId in old(db.locks);
      var (t, err) := Transacted(old(db.tables), req, now, f.tx.(lock := Waiting(f.tx.lock, held)));
      var reason := if err.Some? then BusinessReason(err.value, req) else None;
      && db.tables == t
      && result == (if reason.Some? then None else err)
      && ledger.entries == if reason.Some? then Recorded(old(ledger.entries), req, reason.value, f.record).0
                           else old(ledger.entries)
  {
    var begun := db.Begin(f.tx.begin);
    if begun.Err? {
      return Some(begun.error);
    }
    var tx := begun.value;
    var err: Option<Error> := None;  // read by the deferred rollback
    label body: {
      var updated := LockAndUpdateAccount(tx, req, f.tx);
      err := ErrorOf(updated);
      if err.Some? {
        var recorded := RecordBusinessError(ledger, req, err.value, f.record);
        result := if recorded then None else err;
        break body;
      }
      err := CreateOutboxEntry(tx, req, now, f.tx.insert);
      if err.Some? {
        result := err;
        break body;
      }
      err := tx.Commit(f.tx.commit);
      result := err;
    }
    if err.Some? {
      var rbErr := tx.Rollback(f.tx.rollback);  // only logged
    }
  }

  /** ProcessTransaction. Waiting for the row lock in vain is a lock that fails; module
      Workers has the interleavings. */
  method ProcessTransaction(db: Database, ledger: LedgerRepository, req: Request, now: int, f: ProcessFaults)
    returns (result: Option<Error>)
    modifies db, ledger
    ensures var held := req.accountId in old(db.locks);
      (Stores(db.tables, ledger.entries), result)
         == Processed(Stores(old(db.tables), old(ledger.entries)), req, now,
             f.(tx := f.tx.(lock := Waiting(f.tx.lock, held))))
    ensures db.locks == old(db.locks)
  {
    var invalid := Validate(req);
    if invalid.Some? {
      var failureReason := if invalid.value.ErrInvalidTransactionType? then UnknownErrorReason else InvalidAmountReason;
      var recordErr := RecordFailure(ledger, req, failureReason, f.record);
      return None;
    }
    var skip := CheckIdempotency(ledger.entries, req, f.check);
    if skip.Err? {
      return Some(skip.error);
    }
    if skip.value {
      return None;
    }
    result := RunTransaction(db, ledger, req, now, f);
  }

  const NO_RECORD_FAULTS := RecordFaults(NoFault, CreateFaults(NoFault, NoFault), NoFault)

  /** What a failed record tells its caller, for every fault: which call failed, or that the
      transaction was already there although the lookup had failed. */
  lemma RecordErrors(l: seq<Entry>, req: Request, reason: FailureReason, f: RecordFaults)
    ensures var (l', err) := Recorded(l, req, reason, f);
      var known := EntryIndex(l, req.transactionId);
      && (err == Some(ErrDuplicateEntry(req.transactionId)) <==>
            !f.get.NoFault? && f.create.check.NoFault? && known.Some?)
      && (err.None? <==>
            if f.get.NoFault? && known.Some? then l[known.value].status.Failed? || f.update.NoFault?
            else f.create == CreateFaults(NoFault, NoFault) && known.None?)
      && (err.Some? ==> err.value in {ErrDuplicateEntry(req.transactionId), ErrStore})
      && (err.None? ==> Terminal(l', req.transactionId))
  {
    var l' := Recorded(l, req, reason, f).0;
    match EntryIndex(l, req.transactionId)
    case None => assert |l'| > |l| ==> l'[|l|].transactionId == req.transactionId;
    case Some(i) => assert l'[i].transactionId == req.transactionId;
  }

  /** With a working ledger the transaction ends up FAILED: the first recorded reason is
      kept, any other status (COMPLETED included) is overwritten, other entries are untouched. */
  lemma RecordOutcome(l: seq<Entry>, req: Request, reason: FailureReason)
    requires Unique(l)
    ensures var (l', err) := Recorded(l, req, reason, NO_RECORD_FAULTS);
      && err.None? && Unique(l') && Grows(l, l')
      && EntryIndex(l', req.transactionId).Some?
      && var i := EntryIndex(l', req.transactionId).value;
      && l'[i].status.Failed?
      && l'[i].failureReason == (if i < |l| && l[i].status.Failed? then l[i].failureReason else reason)
      && forall j :: 0 <= j < |l| && j != i ==> l'[j] == l[j]
  {
    var l' := Recorded(l, req, reason, NO_RECORD_FAULTS).0;
    match EntryIndex(l, req.transactionId)
    case None => assert l'[|l|].transactionId == req.transactionId;
    case Some(i) => assert l'[i].transactionId == req.transactionId;
  }
}
