/** What one call of ProcessTransaction may leave behind, and how it relates to the
    sequential bank and to the concurrent workers. */
module Outcome {
  import opened Shared
  import opened Domain
  import opened Accounts
  import opened Postgres
  import opened Bank
  import opened Processing
  import opened Workers

  predicate SameBooks(t: Tables, t': Tables) {
    t'.accounts == t.accounts && t'.outbox == t.outbox
  }

  /** The money may move: the account exists and accepts it and the transaction is new. */
  predicate Admissible(t: Tables, req: Request) {
    && WellFormed(req) && req.accountId in t.accounts && Acceptable(t.accounts[req.accountId], req)
    && !HasTransaction(t.outbox, req.transactionId)
  }

  /** Balance, version and exactly one new PENDING row changed together, nothing else. */
  predicate AppliedTo(t: Tables, t': Tables, req: Request, now: int)
    requires AccountsOk(t.accounts)
  {
    && Admissible(t, req)
    && t'.accounts == t.accounts[req.accountId := Moved(t.accounts[req.accountId], req)]
    && t'.outbox == t.outbox + [AppliedRow(req, t.nextId, now)]
    && t'.nextId == t.nextId + 1
  }

  /** Why a well-formed request must be refused, read off the account alone. */
  function Rejection(accounts: map<Uuid, AccountRow>, req: Request): Option<FailureReason> {
    if req.accountId !in accounts then Some(AccountNotFoundReason)
    else
      var row := accounts[req.accountId];
      if row.currency != req.currency then Some(CurrencyMismatch(req.currency, "account_currency"))
      else if req.kind.Withdrawal? && row.balance < req.amount then Some(InsufficientFundsReason)
      else None
  }

  predicate Healthy(t: Tables) {
    AccountsOk(t.accounts) && IdsBelow(t)
  }

  const NO_TX_FAULTS := TxFaults(NoFault, NoFault, NoFault, NoFault, NoFault, NoFault)

  lemma LockingOutcome(t: Tables, req: Request, f: TxFaults)
    requires Healthy(t) && WellFormed(req)
    ensures var (tx, err) := LockedAndUpdated(t, EMPTY_TX, req, f);
      && (err.None? ==>
            && req.accountId in t.accounts && Acceptable(t.accounts[req.accountId], req)
            && tx == TxState({req.accountId}, map[req.accountId := Moved(t.accounts[req.accountId], req)], []))
      && (err.Some? && BusinessReason(err.value, req).Some? ==>
          BusinessReason(err.value, req) == Rejection(t.accounts, req))
      && (err.Some? && BusinessReason(err.value, req).None? ==> err.value == ErrStore)
      && (f.lock.NoFault? && Rejection(t.accounts, req).Some? ==>
          err.Some? && BusinessReason(err.value, req) == Rejection(t.accounts, req))
      && (f.lock.NoFault? && f.update.NoFault? && req.accountId in t.accounts
          && Acceptable(t.accounts[req.accountId], req)
          ==> err.None?)
  {
  }

  /** Inserting and committing after a successful update. */
  lemma InsertingOutcome(t: Tables, tx: TxState, req: Request, now: int, f: TxFaults)
    requires Healthy(t) && WellFormed(req) && req.accountId in t.accounts && Acceptable(t.accounts[req.accountId], req)
    requires tx == TxState({req.accountId}, map[req.accountId := Moved(t.accounts[req.accountId], req)], [])
    ensures var (t', tx', err) := Inserting(t, tx, NewMessage(ProcessingEntry(req), now), f.insert);
      && SameBooks(t, t') && t.nextId <= t'.nextId && (err.Some? ==> err.value == ErrStore)
      && (err.None? ==> AppliedTo(t, CommitTx(t', tx'), req, now))
      && (f.insert.NoFault? ==> (err.None? <==> !HasTransaction(t.outbox, req.transactionId)))
  {
    assert t.outbox + [] == t.outbox;
  }

  /** The database transaction is all or nothing, reports success only for a complete
      application, and refuses for exactly the reason the account gives. */
  lemma TransactionOutcome(t: Tables, req: Request, now: int, f: TxFaults)
    requires Healthy(t) && WellFormed(req)
    ensures var (t', err) := Transacted(t, req, now, f);
      && (err.None? ==> AppliedTo(t, t', req, now) && f.commit.NoFault?)
      && (err.Some? ==> SameBooks(t, t') || (f.commit.Ambiguous? && AppliedTo(t, t', req, now)))
      && (err.Some? && BusinessReason(err.value, req).Some? ==>
          SameBooks(t, t') && BusinessReason(err.value, req) == Rejection(t.accounts, req))
      && (err.Some? && BusinessReason(err.value, req).None? ==> err.value == ErrStore)
      && t'.nextId >= t.nextId
  {
    LockingOutcome(t, req, f);
    var (tx, err) := LockedAndUpdated(t, EMPTY_TX, req, f);
    if err.None? {
      InsertingOutcome(t, tx, req, now, f);
    }
  }

  /** Without faults the outcome is decided by the stored rows. */
  lemma FaultFreeTransaction(t: Tables, req: Request, now: int)
    requires Healthy(t) && WellFormed(req)
    ensures var (t', err) := Transacted(t, req, now, NO_TX_FAULTS);
      && (err.None? <==> Admissible(t, req))
      && (Rejection(t.accounts, req).Some? <==> err.Some? && BusinessReason(err.value, req).Some?)
  {
    LockingOutcome(t, req, NO_TX_FAULTS);
    var (tx, err) := LockedAndUpdated(t, EMPTY_TX, req, NO_TX_FAULTS);
    if err.None? {
      InsertingOutcome(t, tx, req, now, NO_TX_FAULTS);
    }
  }

  // ---- the contract of ProcessTransaction ----

  predicate Committed(s: Stores, s': Stores, req: Request, now: int)
    requires AccountsOk(s.pg.accounts)
  {
    !Terminal(s.ledger, req.transactionId) && s'.ledger == s.ledger && AppliedTo(s.pg, s'.pg, req, now)
  }

  predicate AlreadyDone(s: Stores, s': Stores, req: Request) {
    WellFormed(req) && Terminal(s.ledger, req.transactionId) && s' == s
  }

  /** The reason the failure record must carry; None when there is nothing to refuse. */
  function RefusalReason(accounts: map<Uuid, AccountRow>, req: Request): Option<FailureReason> {
    if req.kind.OtherKind? then Some(UnknownErrorReason)
    else if req.amount <= 0 then Some(InvalidAmountReason)
    else Rejection(accounts, req)
  }

  predicate Refused(s: Stores, s': Stores, req: Request, f: RecordFaults) {
    && (WellFormed(req) ==> !Terminal(s.ledger, req.transactionId))
    && SameBooks(s.pg, s'.pg)
    && RefusalReason(s.pg.accounts, req).Some?
    && s'.ledger == Recorded(s.ledger, req, RefusalReason(s.pg.accounts, req).value, f).0
  }

  /** nil means exactly one of: applied and committed, already final in the ledger, or
      refused with Postgres untouched and the matching reason recorded. An error means
      the ledger is untouched and so is Postgres, unless the commit itself was ambiguous. */
  lemma OutcomeContract(s: Stores, req: Request, now: int, f: ProcessFaults)
    requires Healthy(s.pg)
    ensures var (s', err) := Processed(s, req, now, f);
      && s'.pg.nextId >= s.pg.nextId
      && (err.None? ==>
           && (Committed(s, s', req, now) || AlreadyDone(s, s', req) || Refused(s, s', req, f.record))
           && !(Committed(s, s', req, now) && AlreadyDone(s, s', req))
           && !(Committed(s, s', req, now) && Refused(s, s', req, f.record))
           && !(AlreadyDone(s, s', req) && Refused(s, s', req, f.record)))
      && (err.Some? ==>
           && err.value == ErrStore && s'.ledger == s.ledger
           && (SameBooks(s.pg, s'.pg) || (f.tx.commit.Ambiguous? && Committed(s, s', req, now))))
  {
    if WellFormed(req) {
      TransactionOutcome(s.pg, req, now, f.tx);
    }
  }

  /** Every call up to the commit succeeds and the commit takes effect. */
  predicate CommitGetsThrough(f: ProcessFaults) {
    && f.check.NoFault? && f.tx.begin.NoFault? && f.tx.lock.NoFault? && f.tx.update.NoFault?
    && f.tx.insert.NoFault? && !f.tx.commit.Lost?
  }

  lemma TransactedIff(t: Tables, req: Request, now: int, f: TxFaults)
    requires Healthy(t) && WellFormed(req)
    ensures AppliedTo(t, Transacted(t, req, now, f).0, req, now)
       <==> (&& Admissible(t, req) && f.begin.NoFault? && f.lock.NoFault? && f.update.NoFault?
             && f.insert.NoFault? && !f.commit.Lost?)
  {
    LockingOutcome(t, req, f);
    TransactionOutcome(t, req, now, f);
    var (tx, err) := LockedAndUpdated(t, EMPTY_TX, req, f);
    if err.None? {
      InsertingOutcome(t, tx, req, now, f);
    }
  }

  /** The money moves exactly when the stored rows admit it, the ledger does not know the
      transaction as finished, and the calls get through. */
  lemma CommittedIff(s: Stores, req: Request, now: int, f: ProcessFaults)
    requires Healthy(s.pg)
    ensures Committed(s, Processed(s, req, now, f).0, req, now)
       <==> Admissible(s.pg, req) && !Terminal(s.ledger, req.transactionId) && CommitGetsThrough(f)
  {
    if WellFormed(req) {
      TransactionOutcome(s.pg, req, now, f.tx);
      TransactedIff(s.pg, req, now, f.tx);
    }
  }

  const NO_FAULTS := ProcessFaults(NoFault, NO_TX_FAULTS, NO_RECORD_FAULTS)

  /** With healthy stores a well-formed, unfinished request is applied exactly when it is
      admissible, refused exactly when the account refuses it, and otherwise (a duplicate
      still unpublished, or an overflow) left for a retry with nothing changed. */
  lemma FaultFreeOutcome(s: Stores, req: Request, now: int)
    requires Healthy(s.pg) && WellFormed(req) && !Terminal(s.ledger, req.transactionId)
    ensures var (s', err) := Processed(s, req, now, NO_FAULTS);
      && (Committed(s, s', req, now) <==> Admissible(s.pg, req))
      && (err.None? <==> Admissible(s.pg, req) || Rejection(s.pg.accounts, req).Some?)
      && (Rejection(s.pg.accounts, req).Some? ==> Refused(s, s', req, NO_FAULTS.record))
      && (err.Some? ==> SameBooks(s.pg, s'.pg) && s'.ledger == s.ledger)
  {
    TransactionOutcome(s.pg, req, now, NO_TX_FAULTS);
    FaultFreeTransaction(s.pg, req, now);
  }

  // ---- the same transaction, run by a worker nobody interferes with ----

  function NextLabel(s: State, w: nat, now: int, commit: Fault): Option<Label> {
    if w >= |s.workers| || s.workers[w].Idle? then None
    else match s.workers[w].pc
      case Began => Some(Lock(w))
      case Locked => Some(Update(w))
      case Updated => Some(Insert(w, now))
      case Inserted => Some(Commit(w, commit))
      case Aborting => Some(Rollback(w))
  }

  /** Let worker w execute its next statements, one after the other. */
  function Alone(s: State, w: nat, now: int, commit: Fault, steps: nat): State
    decreases steps
  {
    match NextLabel(s, w, now, commit)
    case None => s
    case Some(l) => if steps == 0 || !Enabled(s, l) then s else Alone(Next(s, l), w, now, commit, steps - 1)
  }

  lemma AloneStep(s: State, w: nat, now: int, commit: Fault, steps: nat, l: Label)
    requires NextLabel(s, w, now, commit) == Some(l) && Enabled(s, l) && steps > 0
    ensures Alone(s, w, now, commit, steps) == Alone(Next(s, l), w, now, commit, steps - 1)
  {
  }

  /** A worker that finds its row and key free and is not interrupted does to the
      tables what ProcessTransaction's transaction does, and ends idle. */
  lemma AloneIsTransacted(s: State, w: nat, req: Request, now: int, commit: Fault)
    requires Enabled(s, Start(w, req))
    requires RowFree(s, w, req.accountId) && KeyFree(s, w, req.transactionId)
    ensures var f := NO_TX_FAULTS.(commit := commit);
      Alone(Next(s, Start(w, req)), w, now, commit, 5)
        == s.(tables := Transacted(s.tables, req, now, f).0)
  {
    var s1 := Next(s, Start(w, req));
    var s2 := Next(s1, Lock(w));
    AloneStep(s1, w, now, commit, 5, Lock(w));
    if s2.workers[w].pc == Locked {
      var s3 := Next(s2, Update(w));
      AloneStep(s2, w, now, commit, 4, Update(w));
      if s3.workers[w].pc == Updated {
        AloneFinishes(s3, w, now, commit);
        assert s3.workers[w := Idle] == s.workers;
      } else {
        AloneRollsBack(s3, w, now, commit, 3);
        assert s3.workers[w := Idle] == s.workers;
      }
    } else {
      AloneRollsBack(s2, w, now, commit, 4);
      assert s2.workers[w := Idle] == s.workers;
    }
  }

  /** From its update on, the worker inserts and commits. */
  lemma AloneFinishes(s: State, w: nat, now: int, commit: Fault)
    requires At(s, w, Updated) && KeyFree(s, w, s.workers[w].req.transactionId)
    ensures var (t, tx, err) := Inserting(s.tables, s.workers[w].tx,
        NewMessage(ProcessingEntry(s.workers[w].req), now), NoFault);
      Alone(s, w, now, commit, 3)
        == With(s, w, Idle).(tables := if err.None? && !commit.Lost? then CommitTx(t, tx) else t)
  {
    var s' := Next(s, Insert(w, now));
    AloneStep(s, w, now, commit, 3, Insert(w, now));
    AloneEnds(s', w, now, commit);
    assert s'.workers[w := Idle] == s.workers[w := Idle];
  }

  lemma AloneRollsBack(s: State, w: nat, now: int, commit: Fault, steps: nat)
    requires At(s, w, Aborting) && steps > 0
    ensures Alone(s, w, now, commit, steps) == With(s, w, Idle)
  {
  }

  lemma AloneEnds(s: State, w: nat, now: int, commit: Fault)
    requires At(s, w, Inserted) || At(s, w, Aborting)
    ensures Alone(s, w, now, commit, 2)
         == With(s, w, Idle).(tables :=
              if At(s, w, Inserted) && !commit.Lost? then CommitTx(s.tables, s.workers[w].tx) else s.tables)
  {
  }
}
