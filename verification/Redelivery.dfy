/** A request that is delivered again after its money moved and before the ledger knows:
    when it is recorded FAILED, and when that record stays. */
module Redelivery {
  import opened Shared
  import opened Domain
  import opened Accounts
  import opened Postgres
  import opened LedgerStore
  import opened Bank
  import opened Processing
  import opened Outcome
  import opened Publishing
  import opened Gateway
  import opened System
  import opened Runs

  /** The calls on the way to a failure record all take effect. */
  predicate RecordGetsThrough(f: ProcessFaults) {
    && f.check.NoFault? && f.tx.begin.NoFault? && f.tx.lock.NoFault?
    && f.record.create.check.NoFault? && !f.record.create.insert.Lost?
  }

  /** An applied request that is delivered again before publication moves no money, and is
      recorded FAILED exactly when it is a withdrawal the balance no longer covers. */
  lemma RefusedAlthoughAppliedIff(s: Sys, req: Request, now: int, f: ProcessFaults)
    requires SysInv(s) && Find(s.topic, req.transactionId) == Some(req)
    requires HasTransaction(s.stores.pg.outbox, req.transactionId)
        && EntryIndex(s.stores.ledger, req.transactionId).None?
    ensures req.accountId in s.stores.pg.accounts
    ensures var (s', err) := Processed(s.stores, req, now, f);
      && SameBooks(s.stores.pg, s'.pg)
      && (s'.ledger != s.stores.ledger <==>
            req.kind.Withdrawal? && s.stores.pg.accounts[req.accountId].balance < req.amount && RecordGetsThrough(f))
      && (Terminal(s'.ledger, req.transactionId) <==> s'.ledger != s.stores.ledger)
      && (s'.ledger != s.stores.ledger ==> s'.ledger == s.stores.ledger + [FailedEntry(req, InsufficientFundsReason)])
  {
    AppliedRequest(s, req);
    NotAppliedTwice(s.stores.pg, req, now, f.tx);
    NewRecord(s.stores.ledger, req, InsufficientFundsReason, f.record);
  }

  lemma AppliedRequest(s: Sys, req: Request)
    requires SysInv(s) && Find(s.topic, req.transactionId) == Some(req)
        && HasTransaction(s.stores.pg.outbox, req.transactionId)
    ensures Healthy(s.stores.pg) && WellFormed(req)
    ensures req.accountId in s.stores.pg.accounts && s.stores.pg.accounts[req.accountId].currency == req.currency
  {
    var t := s.stores.pg;
    var i :| 0 <= i < |t.outbox| && t.outbox[i].transactionId == req.transactionId;
    assert RowOk(s.topic, t.accounts, s.stores.ledger, t.outbox[i]);
  }

  lemma NewRecord(l: seq<Entry>, req: Request, reason: FailureReason, f: RecordFaults)
    requires EntryIndex(l, req.transactionId).None?
    ensures var l' := Recorded(l, req, reason, f).0;
      && l' == (if f.create.check.NoFault? && !f.create.insert.Lost? then l + [FailedEntry(req, reason)] else l)
      && (Terminal(l', req.transactionId) <==> l' != l)
  {
    var l1 := l + [FailedEntry(req, reason)];
    assert l1[|l|].transactionId == req.transactionId;
  }

  /** The transaction of an applied request fails, for lack of funds or for its id. */
  lemma NotAppliedTwice(t: Tables, req: Request, now: int, f: TxFaults)
    requires Healthy(t) && WellFormed(req) && HasTransaction(t.outbox, req.transactionId)
    requires req.accountId in t.accounts && t.accounts[req.accountId].currency == req.currency
    ensures var (t', err) := Transacted(t, req, now, f);
      && SameBooks(t, t') && err.Some?
      && (BusinessReason(err.value, req).Some? <==>
            req.kind.Withdrawal? && t.accounts[req.accountId].balance < req.amount && f.begin.NoFault?
                && f.lock.NoFault?)
      && (BusinessReason(err.value, req).Some? ==> BusinessReason(err.value, req) == Some(InsufficientFundsReason))
  {
    TransactionOutcome(t, req, now, f);
    LockingOutcome(t, req, f);
  }

  // ---- a record that stays ----

  lemma GivenUpStep(s: Sys, maxRetry: int, e: System.Event, i: nat, j: nat)
    requires SysInv(s) && Possible(s, e) && i < |s.stores.pg.outbox| && j < |s.stores.ledger|
    requires s.stores.pg.outbox[i].status.OutboxFailedToPublish?
    requires s.stores.ledger[j].transactionId == s.stores.pg.outbox[i].transactionId
    ensures var l' := After(s, maxRetry, e).stores.ledger; j < |l'| && l'[j] == s.stores.ledger[j]
  {
    if e.Deliver? {
      DeliveryAdds(s, maxRetry, e);
    } else if e.Handle? {
      GivenUpTurn(s, maxRetry, e.message, i, j);
    }
  }

  lemma GivenUpTurn(s: Sys, maxRetry: int, f: MessageFaults, i: nat, j: nat)
    requires SysInv(s) && s.batch != [] && i < |s.stores.pg.outbox| && j < |s.stores.ledger|
    requires s.stores.pg.outbox[i].status.OutboxFailedToPublish?
    requires s.stores.ledger[j].transactionId == s.stores.pg.outbox[i].transactionId
    ensures var l' := Handled(s.stores.pg.outbox, s.stores.ledger, s.batch[0], maxRetry, f).1;
      j < |l'| && l'[j] == s.stores.ledger[j]
  {
    var k := HandleIs(s, maxRetry, f);
    OtherPayload(s, k, i);
  }

  /** A delivery never changes an entry. */
  lemma DeliveryAdds(s: Sys, maxRetry: int, e: System.Event)
    requires SysInv(s) && Possible(s, e) && e.Deliver?
    ensures s.stores.ledger <= After(s, maxRetry, e).stores.ledger
  {
    var s', req := After(s, maxRetry, e), Find(s.topic, e.transaction).value;
    OutcomeContract(s.stores, req, e.now, e.process);
    if Refused(s.stores, s'.stores, req, e.process.record) {
      RefusedKeeps(s, s', req, e.process.record);
    }
  }

  lemma OtherPayload(s: Sys, k: nat, i: nat)
    requires SysInv(s) && k < |s.stores.pg.outbox| && i < |s.stores.pg.outbox|
    requires s.stores.pg.outbox[k].status != s.stores.pg.outbox[i].status
    ensures var rows := s.stores.pg.outbox;
      rows[k].payload.Decodes? && rows[k].payload.entry.transactionId != rows[i].transactionId
  {
    var rows := s.stores.pg.outbox;
    assert RowOk(s.topic, s.stores.pg.accounts, s.stores.ledger, rows[k]);
    assert k != i && rows[k].transactionId != rows[i].transactionId;
  }

  /** The entry beside a row that was given up never changes again: a failure recorded
      although the money moved stays. Publication turns it COMPLETED only before that. */
  lemma {:induction false} GivenUpKeepsEntry(maxRetry: int, es: seq<System.Event>, n: nat, i: nat, j: nat)
    requires n <= |es| && Reached(maxRetry, es).Some? && Reached(maxRetry, es[..n]).Some?
    requires var s := Reached(maxRetry, es[..n]).value;
      && i < |s.stores.pg.outbox| && j < |s.stores.ledger|
      && s.stores.pg.outbox[i].status.OutboxFailedToPublish?
      && s.stores.ledger[j].transactionId == s.stores.pg.outbox[i].transactionId
    ensures var l, l' := Reached(maxRetry, es[..n]).value.stores.ledger, Reached(maxRetry, es).value.stores.ledger;
      j < |l'| && l'[j] == l[j]
    decreases |es|
  {
    if n == |es| {
      assert es[..n] == es;
    } else {
      var before := es[..|es| - 1];
      Prefix(maxRetry, es);
      assert before[..n] == es[..n];
      GivenUpKeepsEntry(maxRetry, before, n, i, j);
      FinalRowsStay(maxRetry, before, n, i);
      GivenUpStep(Reached(maxRetry, before).value, maxRetry, es[|es| - 1], i, j);
    }
  }

  // ---- a run that gets there ----

  const PAYOUT := Request(1, 7, Withdrawal, 5, "EUR", "", "", 0)
  const FIVE := AccountRow("o", "n", 5, "EUR", 1)
  const SILENT := SubmitFaults(NoFault, NoFault, 0)
  /** Publishing fails on its first call. */
  const UNPUBLISHED := NO_MESSAGE_FAULTS.(publish := NO_PUBLISH_FAULTS.(get := Lost))

  /** The account paid out, its row in the given state, and the given ledger. */
  function PaidOut(status: OutboxStatus, attempts: int, nextId: int, l: seq<Entry>, batch: seq<Message>): Sys {
    var row := AppliedRow(PAYOUT, 1, 0).(status := status, attempts := attempts);
    Sys([PAYOUT], map[7 := 5], Stores(Tables(map[7 := FIVE.(balance := 0, version := 2)], [row], nextId), l), batch)
  }

  lemma PayoutApplied() returns (es: seq<System.Event>)
    ensures Reached(1, es) == Some(PaidOut(OutboxPending, 0, 2, [], []))
    ensures forall k :: 0 <= k < |es| ==> !es[k].Handle?
  {
    var e1, e2, e3 := Open(7, FIVE), Submit(PAYOUT, SILENT), Deliver(1, 0, NO_FAULTS);
    var start := Sys([], map[7 := 5], Stores(Tables(map[7 := FIVE], [], 1), []), []);
    assert After(START, 1, e1) == start;
    RunStep(START, 1, [], e1);
    assert [] + [e1] == [e1];
    assert [] + [PAYOUT] == [PAYOUT];
    assert After(start, 1, e2) == start.(topic := [PAYOUT]);
    RunStep(START, 1, [e1], e2);
    assert [e1] + [e2] == [e1, e2];
    FirstDelivery();
    RunStep(START, 1, [e1, e2], e3);
    es := [e1, e2] + [e3];
  }

  lemma FirstDelivery()
    ensures var s := Sys([PAYOUT], map[7 := 5], Stores(Tables(map[7 := FIVE], [], 1), []), []);
      Possible(s, Deliver(1, 0, NO_FAULTS)) && After(s, 1, Deliver(1, 0, NO_FAULTS))
          == PaidOut(OutboxPending, 0, 2, [], [])
  {
    var t := Tables(map[7 := FIVE], [], 1);
    FaultFreeOutcome(Stores(t, []), PAYOUT, 0);
    assert Admissible(t, PAYOUT);
    assert map[7 := FIVE][7 := FIVE.(balance := 0, version := 2)] == map[7 := FIVE.(balance := 0, version := 2)];
    assert [] + [AppliedRow(PAYOUT, 1, 0)] == [AppliedRow(PAYOUT, 1, 0)];
  }

  lemma SecondDelivery()
    ensures var s := PaidOut(OutboxPending, 0, 2, [], []);
      && Possible(s, Deliver(1, 0, NO_FAULTS))
      && After(s, 1, Deliver(1, 0, NO_FAULTS))
          == PaidOut(OutboxPending, 0, 2, [FailedEntry(PAYOUT, InsufficientFundsReason)], [])
  {
  }

  lemma GivingUp()
    ensures var row, l := AppliedRow(PAYOUT, 1, 0), [FailedEntry(PAYOUT, InsufficientFundsReason)];
      && After(PaidOut(OutboxPending, 0, 2, l, []), 1, Fetch(1)) == PaidOut(OutboxPending, 0, 2, l, [row])
      && After(PaidOut(OutboxPending, 0, 2, l, [row]), 1, Handle(UNPUBLISHED))
          == PaidOut(OutboxFailedToPublish, 1, 2, l, [])
  {
  }

  /** An account opened with 5 pays out 5; the redelivery is recorded FAILED for lack of
      funds; publishing fails once and the row is given up: the ledger says FAILED for good. */
  lemma FailedAlthoughPaid() returns (es: seq<System.Event>)
    ensures Reached(1, es) == Some(PaidOut(OutboxFailedToPublish, 1, 2, [FailedEntry(PAYOUT, InsufficientFundsReason)],
        []))
  {
    var applied := PayoutApplied();
    var redelivered := applied + [Deliver(1, 0, NO_FAULTS)];
    SecondDelivery();
    RunStep(START, 1, applied, Deliver(1, 0, NO_FAULTS));
    GivingUp();
    RunStep(START, 1, redelivered, Fetch(1));
    RunStep(START, 1, redelivered + [Fetch(1)], Handle(UNPUBLISHED));
    es := redelivered + [Fetch(1)] + [Handle(UNPUBLISHED)];
  }
}
