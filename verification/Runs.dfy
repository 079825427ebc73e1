/** Theorems about whole runs of the pipeline. */
module Runs {
  import opened Shared
  import opened Domain
  import opened Accounts
  import opened Postgres
  import opened LedgerStore
  import opened Bank
  import opened Processing
  import opened Outcome
  import opened Publishing
  import opened System
  import opened Agreement

  /** The state a list of steps leads to; None when some step is not possible. */
  function RunFrom(s: Sys, maxRetry: int, es: seq<System.Event>): Option<Sys> {
    if es == [] then Some(s)
    else match RunFrom(s, maxRetry, es[..|es| - 1])
      case None => None
      case Some(before) =>
        var e := es[|es| - 1];
        if Possible(before, e) then Some(After(before, maxRetry, e)) else None
  }

  function Reached(maxRetry: int, es: seq<System.Event>): Option<Sys> {
    RunFrom(START, maxRetry, es)
  }

  /** The invariant holds along every run. */
  lemma {:induction false} RunKeeps(s: Sys, maxRetry: int, es: seq<System.Event>)
    requires SysInv(s) && RunFrom(s, maxRetry, es).Some?
    ensures SysInv(RunFrom(s, maxRetry, es).value)
  {
    if es == [] {
    } else {
      RunKeeps(s, maxRetry, es[..|es| - 1]);
      AfterKeeps(RunFrom(s, maxRetry, es[..|es| - 1]).value, maxRetry, es[|es| - 1]);
    }
  }

  /** Agreement of the two stores in every reachable state. */
  lemma ReachableStoresAgree(maxRetry: int, es: seq<System.Event>, a: Uuid)
    requires Reached(maxRetry, es).Some? && a in Reached(maxRetry, es).value.stores.pg.accounts
    ensures var s := Reached(maxRetry, es).value;
      && a in s.opening
      && s.stores.pg.accounts[a].balance
           == s.opening[a] + CompletedSum(s.stores.ledger, a) + UnpublishedSum(s.stores.pg.outbox, s.stores.ledger, a)
      && ((forall i :: 0 <= i < |s.stores.pg.outbox| && s.stores.pg.outbox[i].accountId == a ==>
             s.stores.pg.outbox[i].status.OutboxProcessed?)
          ==> s.stores.pg.accounts[a].balance == s.opening[a] + CompletedSum(s.stores.ledger, a))
  {
    var s := Reached(maxRetry, es).value;
    RunKeeps(START, maxRetry, es);
    StoresAgree(s, a);
    if forall i :: 0 <= i < |s.stores.pg.outbox| && s.stores.pg.outbox[i].accountId == a ==>
        s.stores.pg.outbox[i].status.OutboxProcessed? {
      LedgerReproducesBalance(s, a);
    }
  }

  // ---- ledger lifecycle ----

  ghost predicate Lifecycle(rows: seq<Message>, l: seq<Entry>) {
    && (forall j, k :: 0 <= j < k < |l| ==> l[j].transactionId != l[k].transactionId)
    && (forall j :: 0 <= j < |l| ==> l[j].status in {Completed, Failed})
    && (forall j :: 0 <= j < |l| && l[j].status.Completed? ==> HasTransaction(rows, l[j].transactionId))
    && (forall i :: 0 <= i < |rows| && rows[i].status.OutboxProcessed? ==> IsCompleted(l, rows[i].transactionId))
    && (forall i, j | 0 <= i < |rows| && 0 <= j < |l| && rows[i].transactionId == l[j].transactionId ::
          l[j].status.Failed? ==>
          l[j].kind.Withdrawal? && l[j].failureReason == InsufficientFundsReason && !rows[i].status.OutboxProcessed?)
  }

  /** Only COMPLETED and FAILED are stored, once per transaction; COMPLETED implies a
      row, PROCESSED implies COMPLETED, FAILED beside a row is an unpublished withdrawal
      refused for insufficient funds. */
  lemma LedgerLifecycle(maxRetry: int, es: seq<System.Event>)
    requires Reached(maxRetry, es).Some?
    ensures var s := Reached(maxRetry, es).value; Lifecycle(s.stores.pg.outbox, s.stores.ledger)
  {
    var s := Reached(maxRetry, es).value;
    RunKeeps(START, maxRetry, es);
    LifecycleHolds(s.topic, s.stores.pg.accounts, s.stores.pg.outbox, s.stores.ledger);
  }

  lemma LifecycleHolds(topic: seq<Request>, accounts: map<Uuid, AccountRow>, rows: seq<Message>, l: seq<Entry>)
    requires RowsOk(topic, accounts, rows, l) && LedgerOk(topic, rows, l)
    ensures Lifecycle(rows, l)
  {
  }

  /** A COMPLETED entry repeats the request it came from, with no failure reason, however it came about. */
  lemma CompletedIsFaithful(maxRetry: int, es: seq<System.Event>, j: nat)
    requires Reached(maxRetry, es).Some? && j < |Reached(maxRetry, es).value.stores.ledger|
    requires Reached(maxRetry, es).value.stores.ledger[j].status.Completed?
    ensures var s := Reached(maxRetry, es).value; var e := s.stores.ledger[j];
      && Find(s.topic, e.transactionId).Some?
      && e == CompletedEntry(ProcessingEntry(Find(s.topic, e.transactionId).value))
  {
    var s := Reached(maxRetry, es).value;
    RunKeeps(START, maxRetry, es);
    assert EntryOk(s.topic, s.stores.pg.outbox, s.stores.ledger[j]);
  }

  /** Recording a failure first and publishing later gives the same entry as publishing alone. */
  lemma RecordThenPublishConfluent(l: seq<Entry>, req: Request, reason: FailureReason, f: RecordFaults)
    requires Unique(l) && EntryIndex(l, req.transactionId).None?
    ensures LedgerWith(Recorded(l, req, reason, f).0, ProcessingEntry(req)) == LedgerWith(l, ProcessingEntry(req))
  {
    RecordedIs(l, req, reason, f);
    var l' := Recorded(l, req, reason, f).0;
    if l' != l {
      assert l'[|l|].transactionId == req.transactionId;
      assert EntryIndex(l', req.transactionId) == Some(|l|);
    }
  }

  ghost predicate OnlyForward(l: seq<Entry>, l': seq<Entry>) {
    && Grows(l, l')
    && forall j :: 0 <= j < |l| && l[j].status.Completed? ==> l'[j] == l[j]
  }

  lemma DeliveryForward(s: Sys, maxRetry: int, e: System.Event)
    requires SysInv(s) && Possible(s, e) && e.Deliver?
    ensures OnlyForward(s.stores.ledger, After(s, maxRetry, e).stores.ledger)
  {
    var s' := After(s, maxRetry, e);
    var req := Find(s.topic, e.transaction).value;
    OutcomeContract(s.stores, req, e.now, e.process);
    if Refused(s.stores, s'.stores, req, e.process.record) {
      RefusedKeeps(s, s', req, e.process.record);
    }
  }

  lemma HandledForward(s: Sys, maxRetry: int, f: MessageFaults)
    requires SysInv(s) && s.batch != []
    ensures OnlyForward(s.stores.ledger, Handled(s.stores.pg.outbox, s.stores.ledger, s.batch[0], maxRetry, f).1)
  {
    var i := HandleIs(s, maxRetry, f);
    LedgerWithSettles(s.stores.ledger, s.stores.pg.outbox[i].payload.entry);
  }

  lemma LedgerStep(s: Sys, maxRetry: int, e: System.Event)
    requires SysInv(s) && Possible(s, e)
    ensures OnlyForward(s.stores.ledger, After(s, maxRetry, e).stores.ledger)
  {
    if e.Deliver? {
      DeliveryForward(s, maxRetry, e);
    } else if e.Handle? {
      HandledForward(s, maxRetry, e.message);
    }
  }

  lemma Prefix(maxRetry: int, es: seq<System.Event>)
    requires es != [] && Reached(maxRetry, es).Some?
    ensures var before := Reached(maxRetry, es[..|es| - 1]);
      && before.Some? && SysInv(before.value) && Possible(before.value, es[|es| - 1])
      && Reached(maxRetry, es) == Some(After(before.value, maxRetry, es[|es| - 1]))
  {
    RunKeeps(START, maxRetry, es[..|es| - 1]);
  }

  /** From any point n of a run on, entries stay where they are and COMPLETED never reverts. */
  lemma {:induction false} CompletedNeverReverts(maxRetry: int, es: seq<System.Event>, n: nat)
    requires n <= |es| && Reached(maxRetry, es).Some?
    ensures Reached(maxRetry, es[..n]).Some?
    ensures OnlyForward(Reached(maxRetry, es[..n]).value.stores.ledger, Reached(maxRetry, es).value.stores.ledger)
    decreases |es|
  {
    if n == |es| {
      assert es[..n] == es;
    } else {
      var before := es[..|es| - 1];
      Prefix(maxRetry, es);
      CompletedNeverReverts(maxRetry, before, n);
      assert before[..n] == es[..n];
      LedgerStep(Reached(maxRetry, before).value, maxRetry, es[|es| - 1]);
      ForwardTwice(Reached(maxRetry, es[..n]).value.stores.ledger, Reached(maxRetry, before).value.stores.ledger,
                   Reached(maxRetry, es).value.stores.ledger);
    }
  }

  lemma ForwardTwice(l: seq<Entry>, l1: seq<Entry>, l2: seq<Entry>)
    requires OnlyForward(l, l1) && OnlyForward(l1, l2)
    ensures OnlyForward(l, l2)
  {
  }

  // ---- the outbox over whole runs ----

  /** A step appends rows and lets at most a PENDING row settle. */
  lemma RowStep(s: Sys, maxRetry: int, e: System.Event)
    requires SysInv(s) && Possible(s, e)
    ensures var rows, rows' := s.stores.pg.outbox, After(s, maxRetry, e).stores.pg.outbox;
      && |rows| <= |rows'|
      && (forall i :: 0 <= i < |rows| ==>
            rows'[i] == rows[i]
            || (e.Handle? && rows[i].status.OutboxPending? && Settled(rows[i], rows'[i], maxRetry, e.message)))
      && (forall i :: |rows| <= i < |rows'| ==> rows'[i].status.OutboxPending? && rows'[i].attempts == 0)
  {
    if e.Deliver? {
      DeliveredRows(s.stores, Find(s.topic, e.transaction).value, e.now, e.process);
    } else if e.Handle? {
      HandledRows(s, maxRetry, e.message);
    }
  }

  lemma DeliveredRows(s: Stores, req: Request, now: int, f: ProcessFaults)
    requires Healthy(s.pg)
    ensures var rows' := Processed(s, req, now, f).0.pg.outbox;
      rows' == s.pg.outbox || rows' == s.pg.outbox + [AppliedRow(req, s.pg.nextId, now)]
  {
    OutcomeContract(s, req, now, f);
  }

  lemma HandledRows(s: Sys, maxRetry: int, f: MessageFaults)
    requires SysInv(s) && s.batch != []
    ensures var rows, rows' := s.stores.pg.outbox,
        Handled(s.stores.pg.outbox, s.stores.ledger, s.batch[0], maxRetry, f).0;
      && |rows'| == |rows|
      && forall i :: 0 <= i < |rows| ==>
           rows'[i] == rows[i] || (rows[i].status.OutboxPending? && Settled(rows[i], rows'[i], maxRetry, f))
  {
    var i := HandleIs(s, maxRetry, f);
  }

  /** PROCESSED and FAILED_TO_PUBLISH are final: such a row never changes again, under any faults. */
  lemma {:induction false} FinalRowsStay(maxRetry: int, es: seq<System.Event>, n: nat, i: nat)
    requires n <= |es| && Reached(maxRetry, es).Some? && Reached(maxRetry, es[..n]).Some?
    requires i < |Reached(maxRetry, es[..n]).value.stores.pg.outbox|
    requires !Reached(maxRetry, es[..n]).value.stores.pg.outbox[i].status.OutboxPending?
    ensures var rows, rows' := Reached(maxRetry, es[..n]).value.stores.pg.outbox,
        Reached(maxRetry, es).value.stores.pg.outbox;
      i < |rows'| && rows'[i] == rows[i]
    decreases |es|
  {
    if n == |es| {
      assert es[..n] == es;
    } else {
      var before := es[..|es| - 1];
      Prefix(maxRetry, es);
      assert before[..n] == es[..n];
      FinalRowsStay(maxRetry, before, n, i);
      RowStep(Reached(maxRetry, before).value, maxRetry, es[|es| - 1]);
    }
  }

  lemma {:induction false} NoNegativeAttempts(maxRetry: int, es: seq<System.Event>)
    requires Reached(maxRetry, es).Some?
    ensures var rows := Reached(maxRetry, es).value.stores.pg.outbox;
        forall i :: 0 <= i < |rows| ==> 0 <= rows[i].attempts
  {
    if es == [] {
    } else {
      Prefix(maxRetry, es);
      NoNegativeAttempts(maxRetry, es[..|es| - 1]);
      RowStep(Reached(maxRetry, es[..|es| - 1]).value, maxRetry, es[|es| - 1]);
    }
  }

  /** No write to the retry counter is reported as failed although it took effect, and no
      write of FAILED_TO_PUBLISH is lost. A poller that dies before the counter write is allowed. */
  predicate CountersWork(es: seq<System.Event>) {
    forall k :: 0 <= k < |es| && es[k].Handle? ==> !es[k].message.increment.Ambiguous? && !es[k].message.giveUp.Lost?
  }

  predicate Budgeted(rows: seq<Message>, maxRetry: int) {
    forall i :: 0 <= i < |rows| ==>
      0 <= rows[i].attempts <= maxRetry && (rows[i].status.OutboxPending? ==> rows[i].attempts < maxRetry)
  }

  lemma BudgetStep(rows: seq<Message>, rows': seq<Message>, maxRetry: int, f: MessageFaults)
    requires 0 < maxRetry <= INT32_MAX && Budgeted(rows, maxRetry) && !f.increment.Ambiguous? && !f.giveUp.Lost?
    requires |rows| <= |rows'|
    requires forall i :: 0 <= i < |rows| ==>
      rows'[i] == rows[i] || (rows[i].status.OutboxPending? && Settled(rows[i], rows'[i], maxRetry, f))
    requires forall i :: |rows| <= i < |rows'| ==> rows'[i].status.OutboxPending? && rows'[i].attempts == 0
    ensures Budgeted(rows', maxRetry)
  {
  }

  /** The counter runs past the limit: the attempt fails and leaves the row PENDING, and of
      the two writes that should retire it at the limit the first is misreported or the
      second is lost. */
  predicate Overruns(rows: seq<Message>, l: seq<Entry>, i: nat, maxRetry: int, f: MessageFaults)
    requires DistinctIds(rows) && i < |rows|
  {
    var (rows', _, err) := Published(rows, l, rows[i], f.publish);
    PublishedAt(rows, l, i, f.publish);
    && err.Some? && rows'[i].status.OutboxPending? && rows[i].attempts + 1 >= maxRetry
    && (f.increment.Ambiguous? || (f.increment.NoFault? && f.giveUp.Lost?))
  }

  /** A turn of the poller keeps the accounts exactly when it does not run into those faults. */
  lemma BudgetKeptIff(rows: seq<Message>, l: seq<Entry>, i: nat, maxRetry: int, f: MessageFaults)
    requires 0 < maxRetry <= INT32_MAX && DistinctIds(rows) && Budgeted(rows, maxRetry)
    requires i < |rows| && rows[i].status.OutboxPending?
    ensures Budgeted(Handled(rows, l, rows[i], maxRetry, f).0, maxRetry) <==> !Overruns(rows, l, i, maxRetry, f)
  {
    var m := rows[i];
    var (rows1, _, err) := Published(rows, l, m, f.publish);
    PublishedAt(rows, l, i, f.publish);
    var rows' := Handled(rows, l, m, maxRetry, f).0;
    HandledSettles(rows, l, i, maxRetry, f);
    if err.Some? {
      AddAttemptAt(rows1, i, f.increment);
      var rows2 := AddAttempt(rows1, m.id, f.increment).0;
      SetStatusAt(rows2, i, OutboxFailedToPublish, f.giveUp);
      assert Overruns(rows, l, i, maxRetry, f) ==>
          rows'[i].attempts == m.attempts + 1 && rows'[i].status.OutboxPending?;
    }
  }

  /** Retry accounting: while the counter writes work, PENDING means attempts are left
      and no row's counter exceeds the limit. */
  lemma {:induction false} RetryAccounting(maxRetry: int, es: seq<System.Event>)
    requires 0 < maxRetry <= INT32_MAX && Reached(maxRetry, es).Some? && CountersWork(es)
    ensures Budgeted(Reached(maxRetry, es).value.stores.pg.outbox, maxRetry)
  {
    if es == [] {
    } else {
      var before := Reached(maxRetry, es[..|es| - 1]).value;
      var e := es[|es| - 1];
      Prefix(maxRetry, es);
      RetryAccounting(maxRetry, es[..|es| - 1]);
      RowStep(before, maxRetry, e);
      BudgetStep(before.stores.pg.outbox, After(before, maxRetry, e).stores.pg.outbox, maxRetry,
                 if e.Handle? then e.message else NO_MESSAGE_FAULTS);
    }
  }

  // ---- a tick of the poller as steps of the run ----

  function TickSteps(limit: nat, fs: seq<MessageFaults>, n: nat): seq<System.Event> {
    if n == 0 then [Fetch(limit)] else TickSteps(limit, fs, n - 1) + [Handle(FaultsAt(fs, n - 1))]
  }

  lemma RunStep(s: Sys, maxRetry: int, es: seq<System.Event>, e: System.Event)
    requires RunFrom(s, maxRetry, es).Some? && Possible(RunFrom(s, maxRetry, es).value, e)
    ensures RunFrom(s, maxRetry, es + [e]) == Some(After(RunFrom(s, maxRetry, es).value, maxRetry, e))
  {
    assert (es + [e])[..|es|] == es && (es + [e])[|es|] == e;
  }

  /** The state in the middle of a tick, after n messages of the batch. */
  function MidTick(s: Sys, maxRetry: int, limit: nat, fs: seq<MessageFaults>, n: nat): Sys
    requires n <= |SelectPending(s.stores.pg.outbox, limit)|
  {
    var batch := SelectPending(s.stores.pg.outbox, limit);
    var (rows, l) := BatchDone(s.stores.pg.outbox, s.stores.ledger, batch, maxRetry, fs, n);
    s.(stores := Stores(s.stores.pg.(outbox := rows), l), batch := batch[n..])
  }

  lemma MidTickStep(s: Sys, maxRetry: int, limit: nat, fs: seq<MessageFaults>, n: nat)
    requires 0 < n <= |SelectPending(s.stores.pg.outbox, limit)|
    ensures var mid, e := MidTick(s, maxRetry, limit, fs, n - 1), Handle(FaultsAt(fs, n - 1));
      Possible(mid, e) && After(mid, maxRetry, e) == MidTick(s, maxRetry, limit, fs, n)
  {
  }

  /** Fetching and then handling the batch message by message is what ProcessPendingMessages does in one call. */
  lemma {:induction false} TickAsSteps(s: Sys, maxRetry: int, limit: nat, fs: seq<MessageFaults>, n: nat)
    requires s.batch == [] && n <= |SelectPending(s.stores.pg.outbox, limit)|
    ensures RunFrom(s, maxRetry, TickSteps(limit, fs, n)) == Some(MidTick(s, maxRetry, limit, fs, n))
  {
    if n == 0 {
      RunStep(s, maxRetry, [], Fetch(limit));
    } else {
      TickAsSteps(s, maxRetry, limit, fs, n - 1);
      MidTickStep(s, maxRetry, limit, fs, n);
      RunStep(s, maxRetry, TickSteps(limit, fs, n - 1), Handle(FaultsAt(fs, n - 1)));
    }
  }

  // ---- what the code does not promise ----

  /** Recording a failure leaves completed entries alone exactly when it finds none to overwrite
      or its overwriting call has no effect; else COMPLETED turns into FAILED. A call that had
      passed its idempotency check before the publisher completed the entry gets there. */
  lemma RecordForwardIff(l: seq<Entry>, req: Request, reason: FailureReason, f: RecordFaults)
    requires Unique(l)
    ensures OnlyForward(l, Recorded(l, req, reason, f).0)
       <==> !(IsCompleted(l, req.transactionId) && f.get.NoFault? && !f.update.Lost?)
    ensures var l' := Recorded(l, req, reason, f).0;
      !OnlyForward(l, l') ==> Terminal(l', req.transactionId) && !IsCompleted(l', req.transactionId)
  {
    var l' := Recorded(l, req, reason, f).0;
    if EntryIndex(l, req.transactionId).Some? {
      var i := EntryIndex(l, req.transactionId).value;
      assert l' == l || l' == l[i := Marked(l[i], Failed, reason)];
      assert l'[i].transactionId == req.transactionId && EntryIndex(l', req.transactionId) == Some(i);
    }
  }
}
