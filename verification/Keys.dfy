/** What an idempotency key guarantees over whole runs, and what it does not. */
module Keys {
  import opened Shared
  import opened Domain
  import opened Accounts
  import opened Postgres
  import opened Sorting
  import opened LedgerStore
  import opened Bank
  import opened Processing
  import opened Outcome
  import opened Publishing
  import opened Gateway
  import opened System
  import opened Runs

  // ---- one request per key ----

  predicate KeyOnce(topic: seq<Request>) {
    forall i, j :: 0 <= i < j < |topic| && topic[i].idempotencyKey != "" ==>
        topic[i].idempotencyKey != topic[j].idempotencyKey
  }

  predicate Asked(topic: seq<Request>, key: string) {
    exists i :: 0 <= i < |topic| && topic[i].idempotencyKey == key
  }

  /** A submission that gets past the lookup because its key is on its way but not yet in the ledger. */
  predicate Repeats(l: seq<Entry>, topic: seq<Request>, req: Request, f: SubmitFaults) {
    && req.idempotencyKey != "" && Asked(topic, req.idempotencyKey) && !Carries(l, req.idempotencyKey)
    && f.find.NoFault? && !f.publish.Lost?
  }

  /** A submission keeps keys unique exactly when it does not repeat one in flight. */
  lemma SubmitKeepsKeyOnceIff(l: seq<Entry>, topic: seq<Request>, req: Request, f: SubmitFaults)
    requires KeyOnce(topic)
    ensures KeyOnce(Submitted(l, topic, req, f).0) <==> !Repeats(l, topic, req, f)
  {
    var topic' := Submitted(l, topic, req, f).0;
    if Repeats(l, topic, req, f) {
      var i :| 0 <= i < |topic| && topic[i].idempotencyKey == req.idempotencyKey;
      assert topic'[i] == topic[i] && topic'[|topic|] == req;
    }
  }

  /** No submission of the run repeats a key in flight. */
  predicate NeverRepeats(maxRetry: int, es: seq<System.Event>) {
    es == [] ||
    var e := es[|es| - 1];
    && NeverRepeats(maxRetry, es[..|es| - 1])
    && match Reached(maxRetry, es[..|es| - 1])
       case Some(s) => e.Submit? ==> !Repeats(s.stores.ledger, s.topic, e.req, e.submit)
       case None => true
  }

  /** A run's topic holds every key at most once exactly when no submission took that branch. */
  lemma {:induction false} KeyOnceIff(maxRetry: int, es: seq<System.Event>)
    requires Reached(maxRetry, es).Some?
    ensures KeyOnce(Reached(maxRetry, es).value.topic) <==> NeverRepeats(maxRetry, es)
  {
    if es == [] {
    } else {
      var s, e := Reached(maxRetry, es[..|es| - 1]).value, es[|es| - 1];
      var topic' := After(s, maxRetry, e).topic;
      KeyOnceIff(maxRetry, es[..|es| - 1]);
      if KeyOnce(s.topic) {
        if e.Submit? {
          SubmitKeepsKeyOnceIff(s.stores.ledger, s.topic, e.req, e.submit);
        }
      } else {
        var i, j :| 0 <= i < j < |s.topic| && s.topic[i].idempotencyKey != ""
            && s.topic[i].idempotencyKey == s.topic[j].idempotencyKey;
        assert topic'[i] == s.topic[i] && topic'[j] == s.topic[j];
      }
    }
  }

  lemma {:induction false} FoundIsInTopic(topic: seq<Request>, id: Uuid) returns (i: nat)
    requires Find(topic, id).Some?
    ensures i < |topic| && topic[i] == Find(topic, id).value
  {
    if topic[|topic| - 1].transactionId == id {
      i := |topic| - 1;
    } else {
      i := FoundIsInTopic(topic[..|topic| - 1], id);
    }
  }

  function KeyOf(m: Message): string {
    match m.payload
    case Decodes(e) => e.idempotencyKey
    case Corrupt => ""
  }

  /** In such a run money moves at most once per key. */
  lemma KeyAppliedOnce(maxRetry: int, es: seq<System.Event>, i: nat, j: nat)
    requires Reached(maxRetry, es).Some? && NeverRepeats(maxRetry, es)
    requires i < j < |Reached(maxRetry, es).value.stores.pg.outbox|
    ensures var rows := Reached(maxRetry, es).value.stores.pg.outbox;
      KeyOf(rows[i]) != "" ==> KeyOf(rows[i]) != KeyOf(rows[j])
  {
    var rows := Reached(maxRetry, es).value.stores.pg.outbox;
    KeyOnceIff(maxRetry, es);
    DifferentRows(maxRetry, es, i, j);
    KeysDiffer(Reached(maxRetry, es).value.topic, rows[i].transactionId, rows[j].transactionId);
  }

  lemma KeysDiffer(topic: seq<Request>, id: Uuid, other: Uuid)
    requires KeyOnce(topic) && id != other && Find(topic, id).Some? && Find(topic, other).Some?
    ensures var key := Find(topic, id).value.idempotencyKey;
        key != "" ==> key != Find(topic, other).value.idempotencyKey
  {
    var i := FoundIsInTopic(topic, id);
    var j := FoundIsInTopic(topic, other);
  }

  lemma DifferentRows(maxRetry: int, es: seq<System.Event>, i: nat, j: nat)
    requires Reached(maxRetry, es).Some? && i < j < |Reached(maxRetry, es).value.stores.pg.outbox|
    ensures var s := Reached(maxRetry, es).value;
      var rows := s.stores.pg.outbox;
      && rows[i].transactionId != rows[j].transactionId
      && Find(s.topic, rows[i].transactionId).Some? && Find(s.topic, rows[j].transactionId).Some?
      && KeyOf(rows[i]) == Find(s.topic, rows[i].transactionId).value.idempotencyKey
      && KeyOf(rows[j]) == Find(s.topic, rows[j].transactionId).value.idempotencyKey
  {
    var s := Reached(maxRetry, es).value;
    RunKeeps(START, maxRetry, es);
    assert RowOk(s.topic, s.stores.pg.accounts, s.stores.ledger, s.stores.pg.outbox[i]);
    assert RowOk(s.topic, s.stores.pg.accounts, s.stores.ledger, s.stores.pg.outbox[j]);
  }

  // ---- one application per key ----

  predicate RowKeysOnce(rows: seq<Message>) {
    forall i, j :: 0 <= i < j < |rows| && KeyOf(rows[i]) != "" ==> KeyOf(rows[i]) != KeyOf(rows[j])
  }

  predicate KeyApplied(rows: seq<Message>, key: string) {
    exists i :: 0 <= i < |rows| && KeyOf(rows[i]) == key
  }

  /** A delivery that moves money for a key that has moved money already. */
  predicate AppliesAgain(s: Stores, req: Request, f: ProcessFaults) {
    && req.idempotencyKey != "" && KeyApplied(s.pg.outbox, req.idempotencyKey)
    && Admissible(s.pg, req) && !Terminal(s.ledger, req.transactionId) && CommitGetsThrough(f)
  }

  lemma AppendKeyIff(rows: seq<Message>, m: Message)
    requires RowKeysOnce(rows)
    ensures RowKeysOnce(rows + [m]) <==> KeyOf(m) == "" || !KeyApplied(rows, KeyOf(m))
  {
    var rows' := rows + [m];
    if KeyOf(m) != "" && KeyApplied(rows, KeyOf(m)) {
      var i :| 0 <= i < |rows| && KeyOf(rows[i]) == KeyOf(m);
      assert KeyOf(rows'[i]) == KeyOf(rows'[|rows|]);
    }
  }

  /** A delivery, under any faults, keeps one application per key exactly when it is not such a one. */
  lemma DeliveryKeepsKeysIff(s: Stores, req: Request, now: int, f: ProcessFaults)
    requires Healthy(s.pg) && RowKeysOnce(s.pg.outbox)
    ensures RowKeysOnce(Processed(s, req, now, f).0.pg.outbox) <==> !AppliesAgain(s, req, f)
  {
    OutcomeContract(s, req, now, f);
    CommittedIff(s, req, now, f);
    AppendKeyIff(s.pg.outbox, AppliedRow(req, s.pg.nextId, now));
  }

  predicate NeverAppliesAgain(maxRetry: int, es: seq<System.Event>) {
    es == [] ||
    var e := es[|es| - 1];
    && NeverAppliesAgain(maxRetry, es[..|es| - 1])
    && match Reached(maxRetry, es[..|es| - 1])
       case Some(s) =>
         e.Deliver? && Find(s.topic, e.transaction).Some? ==>
           !AppliesAgain(s.stores, Find(s.topic, e.transaction).value, e.process)
       case None => true
  }

  /** Rows keep their keys, and only a delivery adds one. */
  lemma KeysStay(s: Sys, maxRetry: int, e: System.Event)
    requires SysInv(s) && Possible(s, e)
    ensures var rows, rows' := s.stores.pg.outbox, After(s, maxRetry, e).stores.pg.outbox;
      && |rows| <= |rows'| && (!e.Deliver? ==> |rows'| == |rows|)
      && forall i :: 0 <= i < |rows| ==> KeyOf(rows'[i]) == KeyOf(rows[i])
  {
    RowStep(s, maxRetry, e);
    if e.Handle? {
      HandledRows(s, maxRetry, e.message);
    }
  }

  lemma StepKeysIff(s: Sys, maxRetry: int, e: System.Event)
    requires SysInv(s) && Possible(s, e)
    ensures RowKeysOnce(After(s, maxRetry, e).stores.pg.outbox)
       <==> RowKeysOnce(s.stores.pg.outbox)
            && !(e.Deliver? && AppliesAgain(s.stores, Find(s.topic, e.transaction).value, e.process))
  {
    KeysStay(s, maxRetry, e);
    KeysCarryOver(s.stores.pg.outbox, After(s, maxRetry, e).stores.pg.outbox);
    if e.Deliver? && RowKeysOnce(s.stores.pg.outbox) {
      DeliveryKeepsKeysIff(s.stores, Find(s.topic, e.transaction).value, e.now, e.process);
    }
  }

  lemma KeysCarryOver(rows: seq<Message>, rows': seq<Message>)
    requires |rows| <= |rows'| && forall i :: 0 <= i < |rows| ==> KeyOf(rows'[i]) == KeyOf(rows[i])
    ensures RowKeysOnce(rows') ==> RowKeysOnce(rows)
    ensures |rows'| == |rows| && RowKeysOnce(rows) ==> RowKeysOnce(rows')
  {
    if !RowKeysOnce(rows) {
      var i, j :| 0 <= i < j < |rows| && KeyOf(rows[i]) != "" && KeyOf(rows[i]) == KeyOf(rows[j]);
      assert KeyOf(rows'[i]) == KeyOf(rows'[j]);
    }
  }

  /** Money has moved at most once per key exactly when no delivery of the run applied a key again. */
  lemma {:induction false} KeyAppliedOnceIff(maxRetry: int, es: seq<System.Event>)
    requires Reached(maxRetry, es).Some?
    ensures RowKeysOnce(Reached(maxRetry, es).value.stores.pg.outbox) <==> NeverAppliesAgain(maxRetry, es)
  {
    if es == [] {
    } else {
      Prefix(maxRetry, es);
      KeyAppliedOnceIff(maxRetry, es[..|es| - 1]);
      StepKeysIff(Reached(maxRetry, es[..|es| - 1]).value, maxRetry, es[|es| - 1]);
    }
  }

  // ---- the answer to a key already in the ledger ----

  predicate Single(l: seq<Entry>, key: string) {
    forall i, j :: 0 <= i < j < |l| ==> !(l[i].idempotencyKey == key && l[j].idempotencyKey == key)
  }

  function Answer(l: seq<Entry>, topic: seq<Request>, req: Request, pick: nat): Result<Receipt, Error> {
    Submitted(l, topic, req, SubmitFaults(NoFault, NoFault, pick)).1
  }

  /** The answer is the same whichever document the query returns exactly when one entry carries the key. */
  lemma AnswerIsFixedIff(l: seq<Entry>, topic: seq<Request>, req: Request)
    requires Unique(l) && req.idempotencyKey != "" && Carries(l, req.idempotencyKey)
    ensures (forall p: nat, q: nat :: Answer(l, topic, req, p) == Answer(l, topic, req, q))
        <==> Single(l, req.idempotencyKey)
  {
    if !Single(l, req.idempotencyKey) {
      var i, j :| 0 <= i < j < |l| && l[i].idempotencyKey == req.idempotencyKey
          && l[j].idempotencyKey == req.idempotencyKey;
      assert Answer(l, topic, req, i) != Answer(l, topic, req, j);
    }
  }

  /** Once any entry carries a key, at every later point of the run a submission with that
      key publishes nothing and is answered, when the lookup works, by an entry with the
      key: the same transaction for good while only one entry carries it. */
  lemma KeyStability(maxRetry: int, es: seq<System.Event>, n: nat, i: nat, req: Request, f: SubmitFaults)
    requires n <= |es| && Reached(maxRetry, es).Some? && Reached(maxRetry, es[..n]).Some?
    requires i < |Reached(maxRetry, es[..n]).value.stores.ledger|
    requires req.idempotencyKey != ""
    requires Reached(maxRetry, es[..n]).value.stores.ledger[i].idempotencyKey == req.idempotencyKey
    ensures var l, s := Reached(maxRetry, es[..n]).value.stores.ledger, Reached(maxRetry, es).value;
      var (topic', r) := Submitted(s.stores.ledger, s.topic, req, f);
      && topic' == s.topic
      && (f.find.NoFault? ==>
            && r.Ok? && r.value.existing.Some? && r.value.existing.value in s.stores.ledger
            && r.value.existing.value.idempotencyKey == req.idempotencyKey
            && (Single(s.stores.ledger, req.idempotencyKey) ==> r.value.transactionId == l[i].transactionId))
  {
    var l, s := Reached(maxRetry, es[..n]).value.stores.ledger, Reached(maxRetry, es).value;
    CompletedNeverReverts(maxRetry, es, n);
    EntryKept(l, s.stores.ledger, i);
    CarriedKeyIsAnswered(s.stores.ledger, s.topic, req, f);
  }

  lemma EntryKept(l: seq<Entry>, l': seq<Entry>, i: nat)
    requires Grows(l, l') && i < |l|
    ensures i < |l'| && l'[i].transactionId == l[i].transactionId && l'[i].idempotencyKey == l[i].idempotencyKey
  {
    assert l'[i].(status := l[i].status, failureReason := l[i].failureReason, processed := l[i].processed) == l[i];
  }

  // ---- a run that applies one key twice ----

  function KeyedDeposit(id: Uuid): Request {
    Request(id, 7, Deposit, 5, "EUR", "k", "", 0)
  }

  const NO_SUBMIT_FAULTS := SubmitFaults(NoFault, NoFault, 0)

  function KeyedState(topic: seq<Request>, balance: int64, version: int64, rows: seq<Message>): Sys {
    var row := AccountRow("o", "n", balance, "EUR", version);
    Sys(topic, map[7 := 0], Stores(Tables(map[7 := row], rows, |rows| + 1), []), [])
  }

  lemma KeyedSubmit(topic: seq<Request>, id: Uuid)
    requires Find(topic, id).None?
    ensures var s, e := KeyedState(topic, 0, 1, []), Submit(KeyedDeposit(id), NO_SUBMIT_FAULTS);
      Possible(s, e) && After(s, 3, e) == KeyedState(topic + [KeyedDeposit(id)], 0, 1, [])
  {
  }

  lemma KeyedDeliver(topic: seq<Request>, id: Uuid, rows: seq<Message>, balance: int64, version: int64)
    requires Find(topic, id) == Some(KeyedDeposit(id)) && !HasTransaction(rows, id)
    requires 0 <= balance <= 100 && 1 <= version <= 100 && forall i :: 0 <= i < |rows| ==> rows[i].id <= |rows|
    ensures var s, e := KeyedState(topic, balance, version, rows), Deliver(id, 0, NO_FAULTS);
      && Possible(s, e)
      && After(s, 3, e) == KeyedState(topic, balance + 5, version + 1,
          rows + [AppliedRow(KeyedDeposit(id), |rows| + 1, 0)])
  {
    var row := AccountRow("o", "n", balance, "EUR", version);
    var t := Tables(map[7 := row], rows, |rows| + 1);
    FaultFreeDelivery(t, KeyedDeposit(id));
    assert map[7 := row][7 := row.(balance := balance + 5, version := version + 1)]
        == map[7 := row.(balance := balance + 5, version := version + 1)];
  }

  lemma FaultFreeDelivery(t: Tables, req: Request)
    requires Healthy(t) && Admissible(t, req)
    ensures var (s', err) := Processed(Stores(t, []), req, 0, NO_FAULTS);
      s'.ledger == [] && AppliedTo(t, s'.pg, req, 0)
  {
    FaultFreeTransaction(t, req, 0);
    TransactionOutcome(t, req, 0, NO_TX_FAULTS);
  }

  const KEYED_OPEN := Open(7, AccountRow("o", "n", 0, "EUR", 1))

  lemma KeyedTopic() returns (es: seq<System.Event>)
    ensures Reached(3, es) == Some(KeyedState([KeyedDeposit(1), KeyedDeposit(2)], 0, 1, []))
  {
    var s1 := [KEYED_OPEN];
    var s2 := s1 + [Submit(KeyedDeposit(1), NO_SUBMIT_FAULTS)];
    RunStep(START, 3, [], KEYED_OPEN);
    assert [] + [KEYED_OPEN] == s1;
    assert After(START, 3, KEYED_OPEN) == KeyedState([], 0, 1, []);
    KeyedSubmit([], 1);
    RunStep(START, 3, s1, Submit(KeyedDeposit(1), NO_SUBMIT_FAULTS));
    assert [] + [KeyedDeposit(1)] == [KeyedDeposit(1)];
    FindAppended([], KeyedDeposit(1), 2);
    KeyedSubmit([KeyedDeposit(1)], 2);
    RunStep(START, 3, s2, Submit(KeyedDeposit(2), NO_SUBMIT_FAULTS));
    es := s2 + [Submit(KeyedDeposit(2), NO_SUBMIT_FAULTS)];
    assert [KeyedDeposit(1)] + [KeyedDeposit(2)] == [KeyedDeposit(1), KeyedDeposit(2)];
  }

  lemma FirstApplied() returns (es: seq<System.Event>)
    ensures Reached(3, es) == Some(KeyedState([KeyedDeposit(1), KeyedDeposit(2)], 5, 2,
        [AppliedRow(KeyedDeposit(1), 1, 0)]))
  {
    var topic := [KeyedDeposit(1), KeyedDeposit(2)];
    var before := KeyedTopic();
    assert topic[..1] == [KeyedDeposit(1)];
    KeyedDeliver(topic, 1, [], 0, 1);
    RunStep(START, 3, before, Deliver(1, 0, NO_FAULTS));
    es := before + [Deliver(1, 0, NO_FAULTS)];
    assert [] + [AppliedRow(KeyedDeposit(1), 1, 0)] == [AppliedRow(KeyedDeposit(1), 1, 0)];
  }

  /** Two submissions with one key before either reaches the ledger are both applied. */
  lemma SameKeyAppliesTwice() returns (es: seq<System.Event>)
    ensures Reached(3, es) == Some(KeyedState([KeyedDeposit(1), KeyedDeposit(2)], 10, 3,
                                              [AppliedRow(KeyedDeposit(1), 1, 0), AppliedRow(KeyedDeposit(2), 2, 0)]))
  {
    var topic, rows := [KeyedDeposit(1), KeyedDeposit(2)], [AppliedRow(KeyedDeposit(1), 1, 0)];
    var before := FirstApplied();
    KeyedDeliver(topic, 2, rows, 5, 2);
    RunStep(START, 3, before, Deliver(2, 0, NO_FAULTS));
    es := before + [Deliver(2, 0, NO_FAULTS)];
    assert rows + [AppliedRow(KeyedDeposit(2), 2, 0)]
        == [AppliedRow(KeyedDeposit(1), 1, 0), AppliedRow(KeyedDeposit(2), 2, 0)];
  }

  /** The two applied deposits with their rows in the given states, and the ledger so far. */
  function KeyedPublishing(first: OutboxStatus, second: OutboxStatus, l: seq<Entry>, batch: seq<Message>): Sys {
    var rows := [AppliedRow(KeyedDeposit(1), 1, 0).(status := first),
        AppliedRow(KeyedDeposit(2), 2, 0).(status := second)];
    var s := KeyedState([KeyedDeposit(1), KeyedDeposit(2)], 10, 3, rows);
    s.(stores := s.stores.(ledger := l), batch := batch)
  }

  function KeyedEntry(id: Uuid): Entry {
    CompletedEntry(ProcessingEntry(KeyedDeposit(id)))
  }

  lemma KeyedFetch()
    ensures var r1, r2 := AppliedRow(KeyedDeposit(1), 1, 0), AppliedRow(KeyedDeposit(2), 2, 0);
      After(KeyedPublishing(OutboxPending, OutboxPending, [], []), 3, Fetch(2))
        == KeyedPublishing(OutboxPending, OutboxPending, [], [r1, r2])
  {
    var r1, r2 := AppliedRow(KeyedDeposit(1), 1, 0), AppliedRow(KeyedDeposit(2), 2, 0);
    var pending := (m: Message) => m.status.OutboxPending?;
    assert [r1, r2][1..] == [r2] && [r2][1..] == [];
    assert Filter([r1, r2], pending) == [r1, r2];
    assert Sort([r2], NotAfter) == [r2];
    assert Sort([r1, r2], NotAfter) == [r1, r2];
  }

  lemma KeyedHandle()
    ensures var r1, r2 := AppliedRow(KeyedDeposit(1), 1, 0), AppliedRow(KeyedDeposit(2), 2, 0);
      && After(KeyedPublishing(OutboxPending, OutboxPending, [], [r1, r2]), 3, Handle(NO_MESSAGE_FAULTS))
         == KeyedPublishing(OutboxProcessed, OutboxPending, [KeyedEntry(1)], [r2])
      && After(KeyedPublishing(OutboxProcessed, OutboxPending, [KeyedEntry(1)], [r2]), 3, Handle(NO_MESSAGE_FAULTS))
         == KeyedPublishing(OutboxProcessed, OutboxProcessed, [KeyedEntry(1), KeyedEntry(2)], [])
  {
    var r1, r2 := AppliedRow(KeyedDeposit(1), 1, 0), AppliedRow(KeyedDeposit(2), 2, 0);
    var done := r1.(status := OutboxProcessed);
    assert [r1, r2][1..] == [r2] && [r2][1..] == [] && [done, r2][1..] == [r2];
    assert IndexById([r1, r2], 1) == Some(0) && IndexById([r2], 2) == Some(0) && IndexById([done, r2], 2) == Some(1);
    assert [r1, r2][0 := done] == [done, r2];
    assert [done, r2][1 := r2.(status := OutboxProcessed)] == [done, r2.(status := OutboxProcessed)];
    assert [] + [KeyedEntry(1)] == [KeyedEntry(1)] && [KeyedEntry(1)][1..] == [];
    assert EntryIndex([KeyedEntry(1)], 2).None?;
    assert [KeyedEntry(1)] + [KeyedEntry(2)] == [KeyedEntry(1), KeyedEntry(2)];
  }

  /** Once both are published two entries carry the key, and which one answers is left to the query. */
  lemma KeyAnsweredTwoWays() returns (es: seq<System.Event>)
    ensures Reached(3, es) == Some(KeyedPublishing(OutboxProcessed, OutboxProcessed, [KeyedEntry(1), KeyedEntry(2)],
        []))
    ensures var l, topic := [KeyedEntry(1), KeyedEntry(2)], [KeyedDeposit(1), KeyedDeposit(2)];
      Answer(l, topic, KeyedDeposit(3), 0) != Answer(l, topic, KeyedDeposit(3), 1)
  {
    var r1, r2 := AppliedRow(KeyedDeposit(1), 1, 0), AppliedRow(KeyedDeposit(2), 2, 0);
    var applied := SameKeyAppliesTwice();
    KeyedFetch();
    KeyedHandle();
    assert Reached(3, applied) == Some(KeyedPublishing(OutboxPending, OutboxPending, [], []));
    RunStep(START, 3, applied, Fetch(2));
    var fetched := applied + [Fetch(2)];
    RunStep(START, 3, fetched, Handle(NO_MESSAGE_FAULTS));
    var half := fetched + [Handle(NO_MESSAGE_FAULTS)];
    RunStep(START, 3, half, Handle(NO_MESSAGE_FAULTS));
    es := half + [Handle(NO_MESSAGE_FAULTS)];
  }
}
