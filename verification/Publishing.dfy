/** Moving committed outbox rows to the ledger: PublishToLedger and the poller's batch
    (internal/transaction_processor/outbox_poller). */
module Publishing {
  import opened Shared
  import opened Domain
  import opened Postgres
  import opened LedgerStore

  // ---- ledger_publisher.go ----

  datatype PublishFaults = PublishFaults(get: Fault, create: CreateFaults, update: Fault, mark: Fault)

  function CompletedEntry(e: Entry): Entry {
    e.(status := Completed, processed := true)
  }

  /** The ledger write of one attempt. */
  function LedgerWritten(l: seq<Entry>, payload: Entry, f: PublishFaults): (seq<Entry>, Option<Error>) {
    match Lookup(l, payload.transactionId, f.get)
    case Ok(existing) =>
      if existing.status.Completed? then (l, None)
      else StatusUpdated(l, payload.transactionId, Completed, NoReason, f.update)
    case Err(ErrEntryNotFound(_)) => Created(l, CompletedEntry(payload), f.create)
    case Err(_) => (l, Some(ErrStore))
  }

  function Published(rows: seq<Message>, l: seq<Entry>, m: Message, f: PublishFaults)
    : (seq<Message>, seq<Entry>, Option<Error>)
  {
    match m.payload
    case Corrupt => (SetStatus(rows, m.id, OutboxFailedToPublish, f.mark).0, l, Some(ErrPayload))
    case Decodes(entry) =>
      var (l', err) := LedgerWritten(l, entry, f);
      if err.Some? then (rows, l', err)
      else
        var (rows', err') := SetStatus(rows, m.id, OutboxProcessed, f.mark);
        (rows', l', err')
  }

  method PublishToLedger(db: Database, ledger: LedgerRepository, m: Message, f: PublishFaults)
    returns (err: Option<Error>)
    modifies db, ledger
    ensures db.locks == old(db.locks)
    ensures db.tables == old(db.tables).(outbox := Published(old(db.tables.outbox), old(ledger.entries), m, f).0)
    ensures (ledger.entries, err)
         == (Published(old(db.tables.outbox), old(ledger.entries), m, f).1,
             Published(old(db.tables.outbox), old(ledger.entries), m, f).2)
  {
    if m.payload.Corrupt? {
      var updateErr := UpdateStatus(db, m.id, OutboxFailedToPublish, f.mark);
      return Some(ErrPayload);
    }
    var entryToPublish := m.payload.entry;
    entryToPublish := entryToPublish.(status := Completed);
    entryToPublish := entryToPublish.(processed := true);
    var existing := ledger.GetByTransactionID(entryToPublish.transactionId, f.get);
    if existing.Err? && !existing.error.ErrEntryNotFound? {
      return Some(ErrStore);
    }
    if existing.Ok? {
      if !existing.value.status.Completed? {
        err := ledger.UpdateStatus(entryToPublish.transactionId, Completed, NoReason, f.update);
        if err.Some? {
          return;
        }
      }
    } else {
      err := ledger.Create(entryToPublish, f.create);
      if err.Some? {
        return;
      }
    }
    err := UpdateStatus(db, m.id, OutboxProcessed, f.mark);
  }

  /** What publishing is for: the transaction is in the ledger, completed, once. */
  function LedgerWith(l: seq<Entry>, payload: Entry): seq<Entry> {
    match EntryIndex(l, payload.transactionId)
    case None => l + [CompletedEntry(payload)]
    case Some(i) => if l[i].status.Completed? then l else l[i := Marked(l[i], Completed, NoReason)]
  }

  lemma LedgerWithSettles(l: seq<Entry>, payload: Entry)
    requires Unique(l)
    ensures var l' := LedgerWith(l, payload);
      && Unique(l') && Grows(l, l') && LedgerWith(l', payload) == l'
      && EntryIndex(l', payload.transactionId).Some?
      && var i, e := EntryIndex(l', payload.transactionId).value, l'[EntryIndex(l', payload.transactionId).value];
      && e.status.Completed?
      && (!(i < |l| && l[i].status.Completed?) ==> e.processed && (i < |l| ==> e.failureReason == NoReason))
  {
    var l' := LedgerWith(l, payload);
    match EntryIndex(l, payload.transactionId)
    case None => assert l'[|l|].transactionId == payload.transactionId;
    case Some(i) => assert l'[i].transactionId == payload.transactionId;
  }

  /** One attempt leaves the ledger as it was or completed; success means completed. */
  lemma OneAttempt(l: seq<Entry>, payload: Entry, f: PublishFaults)
    ensures var (l', err) := LedgerWritten(l, payload, f);
      && (l' == l || l' == LedgerWith(l, payload))
      && (err.None? ==> l' == LedgerWith(l, payload))
      && (f == NO_PUBLISH_FAULTS ==> err.None?)
  {
  }

  /** Any number of attempts, in any fault pattern: the rows, the ledger, and whether some attempt succeeded. */
  function Attempts(rows: seq<Message>, l: seq<Entry>, m: Message, fs: seq<PublishFaults>)
    : (seq<Message>, seq<Entry>, bool)
  {
    if fs == [] then (rows, l, false)
    else
      var (rows0, l0, done) := Attempts(rows, l, m, fs[..|fs| - 1]);
      var (rows1, l1, err) := Published(rows0, l0, m, fs[|fs| - 1]);
      (rows1, l1, done || err.None?)
  }

  /** Publish idempotence: after any attempts the ledger is untouched or holds the one
      completed entry that does not depend on the faults, and a success means the latter. */
  lemma {:induction false} PublishIdempotent(rows: seq<Message>, l: seq<Entry>, m: Message, fs: seq<PublishFaults>)
    requires Unique(l) && m.payload.Decodes?
    ensures var (_, l', done) := Attempts(rows, l, m, fs);
      && (l' == l || l' == LedgerWith(l, m.payload.entry))
      && (done ==> l' == LedgerWith(l, m.payload.entry))
      && Unique(l')
  {
    LedgerWithSettles(l, m.payload.entry);
    if fs == [] {
    } else {
      PublishIdempotent(rows, l, m, fs[..|fs| - 1]);
      OneAttempt(Attempts(rows, l, m, fs[..|fs| - 1]).1, m.payload.entry, fs[|fs| - 1]);
    }
  }

  // ---- poller.go ----

  datatype MessageFaults = MessageFaults(publish: PublishFaults, increment: Fault, giveUp: Fault)

  const NO_PUBLISH_FAULTS := PublishFaults(NoFault, CreateFaults(NoFault, NoFault), NoFault, NoFault)
  const NO_MESSAGE_FAULTS := MessageFaults(NO_PUBLISH_FAULTS, NoFault, NoFault)

  function FaultsAt(fs: seq<MessageFaults>, i: nat): MessageFaults {
    if i < |fs| then fs[i] else NO_MESSAGE_FAULTS
  }

  /** One turn of the batch loop. */
  function Handled(rows: seq<Message>, l: seq<Entry>, m: Message, maxRetry: int, f: MessageFaults)
    : (seq<Message>, seq<Entry>)
  {
    var (rows1, l1, err) := Published(rows, l, m, f.publish);
    if err.None? then (rows1, l1)
    else
      var (rows2, errInc) := AddAttempt(rows1, m.id, f.increment);
      if errInc.Some? then (rows2, l1)
      else if m.attempts + 1 >= maxRetry then (SetStatus(rows2, m.id, OutboxFailedToPublish, f.giveUp).0, l1)
      else (rows2, l1)
  }

  function BatchDone(rows: seq<Message>, l: seq<Entry>, batch: seq<Message>, maxRetry: int, fs: seq<MessageFaults>,
                     n: nat)
    : (seq<Message>, seq<Entry>)
    requires n <= |batch|
  {
    if n == 0 then (rows, l)
    else
      var (rows', l') := BatchDone(rows, l, batch, maxRetry, fs, n - 1);
      Handled(rows', l', batch[n - 1], maxRetry, FaultsAt(fs, n - 1))
  }

  method HandleMessage(db: Database, ledger: LedgerRepository, m: Message, maxRetry: int, f: MessageFaults)
    modifies db, ledger
    ensures db.locks == old(db.locks)
    ensures db.tables == old(db.tables).(outbox := Handled(old(db.tables.outbox), old(ledger.entries), m, maxRetry,
        f).0)
    ensures ledger.entries == Handled(old(db.tables.outbox), old(ledger.entries), m, maxRetry, f).1
  {
    var err := PublishToLedger(db, ledger, m, f.publish);
    if err.Some? {
      var errInc := IncrementAttempts(db, m.id, f.increment);
      if errInc.Some? {
        return;
      }
      if m.attempts + 1 >= maxRetry {
        var errUpdate := UpdateStatus(db, m.id, OutboxFailedToPublish, f.giveUp);
      }
    }
  }

  method ProcessPendingMessages(db: Database, ledger: LedgerRepository, batchSize: nat, maxRetry: int,
                                get: Fault, fs: seq<MessageFaults>)
    returns (err: Option<Error>)
    modifies db, ledger
    ensures db.locks == old(db.locks)
    ensures !get.NoFault? ==> err.Some? && db.tables == old(db.tables) && ledger.entries == old(ledger.entries)
    ensures get.NoFault? ==>
      var batch := SelectPending(old(db.tables.outbox), batchSize);
      var done := BatchDone(old(db.tables.outbox), old(ledger.entries), batch, maxRetry, fs, |batch|);
      err.None? && db.tables == old(db.tables).(outbox := done.0) && ledger.entries == done.1
  {
    var fetched := GetPending(db, batchSize, get);
    if fetched.Err? {
      return Some(fetched.error);
    }
    var messages := fetched.value;
    if |messages| == 0 {
      return None;
    }
    for i := 0 to |messages|
      invariant db.locks == old(db.locks)
      invariant var done := BatchDone(old(db.tables.outbox), old(ledger.entries), messages, maxRetry, fs, i);
        db.tables == old(db.tables).(outbox := done.0) && ledger.entries == done.1
    {
      HandleMessage(db, ledger, messages[i], maxRetry, FaultsAt(fs, i));
    }
    return None;
  }

  // ---- what a batch does to the rows ----

  /** The row a PENDING message may have become after its turn. */
  predicate Settled(m: Message, m': Message, maxRetry: int, f: MessageFaults) {
    && m' == m.(status := m'.status, attempts := m'.attempts)
    && (m'.attempts == m.attempts || m'.attempts == m.attempts + 1)
    && (m'.status.OutboxPending? ==>
          || (m'.attempts == m.attempts + 1 && (m.attempts + 1 < maxRetry || f.giveUp.Lost? || f.increment.Ambiguous?))
          || (m'.attempts == m.attempts && f.increment.Lost?)
          || (m'.attempts == m.attempts && m.attempts >= INT32_MAX))
    && (m'.status.OutboxFailedToPublish? ==> m.payload.Corrupt? || m.attempts + 1 >= maxRetry)
    && (f.increment.NoFault? && !f.giveUp.Lost? && m.attempts < INT32_MAX ==>
          || (m'.status.OutboxProcessed? && m'.attempts == m.attempts)
          || (m'.attempts == m.attempts + 1 && (m'.attempts >= maxRetry ==> m'.status.OutboxFailedToPublish?)))
  }

  lemma SetStatusAt(rows: seq<Message>, i: nat, status: OutboxStatus, f: Fault)
    requires DistinctIds(rows) && i < |rows|
    ensures var (rows', err) := SetStatus(rows, rows[i].id, status, f);
      && rows' == rows[i := rows[i].(status := if f.Lost? then rows[i].status else status)]
      && (err.None? <==> f.NoFault?)
  {
  }

  lemma AddAttemptAt(rows: seq<Message>, i: nat, f: Fault)
    requires DistinctIds(rows) && i < |rows|
    ensures var (rows', err) := AddAttempt(rows, rows[i].id, f);
      && rows' == rows[i := rows[i].(attempts :=
           if f.Lost? || rows[i].attempts >= INT32_MAX then rows[i].attempts else rows[i].attempts + 1)]
      && (err.None? <==> f.NoFault? && rows[i].attempts < INT32_MAX)
  {
  }

  /** An attempt touches the status of its own row only, and marks it PROCESSED only
      once the ledger holds the completed entry. */
  lemma PublishedAt(rows: seq<Message>, l: seq<Entry>, i: nat, f: PublishFaults)
    requires DistinctIds(rows) && i < |rows|
    ensures var m := rows[i]; var (rows', l', err) := Published(rows, l, m, f);
      && |rows'| == |rows| && rows' == rows[i := m.(status := rows'[i].status)]
      && (err.None? ==> rows'[i].status.OutboxProcessed? && m.payload.Decodes?)
      && (|| rows'[i].status == m.status
          || (rows'[i].status.OutboxProcessed? && m.payload.Decodes? && l' == LedgerWith(l, m.payload.entry))
          || (rows'[i].status.OutboxFailedToPublish? && m.payload.Corrupt?))
      && (m.payload.Corrupt? && !f.mark.Lost? ==> rows'[i].status.OutboxFailedToPublish?)
      && (m.payload.Decodes? && f == NO_PUBLISH_FAULTS ==> err.None?)
  {
  }

  /** The ledger calls of an attempt on this payload all succeed. */
  predicate LedgerAccepts(l: seq<Entry>, payload: Entry, f: PublishFaults) {
    && f.get.NoFault?
    && match EntryIndex(l, payload.transactionId)
       case None => f.create == CreateFaults(NoFault, NoFault)
       case Some(i) => l[i].status.Completed? || f.update.NoFault?
  }

  /** An attempt succeeds exactly when the payload decodes and every call it makes succeeds;
      the ledger gains the completed entry exactly when its writing call takes effect. */
  lemma PublishedIff(rows: seq<Message>, l: seq<Entry>, i: nat, f: PublishFaults)
    requires DistinctIds(rows) && i < |rows|
    ensures var m := rows[i]; var (rows', l', err) := Published(rows, l, m, f);
      && (err.None? <==> m.payload.Decodes? && LedgerAccepts(l, m.payload.entry, f) && f.mark.NoFault?)
      && (m.payload.Corrupt? ==> l' == l && err == Some(ErrPayload))
      && (m.payload.Decodes? && LedgerWith(l, m.payload.entry) != l ==>
            (l' != l <==>
               && f.get.NoFault?
               && if EntryIndex(l, m.payload.entry.transactionId).Some? then !f.update.Lost?
                  else f.create.check.NoFault? && !f.create.insert.Lost?))
      && (m.payload.Decodes? && m.status.OutboxPending? ==>
            (rows'[i].status.OutboxProcessed? <==> LedgerAccepts(l, m.payload.entry, f) && !f.mark.Lost?))
  {
    SetStatusAt(rows, i, OutboxProcessed, f.mark);
    SetStatusAt(rows, i, OutboxFailedToPublish, f.mark);
  }

  /** The message's own row settles, every other row is untouched; a publication that
      succeeds is not counted as an attempt, one that fails is whenever the counter can be written. */
  lemma HandledSettles(rows: seq<Message>, l: seq<Entry>, i: nat, maxRetry: int, f: MessageFaults)
    requires DistinctIds(rows) && i < |rows| && rows[i].status.OutboxPending?
    ensures var m := rows[i]; var rows' := Handled(rows, l, m, maxRetry, f).0;
      && |rows'| == |rows| && rows' == rows[i := rows'[i]] && Settled(m, rows'[i], maxRetry, f)
      && if Published(rows, l, m, f.publish).2.None? then rows'[i] == m.(status := OutboxProcessed)
         else rows'[i].attempts == (if f.increment.Lost? || m.attempts >= INT32_MAX then m.attempts else m.attempts + 1)
  {
    var m := rows[i];
    var (rows1, l1, err) := Published(rows, l, m, f.publish);
    PublishedAt(rows, l, i, f.publish);
    if err.Some? {
      AddAttemptAt(rows1, i, f.increment);
      var rows2 := AddAttempt(rows1, m.id, f.increment).0;
      assert rows2 == rows[i := rows2[i]];
      SetStatusAt(rows2, i, OutboxFailedToPublish, f.giveUp);
    }
  }

  /** The ledger after one turn; a row is PROCESSED only beside the completed entry. */
  lemma HandledLedger(rows: seq<Message>, l: seq<Entry>, i: nat, maxRetry: int, f: MessageFaults)
    requires DistinctIds(rows) && i < |rows| && rows[i].status.OutboxPending?
    ensures var m := rows[i]; var (rows', l') := Handled(rows, l, m, maxRetry, f);
      && |rows'| == |rows|
      && (l' == l || (m.payload.Decodes? && l' == LedgerWith(l, m.payload.entry)))
      && (rows'[i].status.OutboxProcessed? ==> m.payload.Decodes? && l' == LedgerWith(l, m.payload.entry))
  {
    var m := rows[i];
    var (rows1, l1, err) := Published(rows, l, m, f.publish);
    PublishedAt(rows, l, i, f.publish);
    if m.payload.Decodes? {
      OneAttempt(l, m.payload.entry, f.publish);
    }
    if err.Some? {
      AddAttemptAt(rows1, i, f.increment);
      var rows2 := AddAttempt(rows1, m.id, f.increment).0;
      SetStatusAt(rows2, i, OutboxFailedToPublish, f.giveUp);
    }
  }
}
