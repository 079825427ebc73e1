/** What the ledger still guarantees when calls overlap: any number of RecordFailure calls
    and of pollers interleave store call by store call. A call that crashes takes no further step. */
module Overlap {
  import opened Shared
  import opened Domain
  import opened Accounts
  import opened Postgres
  import opened LedgerStore
  import opened Bank
  import opened Processing
  import opened Outcome
  import opened Publishing
  import opened System

  /** A RecordFailure call and the store call it makes next. */
  datatype Recorder =
    | Looking(req: Request, reason: FailureReason)
    | Overwriting(req: Request, reason: FailureReason)
    | Checking(req: Request, reason: FailureReason)
    | Inserting(req: Request, reason: FailureReason)
    | Returned

  /** A poller's message and the store call it makes next. */
  datatype Poller =
    | Done
    | Reading(m: Message)
    | Completing(m: Message)
    | Rechecking(m: Message)
    | Adding(m: Message)
    | Marking(m: Message)
    | Counting(m: Message)
    | GivingUp(m: Message)

  datatype World = World(topic: seq<Request>, accounts: map<Uuid, AccountRow>, rows: seq<Message>, ledger: seq<Entry>,
                         recorders: seq<Recorder>, pollers: seq<Poller>)

  const EMPTY_WORLD := World([], map[], [], [], [], [])

  /** pick chooses the document when a ledger query matches several. */
  datatype Step =
    | Submit(req: Request)                    // the gateway adds to the topic
    | Open(id: Uuid, row: AccountRow)
    | Apply(id: Uuid, rowId: int, now: int)   // a worker commits a request of the topic
    | Refuse(id: Uuid)                        // a worker finds it must refuse a request and starts recording why
    | Record(k: nat, f: Fault, pick: nat)     // one store call of a recorder
    | Take(m: Message)                        // a poller takes up a row as it looked when fetched
    | Poll(k: nat, f: Fault, pick: nat)       // one store call of a poller

  predicate Enabled(w: World, step: Step) {
    match step
    case Submit(req) => Find(w.topic, req.transactionId).None?
    case Open(id, row) => id !in w.accounts && Storable(row) && row.version == 1
    case Apply(id, rowId, _) =>
      Find(w.topic, id).Some? && CanMove(w.accounts, Find(w.topic, id).value)
      && !HasTransaction(w.rows, id) && IndexById(w.rows, rowId).None?
    case Refuse(id) => Find(w.topic, id).Some? && RefusalReason(w.accounts, Find(w.topic, id).value).Some?
    case Record(k, _, _) => k < |w.recorders|
    case Take(m) => SnapshotOf(w.rows, m)
    case Poll(k, _, _) => k < |w.pollers| && CanPoll(w.pollers[k])
  }

  predicate CanMove(accounts: map<Uuid, AccountRow>, req: Request) {
    && WellFormed(req) && req.accountId in accounts
    && Sound(accounts[req.accountId]) && Acceptable(accounts[req.accountId], req)
  }

  predicate CanPoll(p: Poller) {
    p.Completing? || p.Rechecking? || p.Adding? ==> p.m.payload.Decodes?
  }

  /** Some row as it looked when the batch was fetched. */
  predicate SnapshotOf(rows: seq<Message>, m: Message) {
    exists i :: 0 <= i < |rows| && SameRow(rows[i], m)
  }

  predicate SameRow(row: Message, m: Message) {
    m == row.(status := m.status, attempts := m.attempts)
  }

  /** Some entry of the transaction: neither FindOne nor UpdateOne says which. */
  function SomeIndex(l: seq<Entry>, id: Uuid, pick: nat): (r: Option<nat>)
    ensures r.Some? ==> r.value < |l| && l[r.value].transactionId == id
    ensures r.None? <==> EntryIndex(l, id).None?
    ensures Unique(l) ==> r == EntryIndex(l, id)
  {
    if pick < |l| && l[pick].transactionId == id then Some(pick) else EntryIndex(l, id)
  }

  function LookupAny(l: seq<Entry>, id: Uuid, f: Fault, pick: nat): Result<Entry, Error> {
    if !f.NoFault? then Err(ErrStore)
    else match SomeIndex(l, id, pick)
      case None => Err(ErrEntryNotFound(id))
      case Some(i) => Ok(l[i])
  }

  function UpdatedAny(l: seq<Entry>, id: Uuid, status: TransactionStatus, reason: FailureReason, f: Fault, pick: nat)
    : (seq<Entry>, Option<Error>)
  {
    if f.Lost? then (l, Some(ErrStore))
    else match SomeIndex(l, id, pick)
      case None => (l, Some(if f.NoFault? then ErrEntryNotFound(id) else ErrStore))
      case Some(i) => (l[i := Marked(l[i], status, reason)], if f.NoFault? then None else Some(ErrStore))
  }

  /** One store call of RecordFailure: the ledger and the call that comes next. */
  function RecorderCall(l: seq<Entry>, r: Recorder, f: Fault, pick: nat): (seq<Entry>, Recorder) {
    match r
    case Looking(req, reason) =>
      (match LookupAny(l, req.transactionId, f, pick)
       case Ok(e) => (l, if e.status.Failed? then Returned else Overwriting(req, reason))
       case Err(_) => (l, Checking(req, reason)))
    case Overwriting(req, reason) => (UpdatedAny(l, req.transactionId, Failed, reason, f, pick).0, Returned)
    case Checking(req, reason) =>
      (match LookupAny(l, req.transactionId, f, pick)
       case Err(ErrEntryNotFound(_)) => (l, Inserting(req, reason))
       case _ => (l, Returned))
    case Inserting(req, reason) => (if f.Lost? then l else l + [FailedEntry(req, reason)], Returned)
    case Returned => (l, Returned)
  }

  /** One store call of the publisher, or of the bookkeeping after an attempt that failed. */
  function PollerCall(rows: seq<Message>, l: seq<Entry>, p: Poller, maxRetry: int, f: Fault, pick: nat)
    : (r: (seq<Message>, seq<Entry>, Poller))
    requires CanPoll(p)
    ensures CanPoll(r.2)
  {
    match p
    case Done => (rows, l, Done)
    case Reading(m) =>
      (match m.payload
       case Corrupt => (SetStatus(rows, m.id, OutboxFailedToPublish, f).0, l, Counting(m))
       case Decodes(entry) =>
         match LookupAny(l, entry.transactionId, f, pick)
         case Ok(e) => (rows, l, if e.status.Completed? then Marking(m) else Completing(m))
         case Err(ErrEntryNotFound(_)) => (rows, l, Rechecking(m))
         case Err(_) => (rows, l, Counting(m)))
    case Completing(m) =>
      var (l', err) := UpdatedAny(l, m.payload.entry.transactionId, Completed, NoReason, f, pick);
      (rows, l', if err.None? then Marking(m) else Counting(m))
    case Rechecking(m) =>
      (match LookupAny(l, m.payload.entry.transactionId, f, pick)
       case Err(ErrEntryNotFound(_)) => (rows, l, Adding(m))
       case _ => (rows, l, Counting(m)))
    case Adding(m) =>
      (rows, if f.Lost? then l else l + [CompletedEntry(m.payload.entry)], if f.NoFault? then Marking(m)
          else Counting(m))
    case Marking(m) =>
      var (rows', err) := SetStatus(rows, m.id, OutboxProcessed, f);
      (rows', l, if err.None? then Done else Counting(m))
    case Counting(m) =>
      var (rows', err) := AddAttempt(rows, m.id, f);
      (rows', l, if err.None? && m.attempts + 1 >= maxRetry then GivingUp(m) else Done)
    case GivingUp(m) => (SetStatus(rows, m.id, OutboxFailedToPublish, f).0, l, Done)
  }

  function Next(w: World, step: Step, maxRetry: int): World
    requires Enabled(w, step)
  {
    match step
    case Submit(req) => w.(topic := w.topic + [req])
    case Open(id, row) => w.(accounts := w.accounts[id := row])
    case Apply(id, rowId, now) =>
      var req := Find(w.topic, id).value;
      w.(accounts := w.accounts[req.accountId := Moved(w.accounts[req.accountId], req)],
         rows := w.rows + [AppliedRow(req, rowId, now)])
    case Refuse(id) =>
      var req := Find(w.topic, id).value;
      w.(recorders := w.recorders + [Looking(req, RefusalReason(w.accounts, req).value)])
    case Record(k, f, pick) =>
      var (l, r) := RecorderCall(w.ledger, w.recorders[k], f, pick);
      w.(ledger := l, recorders := w.recorders[k := r])
    case Take(m) => w.(pollers := w.pollers + [Reading(m)])
    case Poll(k, f, pick) =>
      var (rows, l, p) := PollerCall(w.rows, w.ledger, w.pollers[k], maxRetry, f, pick);
      w.(rows := rows, ledger := l, pollers := w.pollers[k := p])
  }

  // ---- what survives ----

  predicate Listed(l: seq<Entry>, id: Uuid) {
    EntryIndex(l, id).Some?
  }

  /** What a recorded reason says about the request: read from the account, or from its absence, under the lock. */
  predicate RefusedFor(accounts: map<Uuid, AccountRow>, req: Request, reason: FailureReason) {
    match reason
    case NoReason => false
    case UnknownErrorReason => req.kind.OtherKind?
    case InvalidAmountReason => req.amount <= 0
    case AccountNotFoundReason => true
    case CurrencyMismatch(_, _) => req.accountId in accounts && accounts[req.accountId].currency != req.currency
    case InsufficientFundsReason => req.kind.Withdrawal?
  }

  /** An entry is its request's, COMPLETED only if the money moved, else FAILED with a reason. */
  predicate EntrySound(w: World, e: Entry) {
    && Find(w.topic, e.transactionId).Some?
    && var req := Find(w.topic, e.transactionId).value;
    || (e == CompletedEntry(ProcessingEntry(req)) && HasTransaction(w.rows, req.transactionId))
    || (e == FailedEntry(req, e.failureReason) && RefusedFor(w.accounts, req, e.failureReason))
  }

  /** A row is its request's, in the account's currency; PROCESSED only if the transaction is in the ledger. */
  predicate RowSound(w: World, m: Message) {
    && Find(w.topic, m.transactionId).Some?
    && var req := Find(w.topic, m.transactionId).value;
    && SameRow(AppliedRow(req, m.id, m.createdAt), m)
    && WellFormed(req) && req.accountId in w.accounts && w.accounts[req.accountId].currency == req.currency
    && (m.status.OutboxProcessed? ==> Listed(w.ledger, m.transactionId))
  }

  predicate RecorderSound(w: World, r: Recorder) {
    r.Returned? || (Find(w.topic, r.req.transactionId) == Some(r.req) && RefusedFor(w.accounts, r.req, r.reason))
  }

  predicate PollerSound(w: World, p: Poller) {
    p.Done? || (SnapshotOf(w.rows, p.m) && (p.Marking? ==> Listed(w.ledger, p.m.transactionId)))
  }

  ghost predicate Inv(w: World) {
    && DistinctIds(w.rows)
    && (forall j :: 0 <= j < |w.ledger| ==> EntrySound(w, w.ledger[j]))
    && (forall i :: 0 <= i < |w.rows| ==> RowSound(w, w.rows[i]))
    && (forall k :: 0 <= k < |w.recorders| ==> RecorderSound(w, w.recorders[k]))
    && (forall k :: 0 <= k < |w.pollers| ==> PollerSound(w, w.pollers[k]))
  }

  /** Requests, accounts, rows and entries are never lost; only balances, statuses, counters and outcomes change. */
  ghost predicate Extends(w: World, w': World) {
    && (forall id :: Find(w.topic, id).Some? ==> Find(w'.topic, id) == Find(w.topic, id))
    && (forall a :: a in w.accounts ==> a in w'.accounts && w'.accounts[a].currency == w.accounts[a].currency)
    && |w.rows| <= |w'.rows| && (forall i :: 0 <= i < |w.rows| ==> SameRow(w.rows[i], w'.rows[i]))
    && Grows(w.ledger, w'.ledger)
  }

  // ---- what holds keeps holding as the world extends ----

  /** An extension keeps the invariant if whatever it adds or changes is sound. */
  lemma ExtensionKeeps(w: World, w': World)
    requires Inv(w) && Extends(w, w') && DistinctIds(w'.rows)
    requires forall j :: 0 <= j < |w'.ledger| ==>
        EntrySound(w', w'.ledger[j]) || (j < |w.ledger| && w'.ledger[j] == w.ledger[j])
    requires forall i :: 0 <= i < |w'.rows| ==> RowSound(w', w'.rows[i]) || (i < |w.rows| && w'.rows[i] == w.rows[i])
    requires forall k :: 0 <= k < |w'.recorders| ==>
      RecorderSound(w', w'.recorders[k]) || (k < |w.recorders| && w'.recorders[k] == w.recorders[k])
    requires forall k :: 0 <= k < |w'.pollers| ==>
      PollerSound(w', w'.pollers[k]) || (k < |w.pollers| && w'.pollers[k] == w.pollers[k])
    ensures Inv(w')
  {
  }

  lemma ExtendsTwice(w: World, w1: World, w2: World)
    requires Extends(w, w1) && Extends(w1, w2)
    ensures Extends(w, w2)
  {
  }

  // ---- the steps ----

  lemma AddingKeeps(w: World, step: Step, maxRetry: int)
    requires Inv(w) && Enabled(w, step) && (step.Submit? || step.Open? || step.Refuse? || step.Take?)
    ensures Inv(Next(w, step, maxRetry)) && Extends(w, Next(w, step, maxRetry))
  {
    var w' := Next(w, step, maxRetry);
    if step.Submit? {
      forall id ensures Find(w.topic, id).Some? ==> Find(w'.topic, id) == Find(w.topic, id) {
        FindAppended(w.topic, step.req, id);
      }
    } else if step.Take? {
      assert PollerSound(w', Reading(step.m));
    }
    ExtensionKeeps(w, w');
  }

  lemma ApplyKeepsWorld(w: World, step: Step, maxRetry: int)
    requires Inv(w) && Enabled(w, step) && step.Apply?
    ensures Inv(Next(w, step, maxRetry)) && Extends(w, Next(w, step, maxRetry))
  {
    var w' := Next(w, step, maxRetry);
    assert RowSound(w', w'.rows[|w.rows|]);
    ExtensionKeeps(w, w');
  }

  ghost predicate NewEntriesSound(w: World, w': World) {
    forall j :: 0 <= j < |w'.ledger| ==> EntrySound(w', w'.ledger[j]) || (j < |w.ledger| && w'.ledger[j] == w.ledger[j])
  }

  /** The outcome a call may write into an entry of the transaction. */
  predicate Writable(w: World, id: Uuid, status: TransactionStatus, reason: FailureReason) {
    || (status.Completed? && reason == NoReason && HasTransaction(w.rows, id))
    || (status.Failed? && Find(w.topic, id).Some? && RefusedFor(w.accounts, Find(w.topic, id).value, reason))
  }

  lemma MarkedIsSound(w: World, e: Entry, status: TransactionStatus, reason: FailureReason)
    requires EntrySound(w, e) && Writable(w, e.transactionId, status, reason)
    ensures EntrySound(w, Marked(e, status, reason))
  {
  }

  lemma UpdatedGrows(l: seq<Entry>, id: Uuid, status: TransactionStatus, reason: FailureReason, f: Fault, pick: nat)
    ensures var (l', err) := UpdatedAny(l, id, status, reason, f, pick);
      && Grows(l, l')
      && (forall j :: 0 <= j < |l'| ==>
          l'[j] == l[j] || (l[j].transactionId == id && l'[j] == Marked(l[j], status, reason)))
      && |l'| == |l| && (err.None? ==> Listed(l', id))
  {
    if SomeIndex(l, id, pick).Some? {
      var l' := UpdatedAny(l, id, status, reason, f, pick).0;
      var i := SomeIndex(l, id, pick).value;
      assert l'[i].transactionId == id;
    }
  }

  /** Any status update of a call keeps entries sound, whatever happened since the call looked. */
  lemma UpdateIsSound(w: World, w': World, id: Uuid, status: TransactionStatus, reason: FailureReason,
                      f: Fault, pick: nat)
    requires (forall j :: 0 <= j < |w.ledger| ==> EntrySound(w, w.ledger[j])) && Writable(w, id, status, reason)
    requires w'.topic == w.topic && w'.rows == w.rows && w'.accounts == w.accounts
    requires w'.ledger == UpdatedAny(w.ledger, id, status, reason, f, pick).0
    ensures Extends(w, w') && NewEntriesSound(w, w')
    ensures UpdatedAny(w.ledger, id, status, reason, f, pick).1.None? ==> Listed(w'.ledger, id)
  {
    UpdatedGrows(w.ledger, id, status, reason, f, pick);
    forall j | 0 <= j < |w'.ledger| && w'.ledger[j] != w.ledger[j] ensures EntrySound(w', w'.ledger[j]) {
      MarkedIsSound(w, w.ledger[j], status, reason);
    }
  }

  lemma InsertIsSound(w: World, w': World, e: Entry)
    requires Inv(w) && w'.topic == w.topic && w'.rows == w.rows && w'.accounts == w.accounts
    requires w'.ledger == w.ledger + [e] && EntrySound(w', e)
    ensures Extends(w, w') && NewEntriesSound(w, w') && Listed(w'.ledger, e.transactionId)
  {
    assert w'.ledger[|w.ledger|].transactionId == e.transactionId;
  }

  lemma RecordKeeps(w: World, step: Step, maxRetry: int)
    requires Inv(w) && Enabled(w, step) && step.Record?
    ensures Inv(Next(w, step, maxRetry)) && Extends(w, Next(w, step, maxRetry))
  {
    var w' := Next(w, step, maxRetry);
    var r := w.recorders[step.k];
    assert RecorderSound(w, r) && RecorderSound(w', w'.recorders[step.k]);
    if r.Overwriting? {
      UpdateIsSound(w, w', r.req.transactionId, Failed, r.reason, step.f, step.pick);
    } else if w'.ledger != w.ledger {
      InsertIsSound(w, w', FailedEntry(r.req, r.reason));
    }
    ExtensionKeeps(w, w');
  }

  /** A poller's message belongs to a row and carries its request. */
  lemma MessageIs(w: World, p: Poller) returns (i: nat)
    requires Inv(w) && !p.Done? && PollerSound(w, p)
    ensures i < |w.rows| && SameRow(w.rows[i], p.m) && IndexById(w.rows, p.m.id) == Some(i)
    ensures Find(w.topic, p.m.transactionId).Some?
    ensures p.m.payload == Decodes(ProcessingEntry(Find(w.topic, p.m.transactionId).value))
  {
    i :| 0 <= i < |w.rows| && SameRow(w.rows[i], p.m);
    assert RowSound(w, w.rows[i]);
  }

  /** The calls of the publisher that write the ledger. */
  lemma LedgerPollKeeps(w: World, step: Step, maxRetry: int)
    requires Inv(w) && Enabled(w, step) && step.Poll? && (w.pollers[step.k].Completing? || w.pollers[step.k].Adding?)
    ensures Inv(Next(w, step, maxRetry)) && Extends(w, Next(w, step, maxRetry))
  {
    var w', p := Next(w, step, maxRetry), w.pollers[step.k];
    var row := MessageIs(w, p);
    assert w.rows[row].transactionId == p.m.transactionId && SameRow(w.rows[row], p.m);
    if p.Completing? {
      UpdateIsSound(w, w', p.m.transactionId, Completed, NoReason, step.f, step.pick);
    } else if w'.ledger != w.ledger {
      InsertIsSound(w, w', CompletedEntry(p.m.payload.entry));
    }
    assert PollerSound(w', w'.pollers[step.k]);
    ExtensionKeeps(w, w');
  }

  /** The calls that read the ledger or write the outbox touch one row's status and counter. */
  lemma OutboxCallIs(w: World, p: Poller, maxRetry: int, f: Fault, pick: nat, i: nat)
    requires CanPoll(p) && !p.Completing? && !p.Adding? && !p.Done? && i < |w.rows|
    requires SameRow(w.rows[i], p.m) && IndexById(w.rows, p.m.id) == Some(i)
    requires p.m.payload.Decodes? && p.m.payload.entry.transactionId == p.m.transactionId
    requires p.Marking? ==> Listed(w.ledger, p.m.transactionId)
    ensures var (rows', l', p') := PollerCall(w.rows, w.ledger, p, maxRetry, f, pick);
      && l' == w.ledger && |rows'| == |w.rows| && rows' == w.rows[i := rows'[i]] && SameRow(w.rows[i], rows'[i])
      && (rows'[i].status.OutboxProcessed? ==> w.rows[i].status.OutboxProcessed? || Listed(w.ledger, p.m.transactionId))
      && (!p'.Done? ==> p'.m == p.m)
      && (p'.Marking? ==> Listed(w.ledger, p.m.transactionId))
  {
  }

  lemma OutboxPollKeeps(w: World, step: Step, maxRetry: int)
    requires Inv(w) && Enabled(w, step) && step.Poll? && !w.pollers[step.k].Completing? && !w.pollers[step.k].Adding?
    ensures Inv(Next(w, step, maxRetry)) && Extends(w, Next(w, step, maxRetry))
  {
    var w', p := Next(w, step, maxRetry), w.pollers[step.k];
    if !p.Done? {
      assert PollerSound(w, p);
      var i := MessageIs(w, p);
      OutboxCallIs(w, p, maxRetry, step.f, step.pick, i);
      assert RowSound(w, w.rows[i]);
      assert RowSound(w', w'.rows[i]);
      assert SameRow(w'.rows[i], p.m);
    }
    ExtensionKeeps(w, w');
  }

  lemma NextKeeps(w: World, step: Step, maxRetry: int)
    requires Inv(w) && Enabled(w, step)
    ensures Inv(Next(w, step, maxRetry)) && Extends(w, Next(w, step, maxRetry))
  {
    if step.Record? {
      RecordKeeps(w, step, maxRetry);
    } else if step.Apply? {
      ApplyKeepsWorld(w, step, maxRetry);
    } else if !step.Poll? {
      AddingKeeps(w, step, maxRetry);
    } else if w.pollers[step.k].Completing? || w.pollers[step.k].Adding? {
      LedgerPollKeeps(w, step, maxRetry);
    } else {
      OutboxPollKeeps(w, step, maxRetry);
    }
  }

  function Run(maxRetry: int, steps: seq<Step>): Option<World> {
    if steps == [] then Some(EMPTY_WORLD)
    else match Run(maxRetry, steps[..|steps| - 1])
      case None => None
      case Some(w) =>
        var step := steps[|steps| - 1];
        if Enabled(w, step) then Some(Next(w, step, maxRetry)) else None
  }

  /** In every interleaving: an entry repeats its request and is COMPLETED, beside a row, or
      FAILED for the reason a worker read; a PROCESSED row's transaction is in the ledger;
      row ids and transactions never vanish from either store. */
  lemma {:induction false} OverlapIsSafe(maxRetry: int, steps: seq<Step>, n: nat)
    requires n <= |steps| && Run(maxRetry, steps).Some?
    ensures Inv(Run(maxRetry, steps).value)
    ensures Run(maxRetry, steps[..n]).Some? && Extends(Run(maxRetry, steps[..n]).value, Run(maxRetry, steps).value)
    decreases |steps|
  {
    if steps == [] {
    } else {
      var before := steps[..|steps| - 1];
      var w := Run(maxRetry, before).value;
      OverlapIsSafe(maxRetry, before, if n < |steps| then n else n - 1);
      NextKeeps(w, steps[|steps| - 1], maxRetry);
      if n < |steps| {
        assert before[..n] == steps[..n];
        ExtendsTwice(Run(maxRetry, steps[..n]).value, w, Run(maxRetry, steps).value);
      } else {
        assert steps[..n] == steps;
      }
    }
  }

  /** Only two reasons can stand beside an outbox row. */
  lemma FailedReason(w: World, i: nat, j: nat)
    requires Inv(w) && i < |w.rows| && j < |w.ledger|
    requires w.ledger[j].status.Failed? && w.rows[i].transactionId == w.ledger[j].transactionId
    ensures var e := w.ledger[j];
      e.failureReason == AccountNotFoundReason || (e.kind.Withdrawal? && e.failureReason == InsufficientFundsReason)
  {
    assert EntrySound(w, w.ledger[j]) && RowSound(w, w.rows[i]);
  }

  // ---- calls that do not overlap are the functions of Processing and Publishing ----

  function RecorderFault(r: Recorder, f: RecordFaults): Fault {
    match r
    case Looking(_, _) => f.get
    case Overwriting(_, _) => f.update
    case Checking(_, _) => f.create.check
    case _ => f.create.insert
  }

  function RecorderAlone(l: seq<Entry>, r: Recorder, f: RecordFaults, pick: nat, calls: nat): (seq<Entry>, Recorder)
    decreases calls
  {
    if calls == 0 || r.Returned? then (l, r)
    else
      var (l', r') := RecorderCall(l, r, RecorderFault(r, f), pick);
      RecorderAlone(l', r', f, pick, calls - 1)
  }

  /** Its store calls in a row are RecordFailure. */
  lemma RecorderAloneIsRecorded(l: seq<Entry>, req: Request, reason: FailureReason, f: RecordFaults, pick: nat)
    requires Unique(l)
    ensures RecorderAlone(l, Looking(req, reason), f, pick, 3) == (Recorded(l, req, reason, f).0, Returned)
  {
    var (l1, r1) := RecorderCall(l, Looking(req, reason), f.get, pick);
    if !r1.Returned? {
      var (l2, r2) := RecorderCall(l1, r1, RecorderFault(r1, f), pick);
      assert RecorderAlone(l1, r1, f, pick, 2) == RecorderAlone(l2, r2, f, pick, 1);
    }
  }

  function PollerFault(p: Poller, f: MessageFaults): Fault {
    match p
    case Reading(m) => if m.payload.Corrupt? then f.publish.mark else f.publish.get
    case Completing(_) => f.publish.update
    case Rechecking(_) => f.publish.create.check
    case Adding(_) => f.publish.create.insert
    case Marking(_) => f.publish.mark
    case Counting(_) => f.increment
    case _ => f.giveUp
  }

  function PollerAlone(rows: seq<Message>, l: seq<Entry>, p: Poller, maxRetry: int, f: MessageFaults, pick: nat,
                       calls: nat)
    : (seq<Message>, seq<Entry>, Poller)
    requires CanPoll(p)
    decreases calls
  {
    if calls == 0 || p.Done? then (rows, l, p)
    else
      var (rows', l', p') := PollerCall(rows, l, p, maxRetry, PollerFault(p, f), pick);
      PollerAlone(rows', l', p', maxRetry, f, pick, calls - 1)
  }

  /** The bookkeeping after a failed attempt. */
  lemma CountingAlone(rows: seq<Message>, l: seq<Entry>, m: Message, maxRetry: int, f: MessageFaults, pick: nat,
                      calls: nat)
    requires calls >= 2
    ensures PollerAlone(rows, l, Counting(m), maxRetry, f, pick, calls)
         == (var (rows2, err) := AddAttempt(rows, m.id, f.increment);
             (if err.None? && m.attempts + 1 >= maxRetry then SetStatus(rows2, m.id, OutboxFailedToPublish, f.giveUp).0
                 else rows2,
              l, Done))
  {
    var (rows', l', p) := PollerCall(rows, l, Counting(m), maxRetry, f.increment, pick);
    assert PollerAlone(rows, l, Counting(m), maxRetry, f, pick, calls)
        == PollerAlone(rows', l', p, maxRetry, f, pick, calls - 1);
  }

  lemma MarkingAlone(rows: seq<Message>, l: seq<Entry>, m: Message, maxRetry: int, f: MessageFaults, pick: nat,
                     calls: nat)
    requires calls >= 3
    ensures PollerAlone(rows, l, Marking(m), maxRetry, f, pick, calls)
         == (var (rows2, err) := SetStatus(rows, m.id, OutboxProcessed, f.publish.mark);
             if err.None? then (rows2, l, Done) else PollerAlone(rows2, l, Counting(m), maxRetry, f, pick, calls - 1))
  {
  }

  /** The ledger part of an attempt: where it leads and with what ledger. */
  lemma WritingAlone(rows: seq<Message>, l: seq<Entry>, m: Message, maxRetry: int, f: MessageFaults,
                     pick: nat) returns (calls: nat)
    requires Unique(l) && m.payload.Decodes?
    ensures calls >= 3
    ensures var (l', err) := LedgerWritten(l, m.payload.entry, f.publish);
      PollerAlone(rows, l, Reading(m), maxRetry, f, pick, 6)
        == PollerAlone(rows, l', if err.None? then Marking(m) else Counting(m), maxRetry, f, pick, calls)
  {
    var (_, l1, p1) := PollerCall(rows, l, Reading(m), maxRetry, f.publish.get, pick);
    calls := 5;
    if p1.Completing? || p1.Rechecking? {
      var (_, l2, p2) := PollerCall(rows, l1, p1, maxRetry, PollerFault(p1, f), pick);
      assert PollerAlone(rows, l1, p1, maxRetry, f, pick, 5) == PollerAlone(rows, l2, p2, maxRetry, f, pick, 4);
      calls := 4;
      if p2.Adding? {
        var (_, l3, p3) := PollerCall(rows, l2, p2, maxRetry, PollerFault(p2, f), pick);
        assert PollerAlone(rows, l2, p2, maxRetry, f, pick, 4) == PollerAlone(rows, l3, p3, maxRetry, f, pick, 3);
        calls := 3;
      }
    }
  }

  /** Its store calls in a row are one turn of the batch loop. */
  lemma PollerAloneIsHandled(rows: seq<Message>, l: seq<Entry>, m: Message, maxRetry: int, f: MessageFaults, pick: nat)
    requires Unique(l)
    ensures var (rows', l') := Handled(rows, l, m, maxRetry, f);
      PollerAlone(rows, l, Reading(m), maxRetry, f, pick, 6) == (rows', l', Done)
  {
    if m.payload.Corrupt? {
      var (rows1, l1, p1) := PollerCall(rows, l, Reading(m), maxRetry, f.publish.mark, pick);
      assert PollerAlone(rows, l, Reading(m), maxRetry, f, pick, 6) == PollerAlone(rows1, l1, p1, maxRetry, f, pick, 5);
      CountingAlone(rows1, l, m, maxRetry, f, pick, 5);
    } else {
      var (l1, err) := LedgerWritten(l, m.payload.entry, f.publish);
      var calls := WritingAlone(rows, l, m, maxRetry, f, pick);
      if err.Some? {
        CountingAlone(rows, l1, m, maxRetry, f, pick, calls);
      } else {
        var (rows2, err2) := SetStatus(rows, m.id, OutboxProcessed, f.publish.mark);
        MarkingAlone(rows, l1, m, maxRetry, f, pick, calls);
        CountingAlone(rows2, l1, m, maxRetry, f, pick, calls - 1);
      }
    }
  }
}
