/** The Mongo ledger collection: no unique index, so a list of documents in natural order
    (internal/data/mongo/ledger_repository.go). */
module LedgerStore {
  import opened Shared
  import opened Domain

  function EntryIndex(l: seq<Entry>, id: Uuid): (r: Option<nat>)
    ensures r.Some? ==> r.value < |l| && l[r.value].transactionId == id
    ensures r.Some? ==> forall j :: 0 <= j < r.value ==> l[j].transactionId != id
    ensures r.None? ==> forall j :: 0 <= j < |l| ==> l[j].transactionId != id
  {
    if l == [] then None
    else if l[0].transactionId == id then Some(0)
    else match EntryIndex(l[1..], id)
      case None => None
      case Some(i) => Some(i + 1)
  }

  function KeyIndex(l: seq<Entry>, key: string): (r: Option<nat>)
    ensures r.Some? ==> r.value < |l| && l[r.value].idempotencyKey == key
    ensures r.None? ==> forall j :: 0 <= j < |l| ==> l[j].idempotencyKey != key
  {
    if l == [] then None
    else if l[0].idempotencyKey == key then Some(0)
    else match KeyIndex(l[1..], key)
      case None => None
      case Some(i) => Some(i + 1)
  }

  /** Some entry with the key: the query asks for one without an order, so pick chooses among them. */
  function FindKey(l: seq<Entry>, key: string, pick: nat): (r: Option<nat>)
    ensures r.Some? ==> r.value < |l| && l[r.value].idempotencyKey == key
    ensures r.None? ==> forall j :: 0 <= j < |l| ==> l[j].idempotencyKey != key
    ensures pick < |l| && l[pick].idempotencyKey == key ==> r == Some(pick)
  {
    if pick < |l| && l[pick].idempotencyKey == key then Some(pick) else KeyIndex(l, key)
  }

  function Lookup(l: seq<Entry>, id: Uuid, f: Fault): Result<Entry, Error> {
    if !f.NoFault? then Err(ErrStore)
    else match EntryIndex(l, id)
      case None => Err(ErrEntryNotFound(id))
      case Some(i) => Ok(l[i])
  }

  datatype CreateFaults = CreateFaults(check: Fault, insert: Fault)

  /** Create: look the transaction up, then insert. */
  function Created(l: seq<Entry>, e: Entry, f: CreateFaults): (seq<Entry>, Option<Error>) {
    match Lookup(l, e.transactionId, f.check)
    case Ok(_) => (l, Some(ErrDuplicateEntry(e.transactionId)))
    case Err(ErrEntryNotFound(_)) =>
      if f.insert.Lost? then (l, Some(ErrStore))
      else (l + [e], if f.insert.NoFault? then None else Some(ErrStore))
    case Err(_) => (l, Some(ErrStore))
  }

  function Marked(e: Entry, status: TransactionStatus, reason: FailureReason): Entry {
    e.(status := status, failureReason := reason, processed := true)
  }

  function StatusUpdated(l: seq<Entry>, id: Uuid, status: TransactionStatus, reason: FailureReason, f: Fault)
    : (seq<Entry>, Option<Error>)
  {
    if f.Lost? then (l, Some(ErrStore))
    else match EntryIndex(l, id)
      case None => (l, Some(if f.NoFault? then ErrEntryNotFound(id) else ErrStore))
      case Some(i) => (l[i := Marked(l[i], status, reason)], if f.NoFault? then None else Some(ErrStore))
  }

  predicate Unique(l: seq<Entry>) {
    forall i, j :: 0 <= i < j < |l| ==> l[i].transactionId != l[j].transactionId
  }

  /** Entries are never removed or moved, and only their outcome changes. */
  ghost predicate Grows(l: seq<Entry>, l': seq<Entry>) {
    && |l| <= |l'|
    && forall i :: 0 <= i < |l| ==>
         l'[i].(status := l[i].status, failureReason := l[i].failureReason, processed := l[i].processed) == l[i]
  }

  /** Whatever happens, checked creation and status updates never make a second entry for a transaction. */
  lemma CreateKeepsUnique(l: seq<Entry>, e: Entry, f: CreateFaults)
    requires Unique(l)
    ensures Unique(Created(l, e, f).0) && Grows(l, Created(l, e, f).0)
    ensures Created(l, e, f).0 == l || (EntryIndex(l, e.transactionId).None? && Created(l, e, f).0 == l + [e])
    ensures Created(l, e, f).1.None? <==> EntryIndex(l, e.transactionId).None? && f == CreateFaults(NoFault, NoFault)
    ensures Created(l, e, f).1.None? ==> Created(l, e, f).0 == l + [e]
    ensures Created(l, e, f).0 == l + [e] <==>
      EntryIndex(l, e.transactionId).None? && f.check.NoFault? && !f.insert.Lost?
    ensures Created(l, e, f).1 == Some(ErrDuplicateEntry(e.transactionId)) <==>
      f.check.NoFault? && exists j :: 0 <= j < |l| && l[j].transactionId == e.transactionId
    ensures Created(l, e, f).1.Some? ==> Created(l, e, f).1.value in {ErrDuplicateEntry(e.transactionId), ErrStore}
  {
  }

  class LedgerRepository {
    var entries: seq<Entry>

    constructor ()
      ensures entries == []
    {
      entries := [];
    }

    method GetByTransactionID(id: Uuid, f: Fault) returns (r: Result<Entry, Error>)
      ensures r == Lookup(entries, id, f)
      ensures r.Ok? ==> f.NoFault? && r.value in entries && r.value.transactionId == id
      ensures r == Err(ErrEntryNotFound(id)) <==>
        f.NoFault? && forall j :: 0 <= j < |entries| ==> entries[j].transactionId != id
      ensures r.Err? ==> r.error == if f.NoFault? then ErrEntryNotFound(id) else ErrStore
    {
      r := Lookup(entries, id, f);
    }

    /** An empty key is refused; otherwise some entry with the key, or none when there is none. */
    method GetByIdempotencyKey(key: string, pick: nat, f: Fault) returns (r: Result<Option<Entry>, Error>)
      ensures key == "" ==> r == Err(ErrEmptyKey)
      ensures key != "" && !f.NoFault? ==> r == Err(ErrStore)
      ensures key != "" && f.NoFault? ==>
        match FindKey(entries, key, pick)
        case None => r == Ok(None)
        case Some(i) => r == Ok(Some(entries[i]))
      ensures r.Ok? && r.value.Some? ==> r.value.value in entries && r.value.value.idempotencyKey == key
      ensures r == Ok(None) <==>
        key != "" && f.NoFault? && forall j :: 0 <= j < |entries| ==> entries[j].idempotencyKey != key
    {
      if key == "" {
        return Err(ErrEmptyKey);
      }
      if !f.NoFault? {
        return Err(ErrStore);
      }
      match FindKey(entries, key, pick)
      case None => return Ok(None);
      case Some(i) => return Ok(Some(entries[i]));
    }

    method Create(e: Entry, f: CreateFaults) returns (err: Option<Error>)
      modifies this
      ensures (entries, err) == Created(old(entries), e, f)
    {
      var existing := GetByTransactionID(e.transactionId, f.check);
      if existing.Err? && !existing.error.ErrEntryNotFound? {
        return Some(ErrStore);
      }
      if existing.Ok? {
        return Some(ErrDuplicateEntry(e.transactionId));
      }
      if f.insert.Lost? {
        return Some(ErrStore);
      }
      entries := entries + [e];
      return if f.insert.NoFault? then None else Some(ErrStore);
    }

    method UpdateStatus(id: Uuid, status: TransactionStatus, reason: FailureReason,
                        f: Fault) returns (err: Option<Error>)
      modifies this
      ensures (entries, err) == StatusUpdated(old(entries), id, status, reason, f)
      ensures err.None? <==> f.NoFault? && exists j :: 0 <= j < |old(entries)| && old(entries)[j].transactionId == id
      ensures err.Some? ==> err.value == if f.NoFault? then ErrEntryNotFound(id) else ErrStore
      ensures |entries| == |old(entries)|
      ensures Unique(old(entries)) ==>
        forall j :: 0 <= j < |entries| ==>
          var e := old(entries)[j];
          entries[j] == if e.transactionId == id && !f.Lost?
                        then e.(status := status, failureReason := reason, processed := true) else e
    {
      var (l, e) := StatusUpdated(entries, id, status, reason, f);
      entries := l;
      return e;
    }
  }
}
