/** Submitting a transaction: idempotency-key lookup in the ledger, then publish to the topic
    (internal/api_gateway/service/transaction_service.go). */
module Gateway {
  import opened Shared
  import opened Domain
  import opened LedgerStore

  class Topic {
    var messages: seq<Request>

    constructor ()
      ensures messages == []
    {
      messages := [];
    }

    method Publish(req: Request, f: Fault) returns (err: Option<Error>)
      modifies this
      ensures messages == if f.Lost? then old(messages) else old(messages) + [req]
      ensures err.None? <==> f.NoFault?
      ensures err.Some? ==> err.value == ErrStore
    {
      if f.Lost? {
        return Some(ErrStore);
      }
      messages := messages + [req];
      return if f.NoFault? then None else Some(ErrStore);
    }
  }

  /** pick chooses the document the key lookup returns. */
  datatype SubmitFaults = SubmitFaults(find: Fault, publish: Fault, pick: nat)

  /** The transaction id returned to the client and the existing entry, if any. */
  datatype Receipt = Receipt(transactionId: Uuid, existing: Option<Entry>)

  function Submitted(l: seq<Entry>, topic: seq<Request>, req: Request, f: SubmitFaults)
    : (seq<Request>, Result<Receipt, Error>)
  {
    var published := if f.publish.Lost? then topic else topic + [req];
    var receipt := if f.publish.NoFault? then Ok(Receipt(req.transactionId, None)) else Err(ErrStore);
    if req.idempotencyKey == "" then (published, receipt)
    else if !f.find.NoFault? then (topic, Err(ErrStore))
    else match FindKey(l, req.idempotencyKey, f.pick)
      case Some(i) => (topic, Ok(Receipt(l[i].transactionId, Some(l[i]))))
      case None => (published, receipt)
  }

  method CreateTransaction(ledger: LedgerRepository, topic: Topic, req: Request, f: SubmitFaults)
    returns (r: Result<Receipt, Error>)
    modifies topic
    ensures (topic.messages, r) == Submitted(ledger.entries, old(topic.messages), req, f)
    ensures r.Ok? && r.value.existing.None? ==>
      topic.messages == old(topic.messages) + [req] && r.value.transactionId == req.transactionId
  {
    if req.idempotencyKey != "" {
      var found := ledger.GetByIdempotencyKey(req.idempotencyKey, f.pick, f.find);
      if found.Err? {
        return Err(found.error);
      }
      if found.value.Some? {
        var existingEntry := found.value.value;
        return Ok(Receipt(existingEntry.transactionId, Some(existingEntry)));
      }
    }
    var err := topic.Publish(req, f.publish);
    if err.Some? {
      return Err(err.value);
    }
    return Ok(Receipt(req.transactionId, None));
  }

  predicate Carries(l: seq<Entry>, key: string) {
    exists i :: 0 <= i < |l| && l[i].idempotencyKey == key
  }

  /** Once the key is in the ledger nothing is published for it and the answer names an entry that carries it. */
  lemma CarriedKeyIsAnswered(l: seq<Entry>, topic: seq<Request>, req: Request, f: SubmitFaults)
    requires req.idempotencyKey != "" && Carries(l, req.idempotencyKey)
    ensures var (topic', r) := Submitted(l, topic, req, f);
      && topic' == topic
      && (r.Ok? <==> f.find.NoFault?)
      && (r.Ok? ==>
            && r.value.existing.Some? && r.value.existing.value in l
            && r.value.existing.value.idempotencyKey == req.idempotencyKey
            && r.value.transactionId == r.value.existing.value.transactionId)
  {
  }

  /** The lookup of a submission's key works, or there is no key to look up. */
  predicate LookupWorks(req: Request, f: SubmitFaults) {
    req.idempotencyKey == "" || f.find.NoFault?
  }

  /** A submission is answered exactly when its key is found in the ledger, or is not and the
      request reached the topic without an error; a client told of a new transaction can
      count on the topic, and in every other case gets an error. */
  lemma AnsweredIff(l: seq<Entry>, topic: seq<Request>, req: Request, f: SubmitFaults)
    ensures var (topic', r) := Submitted(l, topic, req, f);
      var carried := req.idempotencyKey != "" && Carries(l, req.idempotencyKey);
      && (r.Ok? <==> LookupWorks(req, f) && (carried || f.publish.NoFault?))
      && (r.Ok? && r.value.existing.None? <==> LookupWorks(req, f) && !carried && f.publish.NoFault?)
      && (r.Ok? && r.value.existing.None? ==> topic' == topic + [req] && r.value.transactionId == req.transactionId)
      && (r.Ok? && r.value.existing.Some? ==>
            && topic' == topic && r.value.existing.value in l
            && r.value.existing.value.idempotencyKey == req.idempotencyKey
            && r.value.transactionId == r.value.existing.value.transactionId)
      && (r.Err? ==> r.error == ErrStore)
  {
  }

  /** A submission is published exactly when the topic takes it and no ledger entry is
      known to carry its key; a key still in flight is not in the ledger yet. */
  lemma PublishesIff(l: seq<Entry>, topic: seq<Request>, req: Request, f: SubmitFaults)
    ensures var topic' := Submitted(l, topic, req, f).0;
      && (topic' == topic + [req] <==>
            !f.publish.Lost? && (req.idempotencyKey == "" || (f.find.NoFault? && !Carries(l, req.idempotencyKey))))
      && (topic' == topic || topic' == topic + [req])
      && (topic' == topic + [req] ==>
            Submitted(l, topic, req, f).1 == if f.publish.NoFault? then Ok(Receipt(req.transactionId, None))
                else Err(ErrStore))
  {
  }
}
