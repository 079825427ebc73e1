/** The values that travel through the pipeline: requests, ledger entries and outbox messages. */
module Domain {
  import opened Shared

  datatype Kind = Deposit | Withdrawal | OtherKind(name: string)

  datatype TransactionStatus = Pending | Processing | Completed | Failed

  datatype OutboxStatus = OutboxPending | OutboxProcessed | OutboxFailedToPublish

  datatype FailureReason =
    | NoReason
    | AccountNotFoundReason
    | CurrencyMismatch(requestCurrency: string, accountCurrency: string)
    | InsufficientFundsReason
    | InvalidAmountReason
    | UnknownErrorReason

  datatype Error =
    | ErrInvalidTransactionType
    | ErrAmountNotPositive
    | ErrInvalidAmount
    | ErrInsufficientFunds
    | ErrInvalidCurrency
    | ErrEmptyOwnerName
    | ErrInvalidCurrencyFormat
    | ErrAccountNotFound(account: Uuid)
    | ErrConcurrentModification(account: Uuid)
    | ErrEntryNotFound(transaction: Uuid)
    | ErrDuplicateEntry(transaction: Uuid)
    | ErrMessageNotFound(message: int)
    | ErrEmptyKey
    | ErrPayload
    | ErrStore  // any driver error: lost connection, constraint violation, encoding

  datatype Request = Request(
    transactionId: Uuid, accountId: Uuid, kind: Kind, amount: int64, currency: string,
    idempotencyKey: string, correlationId: string, timestamp: int)

  /** ProcessedAt is kept as the fact that it is set; clock values are not modelled. */
  datatype Entry = Entry(
    transactionId: Uuid, accountId: Uuid, kind: Kind, amount: int64, currency: string,
    idempotencyKey: string, correlationId: string, status: TransactionStatus,
    failureReason: FailureReason, createdAt: int, processed: bool)

  /** The JSON bytes of an outbox row: they decode to an entry or they do not. */
  datatype Payload = Decodes(entry: Entry) | Corrupt

  datatype Message = Message(
    id: int, transactionId: Uuid, accountId: Uuid, payload: Payload,
    status: OutboxStatus, attempts: int, createdAt: int)

  function NewMessage(entry: Entry, now: int): (m: Message)
    ensures m.transactionId == entry.transactionId && m.accountId == entry.accountId && m.createdAt == now
    ensures m.status.OutboxPending? && m.attempts == 0 && m.payload == Decodes(entry)
  {
    Message(0, entry.transactionId, entry.accountId, Decodes(entry), OutboxPending, 0, now)
  }

  /** The ledger entry the outbox manager builds from a request. */
  function ProcessingEntry(req: Request): (e: Entry)
    ensures Faithful(e, req) && e.status.Processing? && e.failureReason == NoReason && !e.processed
  {
    Entry(req.transactionId, req.accountId, req.kind, req.amount, req.currency,
          req.idempotencyKey, req.correlationId, Processing, NoReason, req.timestamp, false)
  }

  /** The ledger entry the failure recorder builds from a request. */
  function FailedEntry(req: Request, reason: FailureReason): (e: Entry)
    ensures Faithful(e, req) && e.status.Failed? && e.failureReason == reason && e.processed
  {
    Entry(req.transactionId, req.accountId, req.kind, req.amount, req.currency,
          req.idempotencyKey, req.correlationId, Failed, reason, req.timestamp, true)
  }

  /** An entry that repeats every field the request supplied. */
  predicate Faithful(e: Entry, req: Request) {
    && e.transactionId == req.transactionId && e.accountId == req.accountId
    && e.kind == req.kind && e.amount == req.amount && e.currency == req.currency
    && e.idempotencyKey == req.idempotencyKey && e.correlationId == req.correlationId
    && e.createdAt == req.timestamp
  }

  /** Money moved by an operation: positive for a deposit, negative for a withdrawal. */
  function Signed(kind: Kind, amount: int): int {
    match kind
    case Deposit => amount
    case Withdrawal => -amount
    case OtherKind(_) => 0
  }

  /** Requests that pass TransactionValidator.Validate. */
  predicate WellFormed(req: Request) {
    !req.kind.OtherKind? && req.amount > 0
  }
}
