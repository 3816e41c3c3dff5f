/** Values shared by every part of the bookkeeping engine: optional values, the
    money pair the engine passes around, weak references to other models, and the
    error kinds the engine raises. */
module Common {

  datatype Option<+T> = None | Some(value: T) {
    function GetOr(default: T): T {
      match this
      case Some(v) => v
      case None => default
    }
  }

  /** Identifier types. Universally unique identifiers are opaque strings here;
      journals and ledgers use the store's integer keys. Timestamps are integers
      (seconds on one clock). */
  type Uuid = string
  type JournalId = int
  type LedgerId = int
  type Timestamp = int

  /** An amount in minor units (cents) tagged with a currency code. */
  datatype Money = Money(amount: int, currency: string)

  /** A weak reference to a model of the surrounding application: its class name
      and its integer key. The engine records it but never loads it. */
  datatype ModelRef = ModelRef(cls: string, id: int)

  /** The exceptions of the engine, one variant per exception class. */
  datatype Error =
    | InvalidJournalMethod
    | InvalidJournalEntryValue
    | DebitsAndCreditsDoNotEqual(credits: int, debits: int)
    | TransactionCouldNotBeProcessed(message: string)
    | JournalAlreadyExists
    | ReferenceResolutionFailure(refClass: string)

  datatype Result<+T> = Ok(value: T) | Err(error: Error)

  /** The outcome of an operation that returns nothing when it succeeds. */
  datatype Outcome = Pass | Fail(error: Error)

  /** The text the staging classes wrap a failed commit's cause in. */
  const RollbackPrefix: string := "Rolling Back Database. Message: "
}
