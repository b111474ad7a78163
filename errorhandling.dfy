/** The shared error-handling utility: standard error records, and the
    way `displayError` and `logError` accept either a record or a plain
    message. The clock is a parameter (`now`, the ISO timestamp string);
    the console is reduced to the record it would print. */
module ErrorHandling {
  import opened Wrappers

  /** `ErrorType`. */
  const Network := "network"
  const ValidationType := "validation"
  const Api := "api"
  const Unknown := "unknown"

  /** A JavaScript `Error` object, reduced to what a record keeps of it. */
  datatype JsError = JsError(message: string, stack: string)

  /** `{ message, stack }` copied from the original error. */
  datatype ErrorSummary = ErrorSummary(message: string, stack: string)

  /** The record `createError` builds. */
  datatype ErrorRecord = ErrorRecord(message: string, kind: string, timestamp: string, originalError: Option<ErrorSummary>)

  /** `createError(message, type = UNKNOWN, originalError = null)`;
      `kind` is `None` when the caller leaves the type out. */
  function CreateError(message: string, kind: Option<string>, originalError: Option<JsError>, now: string): (r: ErrorRecord)
    ensures r.message == message && r.timestamp == now
    ensures kind.None? ==> r.kind == Unknown
    ensures kind.Some? ==> r.kind == kind.value
    ensures r.originalError.None? <==> originalError.None?
    ensures originalError.Some? ==>
      r.originalError.value.message == originalError.value.message && r.originalError.value.stack == originalError.value.stack
  {
    ErrorRecord(
      message,
      kind.GetOr(Unknown),
      now,
      match originalError
      case None => None
      case Some(e) => Some(ErrorSummary(e.message, e.stack)))
  }

  /** What `displayError` and `logError` accept: a message or a record. */
  datatype ErrorArg = Text(text: string) | Record(record: ErrorRecord)

  /** A string argument becomes an `UNKNOWN` record; a record is used as is. */
  function Normalize(arg: ErrorArg, now: string): (r: ErrorRecord)
    ensures arg.Record? ==> r == arg.record
    ensures arg.Text? ==> r.message == arg.text && r.kind == Unknown && r.originalError.None?
  {
    match arg
    case Text(s) => CreateError(s, None, None, now)
    case Record(e) => e
  }

  /** Normalising is idempotent: a normalised record normalises to itself,
      and a message normalises as `createError` would build it. */
  lemma NormalizeIdempotent(arg: ErrorArg, now: string, later: string)
    ensures Normalize(Record(Normalize(arg, now)), later) == Normalize(arg, now)
    ensures arg.Text? ==> Normalize(arg, now) == CreateError(arg.text, Some(Unknown), None, now)
  {
  }

  const DefaultMessage := "Une erreur est survenue"

  /** The text of the message element: the record's message, or the
      default when it is empty. */
  function DisplayText(e: ErrorRecord): (r: string)
    ensures r != []
    ensures e.message != [] ==> r == e.message
  {
    if e.message != [] then e.message else DefaultMessage
  }

  /** What reaches the console: the raw argument when there is no
      container, otherwise the normalised record. */
  datatype ConsoleEntry = ContainerMissing(arg: ErrorArg) | ErrorLogged(record: ErrorRecord)

  /** `logError(error)`. */
  function LogError(arg: ErrorArg, now: string): (r: ConsoleEntry)
    ensures r.ErrorLogged? && r.record == Normalize(arg, now)
  {
    ErrorLogged(Normalize(arg, now))
  }

  /** An error container: the texts of its message elements and whether it
      carries the `hidden` class. */
  class Container {
    var messages: seq<string>
    var hidden: bool

    constructor(messages: seq<string>, hidden: bool)
      ensures this.messages == messages && this.hidden == hidden
    {
      this.messages := messages;
      this.hidden := hidden;
    }
  }

  /** `displayError(error, container)`: without a container only the raw
      argument is logged; otherwise the container holds exactly one message
      with the record's text, it is shown, and the record is logged. */
  method DisplayError(arg: ErrorArg, container: Container?, now: string) returns (logged: ConsoleEntry)
    modifies container
    ensures container == null ==> logged == ContainerMissing(arg)
    ensures container != null ==>
      container.messages == [DisplayText(Normalize(arg, now))] && !container.hidden &&
      logged == LogError(arg, now)
  {
    if container == null {
      return ContainerMissing(arg);
    }
    var errorObj := Normalize(arg, now);
    container.messages := [DisplayText(errorObj)];
    if container.hidden {
      container.hidden := false;
    }
    logged := LogError(Record(errorObj), now);
  }
}
