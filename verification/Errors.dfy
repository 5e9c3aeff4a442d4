/** The error type of the core, the body sent for it and the body cached for it. */
module Errors {
  import opened Common

  /** The values of the `error_class` field. */
  datatype ErrorClass =
    | BAD_REQUEST | CONFLICT | PAYLOAD_TOO_LARGE | UNSUPPORTED_MEDIA_TYPE | RATE_LIMITED | SERVICE_UNAVAILABLE
    | INVALID_TARGET | INVALID_ARGS | INVALID_METHOD | INVALID_MAGNITUDE | INVALID_FIELD | MISSING_FIELD
    | UNKNOWN_ACTION | UNKNOWN_INTENT | ENCODING_ERROR | REDIRECT_ERROR

  /** Human-readable messages: free text, or one of the fixed forms the model builds itself. */
  datatype Message =
    | Text(text: string)
    | MagnitudeRange(given: nat)
    | ActionNotMapped(action: string)
    | InvalidJson(detail: string)
    | PayloadExceedsLimit
    | ExpectedJson
    | RateExceeded
    | DisplayOf(error: AmaError)

  datatype AmaError =
    | BadRequest(message: Message)
    | Impossible
    | Validation(errorClass: ErrorClass, message: Message)
    | Conflict(message: Message)
    | PayloadTooLarge
    | UnsupportedMediaType
    | RateLimited
    | ServiceUnavailable(message: Message)

  datatype StatusWord = ERROR | IMPOSSIBLE | AUTHORIZED

  /** The JSON documents the handler builds; an absent `error_class` is `None`. */
  datatype Json =
    | Denial
    | Problem(status: StatusWord, errorClass: Option<ErrorClass>, message: Message)
    | Success(dryRun: bool, result: string)

  /** Status code and body of the response built from an error. */
  function HttpStatusAndBody(e: AmaError): (nat, Json) {
    match e
    case Impossible => (403, Denial)
    case BadRequest(message) => (400, ErrorBody(BAD_REQUEST, message))
    case Validation(errorClass, message) => (422, ErrorBody(errorClass, message))
    case Conflict(message) => (409, ErrorBody(CONFLICT, message))
    case PayloadTooLarge => (413, ErrorBody(PAYLOAD_TOO_LARGE, PayloadExceedsLimit))
    case UnsupportedMediaType => (415, ErrorBody(UNSUPPORTED_MEDIA_TYPE, ExpectedJson))
    case RateLimited => (429, ErrorBody(RATE_LIMITED, RateExceeded))
    case ServiceUnavailable(message) => (503, ErrorBody(SERVICE_UNAVAILABLE, message))
  }

  function ErrorBody(errorClass: ErrorClass, message: Message): Json {
    Problem(ERROR, Some(errorClass), message)
  }

  /** The document the handler commits to the idempotency cache for an error. */
  function CachedBody(e: AmaError): Json {
    match e
    case Impossible => Denial
    case BadRequest(message) => ErrorBody(BAD_REQUEST, message)
    case Validation(errorClass, message) => ErrorBody(errorClass, message)
    case ServiceUnavailable(message) => ErrorBody(SERVICE_UNAVAILABLE, message)
    case _ => Problem(ERROR, None, DisplayOf(e))
  }

  /** The status code tells the error apart: its own for each constructor, 5xx only for unavailability. */
  lemma StatusCodes(e: AmaError)
    ensures var code := HttpStatusAndBody(e).0;
            && (code == 400 <==> e.BadRequest?) && (code == 403 <==> e.Impossible?)
            && (code == 409 <==> e.Conflict?) && (code == 413 <==> e.PayloadTooLarge?)
            && (code == 415 <==> e.UnsupportedMediaType?) && (code == 422 <==> e.Validation?)
            && (code == 429 <==> e.RateLimited?) && (code == 503 <==> e.ServiceUnavailable?)
  {
  }

  /** Only a denial says nothing; every other error is a problem of its own class. */
  lemma SentDocuments(e: AmaError)
    ensures var doc := HttpStatusAndBody(e).1;
            && (e.Impossible? <==> doc == Denial)
            && (!e.Impossible? ==> doc.Problem? && doc.status == ERROR)
            && (e.Validation? ==> doc.errorClass == Some(e.errorClass) && doc.message == e.message)
            && (e.BadRequest? ==> doc.errorClass == Some(BAD_REQUEST) && doc.message == e.message)
            && (e.Conflict? ==> doc.errorClass == Some(CONFLICT) && doc.message == e.message)
            && (e.ServiceUnavailable? ==> doc.errorClass == Some(SERVICE_UNAVAILABLE) && doc.message == e.message)
            && (e.PayloadTooLarge? ==> doc.errorClass == Some(ErrorClass.PAYLOAD_TOO_LARGE))
            && (e.UnsupportedMediaType? ==> doc.errorClass == Some(UNSUPPORTED_MEDIA_TYPE))
            && (e.RateLimited? ==> doc.errorClass == Some(RATE_LIMITED))
  {
  }

  /** Errors whose constructor the caching code spells out. */
  predicate Replayable(e: AmaError) {
    e.Impossible? || e.BadRequest? || e.Validation? || e.ServiceUnavailable?
  }

  /** The catch-all arm drops the error class: what is cached equals what is sent exactly for the replayable errors. */
  lemma CachedEqualsSent(e: AmaError)
    ensures CachedBody(e) == HttpStatusAndBody(e).1 <==> Replayable(e)
  {
  }
}
