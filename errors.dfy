/**
 * The error kinds of the endpoint finder (src/error.rs) and the two
 * classification predicates callers use to decide on retries.
 */
module Errors {
  /** Each variant keeps its message; the wrapped library errors are reduced to their text. */
  datatype Error =
    | HttpError(msg: string)
    | IoError(msg: string)
    | JsonError(msg: string)
    | YamlError(msg: string)
    | XmlError(msg: string)
    | UrlParseError(msg: string)
    | ValidationError(msg: string)
    | ParserError(msg: string)
    | RateLimitError
    | TimeoutError
    | TlsError(msg: string)
    | EncodingError(msg: string)
    | PluginError(msg: string)
    | RobotsTxtError(msg: string)
    | Other(msg: string)

  /** `Error::is_recoverable` */
  predicate IsRecoverable(e: Error) {
    match e
    case HttpError(_) => true
    case TimeoutError => true
    case RateLimitError => true
    case _ => false
  }

  /** `Error::is_network_error` */
  predicate IsNetworkError(e: Error) {
    match e
    case HttpError(_) => true
    case TimeoutError => true
    case TlsError(_) => true
    case _ => false
  }

  /** The two predicates agree on HTTP and timeout errors and differ on rate limits and TLS. */
  lemma ClassificationDiffers(m: string)
    ensures IsRecoverable(RateLimitError) && !IsNetworkError(RateLimitError)
    ensures IsNetworkError(TlsError(m)) && !IsRecoverable(TlsError(m))
    ensures IsRecoverable(HttpError(m)) && IsNetworkError(HttpError(m))
    ensures IsRecoverable(TimeoutError) && IsNetworkError(TimeoutError)
  {
  }

  /** Exactly four variants are classified at all; the rest satisfy neither predicate. */
  lemma ClassifiedVariants(e: Error)
    ensures (IsRecoverable(e) || IsNetworkError(e)) <==>
      (e.HttpError? || e.TimeoutError? || e.RateLimitError? || e.TlsError?)
    ensures IsRecoverable(e) && IsNetworkError(e) <==> e.HttpError? || e.TimeoutError?
  {
  }
}
