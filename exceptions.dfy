/**
 * The SDK's error values: a code, a user-facing message and the underlying
 * error text. Formatting with arguments happens before these constructors
 * (their message is the formatted text); stack capture is not modelled.
 */
module Exceptions {
  import opened Wrappers

  const ErrCodeFunctionError := "k_cf_ec_100001"
  const ErrCodeValidationError := "k_cf_ec_100002"
  const ErrCodeDeveloperError := "k_cf_ec_400001783"
  const ErrCodeInternalError := "k_cf_ec_200001"

  datatype BaseError = BaseError(code: string, message: string, cause: string)

  /** A Go error value: one of ours, or any other error with its Error() text. */
  datatype Error = Base(base: BaseError) | Plain(text: string)

  /** BaseError.Error(); a nil receiver gives "". */
  function ErrorString(e: Option<BaseError>): (r: string)
    ensures e.None? ==> r == ""
    ensures e.Some? ==> r == e.value.message + " [" + e.value.code + "]"
  {
    match e
    case None => ""
    case Some(b) => b.message + " [" + b.code + "]"
  }

  /** err.Error() of any error. */
  function Text(e: Error): string {
    match e
    case Base(b) => ErrorString(Some(b))
    case Plain(t) => t
  }

  function InternalError(message: string): (r: BaseError)
    ensures r.code == ErrCodeInternalError && r.message == message
  {
    BaseError(ErrCodeInternalError, message, message)
  }

  function InvalidParamError(message: string): (r: BaseError)
    ensures r.code == ErrCodeDeveloperError && r.message == message
  {
    BaseError(ErrCodeDeveloperError, message, message)
  }

  function DeveloperError(message: string): (r: BaseError)
    ensures r.code == ErrCodeDeveloperError && r.message == message
  {
    BaseError(ErrCodeDeveloperError, message, message)
  }

  /** NewErrWithCodeV2: code and message verbatim; the cause also names the log id. */
  function NewErrWithCodeV2(code: string, msg: string, logid: string): (r: BaseError)
    ensures r.code == code && r.message == msg
    ensures r.cause == ErrorString(Some(r)) + "（logid=" + logid + "）"
  {
    BaseError(code, msg, msg + " [" + code + "]" + "（logid=" + logid + "）")
  }

  /** Wrap an error with a default code: nil stays nil, ours is returned as is, others get the code and their text. */
  function WrapWith(err: Option<Error>, code: string): (r: Option<BaseError>)
    ensures err.None? <==> r.None?
    ensures err.Some? && err.value.Base? ==> r == Some(err.value.base)
    ensures err.Some? && err.value.Plain? ==> r == Some(BaseError(code, err.value.text, err.value.text))
  {
    match err
    case None => None
    case Some(Base(b)) => Some(b)
    case Some(Plain(t)) => Some(BaseError(code, t, t))
  }

  /** ErrWrap: foreign errors become internal errors. */
  function ErrWrap(err: Option<Error>): (r: Option<BaseError>)
    ensures err.None? ==> r.None?
    ensures err.Some? && err.value.Base? ==> r == Some(err.value.base)
    ensures err.Some? && err.value.Plain? ==> r.Some? && r.value.code == ErrCodeInternalError && r.value.message == Text(err.value)
  {
    WrapWith(err, ErrCodeInternalError)
  }

  /** ParseErrForUser: foreign errors become developer errors. */
  function ParseErrForUser(err: Option<Error>): (r: Option<BaseError>)
    ensures err.None? ==> r.None?
    ensures err.Some? && err.value.Base? ==> r == Some(err.value.base)
    ensures err.Some? && err.value.Plain? ==> r.Some? && r.value.code == ErrCodeDeveloperError && r.value.message == Text(err.value)
  {
    WrapWith(err, ErrCodeDeveloperError)
  }

  /** Wrapping an already wrapped error changes nothing. */
  lemma WrapIdempotent(err: Option<Error>, code: string)
    ensures var once := WrapWith(err, code);
      once.Some? ==> WrapWith(Some(Base(once.value)), code) == once
    ensures ErrWrap(if ErrWrap(err).Some? then Some(Base(ErrWrap(err).value)) else None) == ErrWrap(err)
    ensures ParseErrForUser(if ParseErrForUser(err).Some? then Some(Base(ParseErrForUser(err).value)) else None) == ParseErrForUser(err)
  {
  }

  /** The two wrappers agree on nil and on our own errors, and differ only in the code given to foreign ones. */
  lemma WrappersAgree(err: Option<Error>)
    ensures err.None? || err.value.Base? ==> ErrWrap(err) == ParseErrForUser(err)
    ensures err.Some? && err.value.Plain? ==>
      ErrWrap(err).value.(code := ErrCodeDeveloperError) == ParseErrForUser(err).value
  {
  }

  /** A wrapped foreign error prints as its text followed by the internal code. */
  lemma WrappedText(t: string)
    ensures ErrorString(ErrWrap(Some(Plain(t)))) == t + " [k_cf_ec_200001]"
  {
  }
}
