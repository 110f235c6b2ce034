/**
 * The client's small helpers (`frontend/src/utils/helpers.ts`): `truncateText`,
 * `isEmptyObject` and `formatApiErrorMessage`. `generateShortId` draws on `Math.random` and is
 * not modelled.
 */
module Helpers {
  import opened Wrappers
  import opened Text
  import opened Http

  const Ellipsis := "..."
  const UnexpectedError := "An unexpected error occurred. Please try again."

  /**
   * `truncateText(text, maxLength)`: an absent or empty text gives "", a text within the limit is
   * returned as it is, a longer one is cut to `maxLength` characters (none, for a negative
   * limit) and "..." is appended.
   */
  function TruncateText(text: Option<string>, maxLength: int): (r: string)
    ensures text.None? || text.value == "" ==> r == ""
    ensures text.Some? && |text.value| <= maxLength ==> r == text.value
    ensures text.Some? && text.value != "" && |text.value| > maxLength ==>
      var cut := if maxLength < 0 then 0 else maxLength;
      && |r| == cut + 3
      && r[..cut] == text.value[..cut]
      && r[cut..] == Ellipsis
  {
    if text.None? || text.value == "" then ""
    else if |text.value| <= maxLength then text.value
    else text.value[..if maxLength < 0 then 0 else maxLength] + Ellipsis
  }

  /** The result is never longer than the limit plus the three dots. */
  lemma TruncateBounded(text: Option<string>, maxLength: nat)
    ensures |TruncateText(text, maxLength)| <= maxLength + 3
  {
  }

  /** Truncating a truncated text with the same limit changes nothing. */
  lemma TruncateIdempotent(text: Option<string>, maxLength: int)
    ensures TruncateText(Some(TruncateText(text, maxLength)), maxLength) == TruncateText(text, maxLength)
  {
    var r := TruncateText(text, maxLength);
    if text.Some? && text.value != "" && |text.value| > maxLength {
      var cut := if maxLength < 0 then 0 else maxLength;
      assert r[..cut] + Ellipsis == r;
    }
  }

  /** A value `isEmptyObject` may receive: null or undefined, or an object with its own keys and its constructor's name. */
  datatype Value = Missing | Object(ownKeys: seq<string>, constructorName: string)

  /** `isEmptyObject(obj)` */
  function IsEmptyObject(obj: Value): (r: bool)
    ensures obj.Missing? ==> r
    ensures obj.Object? ==> (r <==> obj.ownKeys == [] && obj.constructorName == "Object")
  {
    match obj
    case Missing => true
    case Object(keys, name) => keys == [] && name == "Object"
  }

  /** An array or any instance of a class other than `Object` is never empty, whatever its keys. */
  lemma ClassInstancesNeverEmpty(keys: seq<string>, name: string)
    requires name != "Object"
    ensures !IsEmptyObject(Object(keys, name))
  {
  }

  /** The `error` field of an error body: a text, or some other value (truthy, but not a string). */
  datatype ErrorField = TextError(text: string) | OtherError

  /**
   * What `formatApiErrorMessage` may receive: nothing, a string, or an object with the optional
   * `message`, `error` and `errors` fields; `errors` holds the message lists of its keys, in order.
   */
  datatype ApiError =
    | NoError
    | Plain(text: string)
    | Body(message: Option<string>, error: Option<ErrorField>, errors: Option<seq<seq<string>>>)

  /** `formatApiErrorMessage(error)` */
  function FormatApiErrorMessage(e: ApiError): (r: string)
    ensures e.Plain? ==> r == e.text
    ensures e.NoError? ==> r == UnexpectedError
    ensures e.Body? && e.message.Some? && e.message.value != "" ==> r == e.message.value
    ensures e.Body? && (e.message.None? || e.message.value == "") ==>
      r == (if e.error.Some? && e.error.value.TextError? && e.error.value.text != "" then e.error.value.text
            else if e.errors.Some? && |e.errors.value| > 0 && |e.errors.value[0]| > 0 then e.errors.value[0][0]
            else UnexpectedError)
  {
    match e
    case NoError => UnexpectedError
    case Plain(text) => text
    case Body(message, error, errors) =>
      if message.Some? && message.value != "" then message.value
      else if error.Some? && error.value.TextError? && error.value.text != "" then error.value.text
      else if errors.Some? && |errors.value| > 0 && |errors.value[0]| > 0 then errors.value[0][0]
      else UnexpectedError
  }

  /** The body of a server failure `{ success: false, error }`, as the client receives it. */
  function FailureBody(r: Response<()>): ApiError
    requires r.Failure?
  {
    Body(None, Some(TextError(r.error)), None)
  }

  /** Formatting the body of any server failure with a non-empty text gives exactly that text. */
  lemma ServerFailureShownVerbatim(r: Response<()>)
    requires r.Failure? && r.error != ""
    ensures FormatApiErrorMessage(FailureBody(r)) == r.error
  {
  }

  /** The message is empty only when the caller handed over an empty text or an empty first validation message. */
  lemma FormattedNeverEmpty(e: ApiError)
    requires !(e.Plain? && e.text == "")
    requires !(e.Body? && e.errors.Some? && |e.errors.value| > 0 && |e.errors.value[0]| > 0 && e.errors.value[0][0] == "")
    ensures FormatApiErrorMessage(e) != ""
  {
  }
}
