/**
 * What the client's forms share. The form library turns every empty-string value, nested ones
 * included, into `undefined` before the schema sees it, so a schema's `required` refuses ""
 * and its `min`, `email` and `oneOf` tests pass over it. Each field shows the first message
 * the schema reports for its path; the order of the paths carries no meaning.
 */
module Forms {
  import opened Wrappers
  import opened Text

  datatype Verb = Post | Put | Delete

  /** A request the client sends through its HTTP service: verb, path and optional JSON body. */
  datatype Request<+B> = Request(verb: Verb, url: string, body: Option<B>)

  /** The schema library's default text for a `min` length test without a message of its own. */
  function MinDefaultMessage(path: string, min: nat): string {
    path + " must be at least " + NatText(min) + " characters"
  }

  /**
   * `err.response?.data?.error || err.message || fallback`: the server's error text when it
   * sent a non-empty one, else the client error's message, else the fallback.
   */
  function FailureText(responseError: Option<string>, message: Option<string>, fallback: string): (r: string)
    ensures responseError.Some? && responseError.value != "" ==> r == responseError.value
    ensures (responseError.None? || responseError.value == "") && message.Some? && message.value != "" ==> r == message.value
    ensures (responseError.None? || responseError.value == "") && (message.None? || message.value == "") ==> r == fallback
    ensures fallback != "" ==> r != ""
  {
    TextOr(responseError, TextOr(message, fallback))
  }
}
