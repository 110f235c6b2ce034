/**
 * Schema validation as the models use it: each path reports at most one issue, that of its
 * first failing validator (required, then minlength / match / enum), and the issues of a
 * document come in the order of its paths. The messages are the schema's own where it gives
 * one and the library's default text otherwise.
 */
module Validation {
  import opened Text

  datatype Issue = Issue(path: string, message: string)

  /** The outcome of validating a document and running its pre-save hook. */
  datatype Saved<+T> =
    | Saved(doc: T)
    | Rejected(issues: seq<Issue>)

  function RequiredMessage(path: string): string {
    "Path `" + path + "` is required."
  }

  function MinLengthMessage(path: string, value: string, min: nat): string {
    "Path `" + path + "` (`" + value + "`) is shorter than the minimum allowed length (" + NatText(min) + ")."
  }

  function EnumMessage(path: string, value: string): string {
    "`" + value + "` is not a valid enum value for path `" + path + "`."
  }

  /** An issue for `path` unless `ok`. */
  function Check(ok: bool, path: string, message: string): (r: seq<Issue>)
    ensures r == [] <==> ok
    ensures forall k :: 0 <= k < |r| ==> r[k].path == path
  {
    if ok then [] else [Issue(path, message)]
  }

  /** `Object.values(error.errors).map(val => val.message)`. */
  function Messages(issues: seq<Issue>): (r: seq<string>)
    ensures |r| == |issues|
    ensures forall k :: 0 <= k < |issues| ==> r[k] == issues[k].message
  {
    if issues == [] then [] else [issues[0].message] + Messages(issues[1..])
  }

  /** The controllers' 400 text: the messages joined by ", ". */
  function ReportText(issues: seq<Issue>): string {
    Join(Messages(issues), ", ")
  }
}
