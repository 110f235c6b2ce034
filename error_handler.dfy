/**
 * The Express error middleware (`backend/middleware/error.js`): an ordered chain of checks,
 * each of which, when it matches, replaces the answer built so far, so that the last match
 * wins; the answer is always `success: false`.
 */
module ErrorHandler {
  import opened Wrappers
  import opened Text
  import opened Http

  const ServerError := "Server Error"
  const InvalidTokenMessage := "Invalid token. Authorization denied."
  const ExpiredTokenMessage := "Token expired. Authorization denied."

  /**
   * What the handler reads from a thrown error. `value` and the `keyValue` values are given as
   * the text a template literal makes of them; `keyValue` keeps its keys in order; `errors` holds
   * the messages of `err.errors`; an absent `message` is "".
   */
  datatype Thrown = Thrown(
    name: string,
    kind: Option<string>,
    value: string,
    code: Option<int>,
    keyValue: seq<(string, string)>,
    errors: seq<string>,
    message: string,
    statusCode: Option<nat>)

  /** The local `error` the chain rebinds: a status code (maybe absent) and a message. */
  datatype Draft = Draft(statusCode: Option<nat>, message: string)

  function NotFoundMessage(value: string): string {
    "Resource not found with id of " + value
  }

  /** The first key of `keyValue` and its value; an empty object gives `undefined` for both. */
  function DuplicateMessage(keyValue: seq<(string, string)>): string {
    var field := if keyValue == [] then "undefined" else keyValue[0].0;
    var value := if keyValue == [] then "undefined" else keyValue[0].1;
    "Duplicate field value entered for '" + field + "': '" + value + "'. This value must be unique."
  }

  /** The chain of checks, in source order; each match replaces the draft. */
  function Classify(e: Thrown): Draft {
    var start := Draft(e.statusCode, e.message);
    var afterCast := if e.name == "CastError" && e.kind == Some("ObjectId") then Draft(Some(404), NotFoundMessage(e.value)) else start;
    var afterDuplicate := if e.code == Some(11000) then Draft(Some(400), DuplicateMessage(e.keyValue)) else afterCast;
    var afterValidation := if e.name == "ValidationError" then Draft(Some(400), Join(e.errors, ". ")) else afterDuplicate;
    var afterInvalid := if e.name == "JsonWebTokenError" then Draft(Some(401), InvalidTokenMessage) else afterValidation;
    if e.name == "TokenExpiredError" then Draft(Some(401), ExpiredTokenMessage) else afterInvalid
  }

  /** `res.status(error.statusCode || 500).json({ success: false, error: error.message || 'Server Error' })` */
  function Send(d: Draft): (r: Response<()>)
    ensures r.Failure?
    ensures r.status == (if d.statusCode.Some? && d.statusCode.value != 0 then d.statusCode.value else 500)
    ensures r.error == (if d.message != "" then d.message else ServerError)
  {
    Failure(if d.statusCode.Some? && d.statusCode.value != 0 then d.statusCode.value else 500,
            if d.message != "" then d.message else ServerError)
  }

  /** `errorHandler(err, req, res, next)` */
  function HandleError(e: Thrown): (r: Response<()>)
    ensures r.Failure?
    ensures e.name == "TokenExpiredError" ==> r == Failure(401, ExpiredTokenMessage)
    ensures e.name == "JsonWebTokenError" ==> r == Failure(401, InvalidTokenMessage)
    ensures e.name == "ValidationError" ==>
      r == Failure(400, if Join(e.errors, ". ") != "" then Join(e.errors, ". ") else ServerError)
    ensures e.code == Some(11000) && e.name !in {"ValidationError", "JsonWebTokenError", "TokenExpiredError"} ==>
      r == Failure(400, DuplicateMessage(e.keyValue))
    ensures e.name == "CastError" && e.kind == Some("ObjectId") && e.code != Some(11000) ==>
      r == Failure(404, NotFoundMessage(e.value))
    ensures !(e.name == "CastError" && e.kind == Some("ObjectId")) && e.code != Some(11000)
            && e.name !in {"ValidationError", "JsonWebTokenError", "TokenExpiredError"} ==>
      && r.status == (if e.statusCode.Some? && e.statusCode.value != 0 then e.statusCode.value else 500)
      && r.error == (if e.message != "" then e.message else ServerError)
  {
    Send(Classify(e))
  }

  // ---------------------------------------------------------------- the chain as a rule table

  /** The checks of the chain, by name. */
  datatype Rule = BadObjectId | DuplicateKey | Validation | InvalidToken | ExpiredToken

  /** The checks in the order the chain runs them. */
  const Rules: seq<Rule> := [BadObjectId, DuplicateKey, Validation, InvalidToken, ExpiredToken]

  predicate Applies(rule: Rule, e: Thrown) {
    match rule
    case BadObjectId => e.name == "CastError" && e.kind == Some("ObjectId")
    case DuplicateKey => e.code == Some(11000)
    case Validation => e.name == "ValidationError"
    case InvalidToken => e.name == "JsonWebTokenError"
    case ExpiredToken => e.name == "TokenExpiredError"
  }

  /** The draft a rule produces on its own. */
  function RuleDraft(rule: Rule, e: Thrown): Draft {
    match rule
    case BadObjectId => Draft(Some(404), NotFoundMessage(e.value))
    case DuplicateKey => Draft(Some(400), DuplicateMessage(e.keyValue))
    case Validation => Draft(Some(400), Join(e.errors, ". "))
    case InvalidToken => Draft(Some(401), InvalidTokenMessage)
    case ExpiredToken => Draft(Some(401), ExpiredTokenMessage)
  }

  /** The position of the last rule that applies, if any. */
  function LastMatch(rules: seq<Rule>, e: Thrown): (r: Option<nat>)
    ensures r.Some? ==> r.value < |rules| && Applies(rules[r.value], e)
    ensures r.Some? ==> forall j :: r.value < j < |rules| ==> !Applies(rules[j], e)
    ensures r.None? <==> forall j :: 0 <= j < |rules| ==> !Applies(rules[j], e)
  {
    if rules == [] then None
    else if Applies(rules[|rules| - 1], e) then Some(|rules| - 1)
    else LastMatch(rules[..|rules| - 1], e)
  }

  /** The chain answers with the draft of the last rule that applies, or with the error's own status and message. */
  lemma ClassifyIsLastMatch(e: Thrown)
    ensures Classify(e) == match LastMatch(Rules, e)
      case None => Draft(e.statusCode, e.message)
      case Some(i) => RuleDraft(Rules[i], e)
  {
    var m := LastMatch(Rules, e);
    if m.Some? {
      var i := m.value;
      assert Applies(Rules[i], e);
      assert i < 1 ==> !Applies(Rules[1], e);
      assert i < 2 ==> !Applies(Rules[2], e);
      assert i < 3 ==> !Applies(Rules[3], e);
      assert i < 4 ==> !Applies(Rules[4], e);
    } else {
      assert forall j :: 0 <= j < 5 ==> !Applies(Rules[j], e);
      assert !Applies(Rules[0], e) && !Applies(Rules[1], e) && !Applies(Rules[2], e);
      assert !Applies(Rules[3], e) && !Applies(Rules[4], e);
    }
  }

  /** Only the duplicate-key check can match together with another; any name-based check then wins. */
  lemma OnlyDuplicateOverlaps(e: Thrown, a: Rule, b: Rule)
    requires a != b && Applies(a, e) && Applies(b, e)
    ensures a == DuplicateKey || b == DuplicateKey
  {
  }
}
