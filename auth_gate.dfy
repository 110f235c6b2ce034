/**
 * The request gate of `backend/middleware/auth.js`: `protect` reads a bearer token from the
 * `Authorization` header (section 2.1 of RFC 6750), has it verified, loads the user it names and
 * lets the request through only for an existing, active user; `authorize(...roles)` then lets
 * through only a user whose role is listed.
 *
 * Verifying a JWT (RFC 7519) needs the server secret and the clock, so it is a parameter: a
 * function from the token text to the outcome of `jwt.verify`.
 */
module AuthGate {
  import opened Wrappers
  import opened Text
  import opened Collections
  import opened UserModel

  /** What `jwt.verify` does with a token: yields its `id` claim, or throws one of three kinds of error. */
  datatype Verification =
    | Verified(id: string)
    /** `JsonWebTokenError`: bad signature, malformed token */
    | Malformed
    /** `TokenExpiredError`: the `exp` claim (section 4.1.4 of RFC 7519) is in the past */
    | Expired
    /** any other error raised while verifying or loading the user */
    | OtherFailure

  /** A middleware's decision: call `next()`, or answer with an error status. */
  datatype Outcome = Next | Deny(status: nat, error: string)

  const NoTokenMessage := "Not authorized to access this route (no token)"
  const UserNotFoundMessage := "Not authorized, user not found"
  const DeactivatedMessage := "Account is deactivated. Please contact administrator."
  const InvalidTokenMessage := "Not authorized to access this route (invalid token)"
  const ExpiredTokenMessage := "Not authorized to access this route (token expired)"
  const NotAuthorizedMessage := "Not authorized to access this route"
  const NoRoleMessage := "User role not available. Authorization failed."

  /**
   * `token = header.split(' ')[1]` when the header starts with "Bearer"; `None` is `undefined`
   * (no header, another scheme, or no second word).
   */
  function ExtractToken(header: Option<string>): (token: Option<string>)
    ensures token.Some? ==> header.Some? && StartsWith(header.value, "Bearer")
    ensures token.Some? ==> ' ' !in token.value
  {
    if header.Some? && StartsWith(header.value, "Bearer") then
      var words := SplitOn(header.value, ' ');
      SplitOnJoin(header.value, ' ');
      if |words| >= 2 then
        assert words[1] in words;
        Some(words[1])
      else None
    else None
  }

  /** A string with a space in it splits into at least two words. */
  lemma SplitCountWithSpace(s: string)
    requires ' ' in s
    ensures |SplitOn(s, ' ')| >= 2
  {
    SplitOnJoin(s, ' ');
  }

  /** A "Bearer..." header with a space in it always yields a token (possibly empty). */
  lemma SpacedBearerHeaderHasToken(header: string)
    requires StartsWith(header, "Bearer") && ' ' in header
    ensures ExtractToken(Some(header)).Some?
  {
    SplitCountWithSpace(header);
  }

  /** The bearer scheme: "Bearer <token>" (and anything after a further space) yields the token. */
  lemma {:induction false} BearerHeaderYieldsToken(token: string, rest: string)
    requires ' ' !in token
    ensures ExtractToken(Some("Bearer " + token)) == Some(token)
    ensures ExtractToken(Some("Bearer " + token + " " + rest)) == Some(token)
  {
    var h1 := "Bearer " + token;
    var h2 := "Bearer " + token + " " + rest;
    assert h1[..6] == "Bearer" && h2[..6] == "Bearer";
    assert h1 == "Bearer" + [' '] + token;
    SplitOnFirst("Bearer", ' ', token);
    SplitOnWithout(token, ' ');
    assert h2 == "Bearer" + [' '] + (token + [' '] + rest);
    SplitOnFirst("Bearer", ' ', token + [' '] + rest);
    SplitOnFirst(token, ' ', rest);
  }

  /** The header test is a prefix test only: "Bearerish abc" is accepted as well. */
  lemma PrefixOnlyCheck()
    ensures ExtractToken(Some("Bearerish abc")) == Some("abc")
  {
    var scheme, token := "Bearerish", "abc";
    assert scheme[..6] == "Bearer";
    assert forall k :: 0 <= k < |scheme| ==> scheme[k] != ' ';
    assert forall k :: 0 <= k < |token| ==> token[k] != ' ';
    assert scheme + " " + token == "Bearerish abc";
    BearerHeaderYieldsTokenAfter(scheme, token);
  }

  lemma BearerHeaderYieldsTokenAfter(scheme: string, token: string)
    requires ' ' !in scheme && ' ' !in token && StartsWith(scheme, "Bearer")
    ensures ExtractToken(Some(scheme + " " + token)) == Some(token)
  {
    var h := scheme + " " + token;
    assert h[..6] == scheme[..6];
    assert h == scheme + [' '] + token;
    SplitOnFirst(scheme, ' ', token);
    SplitOnWithout(token, ' ');
  }

  /** `if (!token)`: undefined and the empty string alike. */
  predicate HasToken(header: Option<string>) {
    var t := ExtractToken(header); t.Some? && t.value != ""
  }

  /** `User.findById(decoded.id).select('-password')` */
  function LoadUser(users: seq<User>, id: string): (u: Option<User>)
    ensures u.Some? <==> exists k :: 0 <= k < |users| && users[k].id == id
    ensures u.Some? ==> u.value.id == id && u.value.password == ""
  {
    match FirstIndex(users, (v: User) => v.id == id)
    case None => None
    case Some(k) => Some(WithoutPassword(users[k]))
  }

  /** The value `protect` leaves in `req.user`, once it got that far. */
  function ProtectUser(header: Option<string>, verify: string -> Verification, users: seq<User>): Option<User> {
    if HasToken(header) && verify(ExtractToken(header).value).Verified? then
      LoadUser(users, verify(ExtractToken(header).value).id)
    else None
  }

  /** `protect`'s decision. */
  function ProtectOutcome(header: Option<string>, verify: string -> Verification, users: seq<User>): (r: Outcome)
    ensures !HasToken(header) ==> r == Deny(401, NoTokenMessage)
    ensures r == Next <==>
      && HasToken(header)
      && verify(ExtractToken(header).value).Verified?
      && ProtectUser(header, verify, users).Some?
      && ProtectUser(header, verify, users).value.isActive
    ensures r.Deny? ==> r.status == 401 || r.status == 403
    ensures r.Deny? && r.status == 403 <==>
      && HasToken(header)
      && verify(ExtractToken(header).value).Verified?
      && ProtectUser(header, verify, users).Some?
      && !ProtectUser(header, verify, users).value.isActive
  {
    if !HasToken(header) then Deny(401, NoTokenMessage)
    else
      match verify(ExtractToken(header).value)
      case Verified(id) =>
        var user := LoadUser(users, id);
        if user.None? then Deny(401, UserNotFoundMessage)
        else if !user.value.isActive then Deny(403, DeactivatedMessage)
        else Next
      case Malformed => Deny(401, InvalidTokenMessage)
      case Expired => Deny(401, ExpiredTokenMessage)
      case OtherFailure => Deny(401, NotAuthorizedMessage)
  }

  /** A failed verification never yields 403, and each kind of failure has its own message. */
  lemma VerificationFailures(header: Option<string>, verify: string -> Verification, users: seq<User>)
    requires HasToken(header)
    ensures verify(ExtractToken(header).value) == Malformed ==> ProtectOutcome(header, verify, users) == Deny(401, InvalidTokenMessage)
    ensures verify(ExtractToken(header).value) == Expired ==> ProtectOutcome(header, verify, users) == Deny(401, ExpiredTokenMessage)
    ensures verify(ExtractToken(header).value) == OtherFailure ==> ProtectOutcome(header, verify, users) == Deny(401, NotAuthorizedMessage)
  {
  }

  /** The incoming request, of which `protect` reads the header and writes `user`. */
  class Request {
    var authorization: Option<string>
    var user: Option<User>

    constructor (authorization: Option<string>)
      ensures this.authorization == authorization && user.None?
    {
      this.authorization := authorization;
      user := None;
    }
  }

  /** `protect`, step by step: `req.user` is assigned as soon as the token verified, active or not. */
  method Protect(req: Request, verify: string -> Verification, users: UserStore) returns (outcome: Outcome)
    modifies req`user
    ensures outcome == ProtectOutcome(req.authorization, verify, users.docs)
    ensures HasToken(req.authorization) && verify(ExtractToken(req.authorization).value).Verified?
      ==> req.user == ProtectUser(req.authorization, verify, users.docs)
    ensures !(HasToken(req.authorization) && verify(ExtractToken(req.authorization).value).Verified?)
      ==> req.user == old(req.user)
  {
    var token := ExtractToken(req.authorization);
    if token.None? || token.value == "" {
      return Deny(401, NoTokenMessage);
    }
    var decoded := verify(token.value);
    match decoded {
      case Verified(id) =>
        var k := users.Find((v: User) => v.id == id);
        if k < 0 {
          req.user := None;
          return Deny(401, UserNotFoundMessage);
        }
        req.user := Some(WithoutPassword(users.docs[k]));
        if !users.docs[k].isActive {
          return Deny(403, DeactivatedMessage);
        }
        outcome := Next;
      case Malformed =>
        outcome := Deny(401, InvalidTokenMessage);
      case Expired =>
        outcome := Deny(401, ExpiredTokenMessage);
      case OtherFailure =>
        outcome := Deny(401, NotAuthorizedMessage);
    }
  }

  /** The 403 text of `authorize`. */
  function RoleRefusal(role: string, roles: seq<string>): string {
    "User role '" + role + "' is not authorized to access this route. Allowed roles: " + Join(roles, ", ")
  }

  /** `authorize(...roles)` applied to `req.user`. */
  function Authorize(roles: seq<string>, user: Option<User>): (r: Outcome)
    ensures r == Next <==> user.Some? && user.value.role != "" && user.value.role in roles
    ensures r == Deny(401, NoRoleMessage) <==> user.None? || user.value.role == ""
    ensures r.Deny? && r.status == 403 <==> user.Some? && user.value.role != "" && user.value.role !in roles
    ensures r.Deny? && r.status == 403 ==> r.error == RoleRefusal(user.value.role, roles)
  {
    if user.None? || user.value.role == "" then Deny(401, NoRoleMessage)
    else if user.value.role !in roles then Deny(403, RoleRefusal(user.value.role, roles))
    else Next
  }

  /** Only membership matters: two role lists with the same members decide alike. */
  lemma AuthorizeByMembership(a: seq<string>, b: seq<string>, user: Option<User>)
    requires forall r :: r in a <==> r in b
    ensures Authorize(a, user).Next? == Authorize(b, user).Next?
    ensures Authorize(a, user).Deny? ==> Authorize(b, user).Deny? && Authorize(a, user).status == Authorize(b, user).status
  {
  }
}
