/**
 * `backend/controllers/authController.js`: registration, login, and the password-reset token
 * lifecycle. Each handler is a function from the stored users and the request to the users
 * afterwards and the response (`...Step`), and a method that performs the same steps on the
 * `users` collection in the order the handler does.
 */
module AuthController {
  import opened Wrappers
  import opened Text
  import opened Http
  import opened Validation
  import opened Collections
  import opened UserModel
  import Roles

  const RegisteredMessage := "User registered successfully"
  const LoggedInMessage := "Login successful"
  const PasswordResetMessage := "Password reset successful"
  const UserExistsMessage := "User already exists with this email or username"
  const RegisterServerError := "Server Error during registration"
  const MissingCredentialsMessage := "Please provide email/username and password"
  const InvalidCredentialsMessage := "Invalid credentials"
  const DeactivatedMessage := "Account is deactivated. Please contact administrator."
  const LoginServerError := "Server Error during login"
  const ResetLinkSentMessage := "If an account with that email exists, a password reset link has been sent."
  const ResetTokenGeneratedMessage := "If an account with that email exists, a password reset token has been generated (check server logs for dev). Email sent (simulated)."
  const InvalidResetTokenMessage := "Invalid or expired token"
  const ServerError := "Server Error"

  /** The `user` object of `sendTokenResponse`: it has no password field. */
  datatype UserView = UserView(
    id: string, username: string, email: string, role: string, fullName: string,
    isActive: bool, twoFactorEnabled: bool)

  /** The body of `sendTokenResponse`. */
  datatype Session = Session(message: string, accessToken: string, user: UserView)

  function ViewOf(u: User): UserView {
    UserView(u.id, u.username, u.email, u.role, u.fullName, u.isActive, u.twoFactorEnabled)
  }

  /** `sendTokenResponse(user, status, res, message)` */
  function SessionFor(u: User, message: string, crypto: Crypto, expiry: Option<string>): (s: Session)
    ensures s.accessToken == crypto.sign(AccessPayload(u.id, u.role, u.username), AccessExpiry(expiry))
    ensures s.user.id == u.id && s.user.role == u.role && s.user.username == u.username
  {
    Session(message, AccessToken(u, crypto, expiry), ViewOf(u))
  }

  // ---------------------------------------------------------------- registerUser

  datatype RegisterBody = RegisterBody(
    username: Option<string>, fullName: Option<string>, email: Option<string>,
    password: Option<string>, role: Option<string>)

  /** `role || 'User'`: the caller's role is taken as given unless it is absent or empty. */
  function RequestedRole(role: Option<string>): (r: string)
    ensures role.Some? && role.value != "" ==> r == role.value
    ensures role.None? || role.value == "" ==> r == Roles.User
  {
    if role.Some? && role.value != "" then role.value else Roles.User
  }

  function RegisterDoc(body: RegisterBody, id: string): User {
    NewUser(id, UserInput(body.username, body.fullName, body.email, body.password, Some(RequestedRole(body.role)), None))
  }

  function RegisterStep(docs: seq<User>, body: RegisterBody, id: string, salt: string, crypto: Crypto, expiry: Option<string>): (s: Step<User, Session>)
    ensures body.email.None? || body.username.None? ==> s == Step(docs, Failure(500, RegisterServerError))
    ensures body.email.Some? && body.username.Some? && Any(docs, EmailOrUsername(body.email.value, body.username.value))
      ==> s == Step(docs, Failure(400, UserExistsMessage))
    ensures s.reply.Failure? ==> s.docs == docs
    ensures s.reply.Success? <==>
      && body.email.Some? && body.username.Some?
      && !Any(docs, EmailOrUsername(body.email.value, body.username.value))
      && ValidUser(RegisterDoc(body, id))
      && !Clashes(docs, PreSave(None, RegisterDoc(body, id), salt, crypto), -1)
    ensures s.reply.Success? ==>
      && s.reply.status == 201
      && s.docs == docs + [PreSave(None, RegisterDoc(body, id), salt, crypto)]
      && s.reply.body == SessionFor(s.docs[|docs|], RegisteredMessage, crypto, expiry)
  {
    if body.email.None? || body.username.None? then Step(docs, Failure(500, RegisterServerError))
    else if Any(docs, EmailOrUsername(body.email.value, body.username.value)) then Step(docs, Failure(400, UserExistsMessage))
    else
      match SaveUser(None, RegisterDoc(body, id), true, salt, crypto)
      case Rejected(issues) => Step(docs, Failure(400, ReportText(issues)))
      case Saved(u) =>
        if Clashes(docs, u, -1) then Step(docs, Failure(500, RegisterServerError))
        else Step(docs + [u], Success(201, SessionFor(u, RegisteredMessage, crypto, expiry)))
  }

  /**
   * Registration keeps whatever role the caller asked for: with `RequestedRole`'s contract, a
   * caller who asks for SuperAdmin is stored as SuperAdmin.
   */
  lemma RegisterHonoursRole(docs: seq<User>, body: RegisterBody, id: string, salt: string, crypto: Crypto, expiry: Option<string>)
    requires RegisterStep(docs, body, id, salt, crypto, expiry).reply.Success?
    ensures RegisterStep(docs, body, id, salt, crypto, expiry).docs[|docs|].role == RequestedRole(body.role)
  {
    var d := RegisterDoc(body, id);
    var u := PreSave(None, d, salt, crypto);
    assert RegisterStep(docs, body, id, salt, crypto, expiry).docs == docs + [u];
    assert (docs + [u])[|docs|] == u;
    assert u.role == d.role;
  }

  /** With a fresh id, the duplicate check leaves the unique indexes nothing to refuse. */
  lemma {:induction false} RegisterCheckCoversIndexes(docs: seq<User>, body: RegisterBody, id: string, salt: string, crypto: Crypto, expiry: Option<string>)
    requires forall j :: 0 <= j < |docs| ==> docs[j].id != id
    requires body.email.Some? && body.username.Some?
    requires !Any(docs, EmailOrUsername(body.email.value, body.username.value))
    ensures !Clashes(docs, PreSave(None, RegisterDoc(body, id), salt, crypto), -1)
  {
    var u := PreSave(None, RegisterDoc(body, id), salt, crypto);
    var p := EmailOrUsername(body.email.value, body.username.value);
    forall j | 0 <= j < |docs| ensures !SameKey(docs[j], u) {
      assert !p(docs[j]);
    }
  }

  /** The password a user registered with is accepted at login. */
  lemma RegisteredPasswordMatches(docs: seq<User>, body: RegisterBody, id: string, salt: string, crypto: Crypto, expiry: Option<string>)
    requires BcryptSound(crypto)
    requires RegisterStep(docs, body, id, salt, crypto, expiry).reply.Success?
    ensures MatchPassword(RegisterStep(docs, body, id, salt, crypto, expiry).docs[|docs|], body.password.GetOr(""), crypto)
  {
    SavedPasswordMatches(None, RegisterDoc(body, id), salt, crypto);
  }

  /** Registering keeps the collection's invariant: unique keys, stored trimmed and lower-cased. */
  lemma RegisterKeepsInvariant(docs: seq<User>, body: RegisterBody, id: string, salt: string, crypto: Crypto, expiry: Option<string>)
    requires StoreInvariant(docs)
    ensures StoreInvariant(RegisterStep(docs, body, id, salt, crypto, expiry).docs)
  {
    var s := RegisterStep(docs, body, id, salt, crypto, expiry);
    if s.reply.Success? {
      var d := RegisterDoc(body, id);
      var u := PreSave(None, d, salt, crypto);
      assert s.docs == docs + [u];
      assert !Clashes(docs, u, -1);
      assert Normalized(u) by {
        assert Normalized(d);
        assert u.username == d.username && u.email == d.email;
      }
      InsertKeepsInvariant(docs, u);
    } else {
      assert s.docs == docs;
    }
  }

  method RegisterUser(store: UserStore, body: RegisterBody, id: string, salt: string, crypto: Crypto, expiry: Option<string>)
    returns (reply: Response<Session>)
    modifies store
    ensures Step(store.docs, reply) == RegisterStep(old(store.docs), body, id, salt, crypto, expiry)
  {
    if body.email.None? || body.username.None? {
      return Failure(500, RegisterServerError);
    }
    var existing := store.Find(EmailOrUsername(body.email.value, body.username.value));
    if existing >= 0 {
      return Failure(400, UserExistsMessage);
    }
    var saved := SaveUser(None, RegisterDoc(body, id), true, salt, crypto);
    if saved.Rejected? {
      return Failure(400, ReportText(saved.issues));
    }
    var inserted := store.Insert(saved.doc);
    if !inserted {
      return Failure(500, RegisterServerError);
    }
    reply := Success(201, SessionFor(saved.doc, RegisteredMessage, crypto, expiry));
  }

  // ---------------------------------------------------------------- loginUser

  datatype LoginBody = LoginBody(emailOrUsername: Option<string>, password: Option<string>)

  /** A JavaScript truthy string. */
  predicate Given(v: Option<string>) {
    v.Some? && v.value != ""
  }

  function LoginStep(docs: seq<User>, body: LoginBody, now: nat, crypto: Crypto, expiry: Option<string>): (s: Step<User, Session>)
    ensures !Given(body.emailOrUsername) || !Given(body.password) ==> s == Step(docs, Failure(400, MissingCredentialsMessage))
    ensures Given(body.emailOrUsername) && Given(body.password) ==>
      var key := body.emailOrUsername.value;
      var found := FirstIndex(docs, EmailOrUsername(key, key));
      && (found.None? ==> s == Step(docs, Failure(401, InvalidCredentialsMessage)))
      && (found.Some? && !docs[found.value].isActive ==> s == Step(docs, Failure(403, DeactivatedMessage)))
      && (found.Some? && docs[found.value].isActive && !MatchPassword(docs[found.value], body.password.value, crypto) ==>
            s == Step(docs, Failure(401, InvalidCredentialsMessage)))
      && (s.reply.Success? ==>
            && found.Some? && docs[found.value].isActive && MatchPassword(docs[found.value], body.password.value, crypto)
            && s.docs == docs[found.value := docs[found.value].(lastLogin := Some(now))]
            && s.reply == Success(200, SessionFor(s.docs[found.value], LoggedInMessage, crypto, expiry)))
    ensures s.reply.Failure? ==> s.docs == docs
  {
    if !Given(body.emailOrUsername) || !Given(body.password) then Step(docs, Failure(400, MissingCredentialsMessage))
    else
      var key := body.emailOrUsername.value;
      match FirstIndex(docs, EmailOrUsername(key, key))
      case None => Step(docs, Failure(401, InvalidCredentialsMessage))
      case Some(k) =>
        var user := docs[k];
        if !user.isActive then Step(docs, Failure(403, DeactivatedMessage))
        else if !MatchPassword(user, body.password.value, crypto) then Step(docs, Failure(401, InvalidCredentialsMessage))
        else
          // `save({ validateBeforeSave: false })`: the hook runs but finds the password untouched
          var updated := PreSave(Some(user), user.(lastLogin := Some(now)), "", crypto);
          if Clashes(docs, updated, k) then Step(docs, Failure(500, LoginServerError))
          else Step(docs[k := updated], Success(200, SessionFor(updated, LoggedInMessage, crypto, expiry)))
  }

  /** In a consistent store, correct credentials of an active user always log in. */
  lemma LoginSucceeds(docs: seq<User>, body: LoginBody, now: nat, crypto: Crypto, expiry: Option<string>)
    requires Distinct(docs)
    requires Given(body.emailOrUsername) && Given(body.password)
    requires var key := body.emailOrUsername.value;
      var found := FirstIndex(docs, EmailOrUsername(key, key));
      found.Some? && docs[found.value].isActive && MatchPassword(docs[found.value], body.password.value, crypto)
    ensures LoginStep(docs, body, now, crypto, expiry).reply.Success?
  {
    var key := body.emailOrUsername.value;
    var k := FirstIndex(docs, EmailOrUsername(key, key)).value;
    var updated := docs[k].(lastLogin := Some(now));
    forall j | 0 <= j < |docs| && j != k ensures !SameKey(docs[j], updated) {
      if j < k {
        assert !SameKey(docs[j], docs[k]);
      } else {
        assert !SameKey(docs[k], docs[j]);
      }
    }
  }

  /** Logging in writes `lastLogin` and nothing else: in particular the password is not rehashed. */
  lemma LoginTouchesOnlyLastLogin(docs: seq<User>, body: LoginBody, now: nat, crypto: Crypto, expiry: Option<string>, k: nat)
    requires LoginStep(docs, body, now, crypto, expiry).reply.Success?
    requires k < |docs|
    ensures |LoginStep(docs, body, now, crypto, expiry).docs| == |docs|
    ensures LoginStep(docs, body, now, crypto, expiry).docs[k].(lastLogin := docs[k].lastLogin) == docs[k]
  {
  }

  /** Logging in keeps the collection's invariant. */
  lemma LoginKeepsInvariant(docs: seq<User>, body: LoginBody, now: nat, crypto: Crypto, expiry: Option<string>)
    requires StoreInvariant(docs)
    ensures StoreInvariant(LoginStep(docs, body, now, crypto, expiry).docs)
  {
    var s := LoginStep(docs, body, now, crypto, expiry);
    if s.reply.Success? {
      var key := body.emailOrUsername.value;
      var k := FirstIndex(docs, EmailOrUsername(key, key)).value;
      var updated := docs[k].(lastLogin := Some(now));
      assert Normalized(docs[k]);
      ReplaceKeepsInvariant(docs, k, updated);
    }
  }

  method LoginUser(store: UserStore, body: LoginBody, now: nat, crypto: Crypto, expiry: Option<string>)
    returns (reply: Response<Session>)
    modifies store
    ensures Step(store.docs, reply) == LoginStep(old(store.docs), body, now, crypto, expiry)
  {
    if !Given(body.emailOrUsername) || !Given(body.password) {
      return Failure(400, MissingCredentialsMessage);
    }
    var key := body.emailOrUsername.value;
    var k := store.Find(EmailOrUsername(key, key));
    if k < 0 {
      return Failure(401, InvalidCredentialsMessage);
    }
    var user := store.docs[k];
    if !user.isActive {
      return Failure(403, DeactivatedMessage);
    }
    if !MatchPassword(user, body.password.value, crypto) {
      return Failure(401, InvalidCredentialsMessage);
    }
    user := user.(lastLogin := Some(now));
    user := PreSave(Some(store.docs[k]), user, "", crypto);
    var written := store.Replace(k, user);
    if !written {
      return Failure(500, LoginServerError);
    }
    reply := Success(200, SessionFor(user, LoggedInMessage, crypto, expiry));
  }

  // ---------------------------------------------------------------- forgotPassword

  /** `{ email }`, with the path's setters applied to the query value. */
  function EmailIs(email: string): User -> bool {
    (u: User) => u.email == Normalize(email)
  }

  /**
   * `forgotPassword`: the answer is 200 whether or not the address is known; only a known
   * address gets a reset token, and the two answers differ in their text.
   */
  function ForgotStep(docs: seq<User>, email: string, raw: string, now: nat, crypto: Crypto): (s: Step<User, string>)
    ensures FirstIndex(docs, EmailIs(email)).None? ==> s == Step(docs, Success(200, ResetLinkSentMessage))
    ensures FirstIndex(docs, EmailIs(email)).Some? ==>
      var k := FirstIndex(docs, EmailIs(email)).value;
      || s == Step(docs[k := IssueResetToken(docs[k], raw, now, crypto).0], Success(200, ResetTokenGeneratedMessage))
      || s == Step(docs, Failure(500, ServerError))
    ensures ResetLinkSentMessage != ResetTokenGeneratedMessage
  {
    match FirstIndex(docs, EmailIs(email))
    case None => Step(docs, Success(200, ResetLinkSentMessage))
    case Some(k) =>
      var issued := IssueResetToken(docs[k], raw, now, crypto).0;
      var saved := PreSave(Some(docs[k]), issued, "", crypto);
      if Clashes(docs, saved, k) then Step(docs, Failure(500, ServerError))
      else Step(docs[k := saved], Success(200, ResetTokenGeneratedMessage))
  }

  /** In a consistent store a known address always gets its token. */
  lemma ForgotIssues(docs: seq<User>, email: string, raw: string, now: nat, crypto: Crypto)
    requires Distinct(docs)
    requires FirstIndex(docs, EmailIs(email)).Some?
    ensures var k := FirstIndex(docs, EmailIs(email)).value;
      ForgotStep(docs, email, raw, now, crypto) == Step(docs[k := IssueResetToken(docs[k], raw, now, crypto).0], Success(200, ResetTokenGeneratedMessage))
  {
    var k := FirstIndex(docs, EmailIs(email)).value;
    var issued := IssueResetToken(docs[k], raw, now, crypto).0;
    forall j | 0 <= j < |docs| && j != k ensures !SameKey(docs[j], issued) {
      if j < k {
        assert !SameKey(docs[j], docs[k]);
      } else {
        assert !SameKey(docs[k], docs[j]);
      }
    }
  }

  /** A successful `forgotPassword` wrote the token-bearing user over the one it found, which clashes with no other. */
  lemma ForgotSucceeded(docs: seq<User>, email: string, raw: string, now: nat, crypto: Crypto)
    requires FirstIndex(docs, EmailIs(email)).Some?
    requires ForgotStep(docs, email, raw, now, crypto).reply.Success?
    ensures var k := FirstIndex(docs, EmailIs(email)).value;
      var issued := IssueResetToken(docs[k], raw, now, crypto).0;
      ForgotStep(docs, email, raw, now, crypto).docs == docs[k := issued] && !Clashes(docs, issued, k)
  {
    var k := FirstIndex(docs, EmailIs(email)).value;
    var issued := IssueResetToken(docs[k], raw, now, crypto).0;
    assert !PasswordModified(Some(docs[k]), issued);
    assert PreSave(Some(docs[k]), issued, "", crypto) == issued;
  }

  /** Issuing a reset token keeps the collection's invariant. */
  lemma ForgotKeepsInvariant(docs: seq<User>, email: string, raw: string, now: nat, crypto: Crypto)
    requires StoreInvariant(docs)
    ensures StoreInvariant(ForgotStep(docs, email, raw, now, crypto).docs)
  {
    var found := FirstIndex(docs, EmailIs(email));
    if found.Some? && ForgotStep(docs, email, raw, now, crypto).reply.Success? {
      var k := found.value;
      var issued := IssueResetToken(docs[k], raw, now, crypto).0;
      ForgotSucceeded(docs, email, raw, now, crypto);
      assert Normalized(issued) by {
        assert Normalized(docs[k]);
        assert issued.username == docs[k].username && issued.email == docs[k].email;
      }
      ReplaceKeepsInvariant(docs, k, issued);
    }
  }

  method ForgotPassword(store: UserStore, email: string, raw: string, now: nat, crypto: Crypto)
    returns (reply: Response<string>)
    modifies store
    ensures Step(store.docs, reply) == ForgotStep(old(store.docs), email, raw, now, crypto)
  {
    var k := store.Find(EmailIs(email));
    if k < 0 {
      return Success(200, ResetLinkSentMessage);
    }
    var user := store.docs[k];
    var issued := IssueResetToken(user, raw, now, crypto);
    user := PreSave(Some(store.docs[k]), issued.0, "", crypto);
    var written := store.Replace(k, user);
    if !written {
      return Failure(500, ServerError);
    }
    reply := Success(200, ResetTokenGeneratedMessage);
  }

  // ---------------------------------------------------------------- resetPassword

  /** `findOne({ resetPasswordToken: sha256(token), resetPasswordExpire: { $gt: now } })` */
  function ResetTarget(docs: seq<User>, token: string, now: nat, crypto: Crypto): (k: Option<nat>)
    ensures k.Some? ==> k.value < |docs| && HoldsResetToken(docs[k.value], crypto.sha256Hex(token), now)
    ensures k.None? <==> forall j :: 0 <= j < |docs| ==> !HoldsResetToken(docs[j], crypto.sha256Hex(token), now)
  {
    var digest := crypto.sha256Hex(token);
    FirstIndex(docs, (u: User) => HoldsResetToken(u, digest, now))
  }

  /** The user after `password = body.password` and clearing both reset fields, before saving. */
  function Redeemed(u: User, password: Option<string>): User {
    u.(password := password.GetOr(""), resetPasswordToken := None, resetPasswordExpire := None)
  }

  function ResetStep(docs: seq<User>, token: string, password: Option<string>, now: nat, salt: string, crypto: Crypto, expiry: Option<string>): (s: Step<User, Session>)
    ensures ResetTarget(docs, token, now, crypto).None? ==> s == Step(docs, Failure(400, InvalidResetTokenMessage))
    ensures s.reply.Failure? ==> s.docs == docs
    ensures s.reply.Success? ==>
      var k := ResetTarget(docs, token, now, crypto).value;
      && ValidUser(Redeemed(docs[k], password))
      && !Clashes(docs, PreSave(Some(docs[k]), Redeemed(docs[k], password), salt, crypto), k)
      && s.docs == docs[k := PreSave(Some(docs[k]), Redeemed(docs[k], password), salt, crypto)]
      && s.docs[k].resetPasswordToken.None? && s.docs[k].resetPasswordExpire.None?
      && s.reply == Success(200, SessionFor(s.docs[k], PasswordResetMessage, crypto, expiry))
    ensures ResetTarget(docs, token, now, crypto).Some? && !ValidUser(Redeemed(docs[ResetTarget(docs, token, now, crypto).value], password))
      ==> s.reply == Failure(400, ReportText(UserIssues(Redeemed(docs[ResetTarget(docs, token, now, crypto).value], password))))
  {
    match ResetTarget(docs, token, now, crypto)
    case None => Step(docs, Failure(400, InvalidResetTokenMessage))
    case Some(k) =>
      match SaveUser(Some(docs[k]), Redeemed(docs[k], password), true, salt, crypto)
      case Rejected(issues) => Step(docs, Failure(400, ReportText(issues)))
      case Saved(u) =>
        if Clashes(docs, u, k) then Step(docs, Failure(500, ServerError))
        else Step(docs[k := u], Success(200, SessionFor(u, PasswordResetMessage, crypto, expiry)))
  }

  /**
   * In a consistent store, a live token and a new password the schema accepts always reset the
   * password: the save keeps the user's id, username and email, so it cannot clash.
   */
  lemma ResetSucceeds(docs: seq<User>, token: string, password: Option<string>, now: nat, salt: string, crypto: Crypto, expiry: Option<string>)
    requires Distinct(docs)
    requires ResetTarget(docs, token, now, crypto).Some?
    requires ValidUser(Redeemed(docs[ResetTarget(docs, token, now, crypto).value], password))
    ensures ResetStep(docs, token, password, now, salt, crypto, expiry).reply.Success?
  {
    var k := ResetTarget(docs, token, now, crypto).value;
    var u := PreSave(Some(docs[k]), Redeemed(docs[k], password), salt, crypto);
    assert u.id == docs[k].id && u.username == docs[k].username && u.email == docs[k].email;
    forall j | 0 <= j < |docs| && j != k ensures !SameKey(docs[j], u) {
      if j < k {
        assert !SameKey(docs[j], docs[k]);
      } else {
        assert !SameKey(docs[k], docs[j]);
      }
    }
  }

  /** No two users hold the same reset digest. */
  ghost predicate DigestsDistinct(docs: seq<User>) {
    forall i, j :: 0 <= i < j < |docs| && docs[i].resetPasswordToken.Some? ==> docs[i].resetPasswordToken != docs[j].resetPasswordToken
  }

  /** A reset token is single-use: once redeemed, the same token is refused, at any later time. */
  lemma {:induction false} ResetSingleUse(docs: seq<User>, token: string, password: Option<string>, now: nat, salt: string,
                                          crypto: Crypto, expiry: Option<string>, password2: Option<string>, later: nat, salt2: string)
    requires DigestsDistinct(docs)
    requires ResetStep(docs, token, password, now, salt, crypto, expiry).reply.Success?
    ensures var after := ResetStep(docs, token, password, now, salt, crypto, expiry).docs;
      ResetStep(after, token, password2, later, salt2, crypto, expiry).reply == Failure(400, InvalidResetTokenMessage)
  {
    var after := ResetStep(docs, token, password, now, salt, crypto, expiry).docs;
    var k := ResetTarget(docs, token, now, crypto).value;
    var digest := crypto.sha256Hex(token);
    forall j | 0 <= j < |after| ensures !HoldsResetToken(after[j], digest, later) {
      if j != k {
        assert after[j] == docs[j];
        if j < k {
          assert docs[j].resetPasswordToken.Some? ==> docs[j].resetPasswordToken != docs[k].resetPasswordToken;
        } else {
          assert docs[k].resetPasswordToken != docs[j].resetPasswordToken;
        }
      }
    }
    assert ResetTarget(after, token, later, crypto).None?;
  }

  /** Issuing a fresh digest keeps the digests distinct. */
  lemma ForgotKeepsDigestsDistinct(docs: seq<User>, email: string, raw: string, now: nat, crypto: Crypto)
    requires DigestsDistinct(docs)
    requires forall j :: 0 <= j < |docs| ==> docs[j].resetPasswordToken != Some(crypto.sha256Hex(raw))
    ensures DigestsDistinct(ForgotStep(docs, email, raw, now, crypto).docs)
  {
  }

  /**
   * The lifecycle: after `forgotPassword` issued a token for user `k`, redeeming that raw token
   * finds user `k` until ten minutes have passed, and nobody afterwards.
   */
  lemma {:induction false} IssuedTokenRedeemsWithinWindow(docs: seq<User>, email: string, raw: string, now: nat, crypto: Crypto, later: nat)
    requires ForgotStep(docs, email, raw, now, crypto).reply == Success(200, ResetTokenGeneratedMessage)
    requires forall j :: 0 <= j < |docs| ==> docs[j].resetPasswordToken != Some(crypto.sha256Hex(raw))
    ensures var after := ForgotStep(docs, email, raw, now, crypto).docs;
      && (later < now + ResetTokenLifetimeMs ==> ResetTarget(after, raw, later, crypto) == FirstIndex(docs, EmailIs(email)))
      && (later >= now + ResetTokenLifetimeMs ==> ResetTarget(after, raw, later, crypto).None?)
  {
    var after := ForgotStep(docs, email, raw, now, crypto).docs;
    var k := FirstIndex(docs, EmailIs(email)).value;
    var digest := crypto.sha256Hex(raw);
    assert after == docs[k := IssueResetToken(docs[k], raw, now, crypto).0];
    assert forall j :: 0 <= j < |after| && j != k ==> !HoldsResetToken(after[j], digest, later);
    if later < now + ResetTokenLifetimeMs {
      assert HoldsResetToken(after[k], digest, later);
      FirstIndexUnique(after, (u: User) => HoldsResetToken(u, digest, later), k);
    } else {
      assert !HoldsResetToken(after[k], digest, later);
    }
  }

  /** With a collision-free SHA-256, only the raw token that was issued finds its user. */
  lemma OnlyIssuedTokenRedeems(docs: seq<User>, k: nat, raw: string, issuedAt: nat, crypto: Crypto, token: string, later: nat)
    requires Sha256Injective(crypto)
    requires k < |docs| && docs[k] == IssueResetToken(docs[k], raw, issuedAt, crypto).0
    requires ResetTarget(docs, token, later, crypto) == Some(k)
    ensures token == raw
  {
  }

  /** After a successful reset the new password logs in. */
  lemma ResetPasswordMatches(docs: seq<User>, token: string, password: Option<string>, now: nat, salt: string, crypto: Crypto, expiry: Option<string>)
    requires BcryptSound(crypto)
    requires ResetStep(docs, token, password, now, salt, crypto, expiry).reply.Success?
    requires var k := ResetTarget(docs, token, now, crypto).value; PasswordModified(Some(docs[k]), Redeemed(docs[k], password))
    ensures var k := ResetTarget(docs, token, now, crypto).value;
      MatchPassword(ResetStep(docs, token, password, now, salt, crypto, expiry).docs[k], password.GetOr(""), crypto)
  {
    var k := ResetTarget(docs, token, now, crypto).value;
    SavedPasswordMatches(Some(docs[k]), Redeemed(docs[k], password), salt, crypto);
  }

  /** A deactivated account can still redeem a reset token and receives an access token. */
  lemma ResetIgnoresDeactivation(docs: seq<User>, token: string, password: Option<string>, now: nat, salt: string, crypto: Crypto, expiry: Option<string>)
    requires ResetStep(docs, token, password, now, salt, crypto, expiry).reply.Success?
    ensures var k := ResetTarget(docs, token, now, crypto).value;
      ResetStep(docs, token, password, now, salt, crypto, expiry).docs[k].isActive == docs[k].isActive
  {
  }

  /** Redeeming a reset token keeps the collection's invariant. */
  lemma ResetKeepsInvariant(docs: seq<User>, token: string, password: Option<string>, now: nat, salt: string, crypto: Crypto, expiry: Option<string>)
    requires StoreInvariant(docs)
    ensures StoreInvariant(ResetStep(docs, token, password, now, salt, crypto, expiry).docs)
  {
    var s := ResetStep(docs, token, password, now, salt, crypto, expiry);
    if s.reply.Success? {
      var k := ResetTarget(docs, token, now, crypto).value;
      var u := PreSave(Some(docs[k]), Redeemed(docs[k], password), salt, crypto);
      assert s.docs == docs[k := u];
      assert Normalized(u) by {
        assert Normalized(docs[k]);
        assert u.username == docs[k].username && u.email == docs[k].email;
      }
      assert !Clashes(docs, u, k);
      ReplaceKeepsInvariant(docs, k, u);
    } else {
      assert s.docs == docs;
    }
  }

  method ResetPassword(store: UserStore, token: string, password: Option<string>, now: nat, salt: string, crypto: Crypto, expiry: Option<string>)
    returns (reply: Response<Session>)
    modifies store
    ensures Step(store.docs, reply) == ResetStep(old(store.docs), token, password, now, salt, crypto, expiry)
  {
    var digest := crypto.sha256Hex(token);
    var k := store.Find((u: User) => HoldsResetToken(u, digest, now));
    if k < 0 {
      return Failure(400, InvalidResetTokenMessage);
    }
    var user := store.docs[k];
    user := user.(password := password.GetOr(""));
    user := user.(resetPasswordToken := None, resetPasswordExpire := None);
    var saved := SaveUser(Some(store.docs[k]), user, true, salt, crypto);
    if saved.Rejected? {
      return Failure(400, ReportText(saved.issues));
    }
    var written := store.Replace(k, saved.doc);
    if !written {
      return Failure(500, ServerError);
    }
    reply := Success(200, SessionFor(saved.doc, PasswordResetMessage, crypto, expiry));
  }
}
