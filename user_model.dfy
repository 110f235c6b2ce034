/**
 * The user schema: its paths and setters, validation, the pre-save password hook,
 * `matchPassword`, the access-token payload, `getResetPasswordToken`, and the `users`
 * collection with its unique indexes.
 *
 * bcrypt, SHA-256 and JWT signing are one-way functions the model does not compute: they are
 * the function-valued fields of `Crypto`, and the lemmas that need a property of them (a hash
 * verifies against its own input, SHA-256 has no collisions) say so in their `requires`.
 */
module UserModel {
  import opened Wrappers
  import opened Text
  import opened Validation
  import opened Collections
  import Roles

  const MinUsernameLength: nat := 3
  const MinPasswordLength: nat := 8
  /** Ten minutes, in milliseconds. */
  const ResetTokenLifetimeMs: nat := 10 * 60 * 1000
  /** Access-token lifetime when `JWT_EXPIRE_ACCESS` is unset or empty. */
  const DefaultAccessExpiry := "1h"

  /**
   * A stored user. A required string path that is absent is "" here: the `required` validator
   * refuses both alike. `password` holds the bcrypt hash once saved.
   */
  datatype User = User(
    id: string,
    username: string,
    fullName: string,
    email: string,
    password: string,
    role: string,
    isActive: bool,
    lastLogin: Option<nat>,
    twoFactorEnabled: bool,
    resetPasswordToken: Option<string>,
    resetPasswordExpire: Option<nat>)

  /** The claims of an access token. */
  datatype AccessPayload = AccessPayload(id: string, role: string, username: string)

  datatype Crypto = Crypto(
    /** `bcrypt.hash(plain, salt)` */
    hash: (string, string) -> string,
    /** `bcrypt.compare(plain, hashed)` */
    compare: (string, string) -> bool,
    /** SHA-256 of the text, as lower-case hex */
    sha256Hex: string -> string,
    /** `jwt.sign(payload, JWT_SECRET, { expiresIn })` */
    sign: (AccessPayload, string) -> string)

  /** bcrypt accepts a password against a hash of that same password. */
  ghost predicate BcryptSound(c: Crypto) {
    forall plain, salt :: c.compare(plain, c.hash(plain, salt))
  }

  /** No two raw tokens share a SHA-256 digest. */
  ghost predicate Sha256Injective(c: Crypto) {
    forall a, b :: c.sha256Hex(a) == c.sha256Hex(b) ==> a == b
  }

  // ---------------------------------------------------------------- the email pattern

  /** `\w`: an ASCII letter, digit or underscore. */
  predicate IsWordChar(c: char) {
    ('a' <= c <= 'z') || ('A' <= c <= 'Z') || ('0' <= c <= '9') || c == '_'
  }

  predicate AllWord(s: string) {
    forall k :: 0 <= k < |s| ==> IsWordChar(s[k])
  }

  /** `\w+([.-]?\w+)`: two runs of word characters, possibly joined by one '.' or '-'. */
  predicate WordPair(s: string) {
    || (|s| >= 2 && AllWord(s))
    || exists k :: 1 <= k < |s| - 1 && (s[k] == '.' || s[k] == '-') && AllWord(s[..k]) && AllWord(s[k + 1..])
  }

  /** `(\.\w{2,3})+`: one or more dot groups of two or three word characters. */
  predicate DotGroups(s: string)
    decreases |s|
  {
    && |s| >= 3 && s[0] == '.'
    && (|| (AllWord(s[1..3]) && (|s| == 3 || DotGroups(s[3..])))
        || (|s| >= 4 && AllWord(s[1..4]) && (|s| == 4 || DotGroups(s[4..]))))
  }

  /** The schema's pattern `^\w+([.-]?\w+)@\w+([.-]?\w+)(\.\w{2,3})+$`. */
  predicate EmailMatches(s: string) {
    exists at, dot :: 0 <= at < dot <= |s| && s[at] == '@' && WordPair(s[..at]) && WordPair(s[at + 1..dot]) && DotGroups(s[dot..])
  }

  /** A concrete address the pattern accepts. */
  lemma EmailExample()
    ensures EmailMatches("jo@mail.com")
  {
    var s := "jo@mail.com";
    assert s[..2] == "jo" && AllWord("jo");
    assert s[3..7] == "mail" && AllWord("mail");
    assert s[7..] == ".com" && AllWord(s[7..][1..4]);
    assert DotGroups(s[7..]);
  }

  // ---------------------------------------------------------------- documents

  /** The fields `User.create` receives; `None` is a field the request did not carry. */
  datatype UserInput = UserInput(
    username: Option<string>,
    fullName: Option<string>,
    email: Option<string>,
    password: Option<string>,
    role: Option<string>,
    isActive: Option<bool>)

  /** The username and email a stored user is kept under: trimmed and lower-cased. */
  predicate Normalized(u: User) {
    Normalize(u.username) == u.username && Normalize(u.email) == u.email
  }

  /** `new User(input)`: setters applied, and the defaults for role, isActive and twoFactorEnabled. */
  function NewUser(id: string, input: UserInput): (u: User)
    ensures Normalized(u)
    ensures u.role == (if input.role.Some? then input.role.value else Roles.User)
    ensures u.isActive <==> input.isActive.None? || input.isActive.value
    ensures !u.twoFactorEnabled && u.lastLogin.None?
    ensures u.resetPasswordToken.None? && u.resetPasswordExpire.None?
  {
    var username := Normalize(input.username.GetOr(""));
    var email := Normalize(input.email.GetOr(""));
    NormalizeIdempotent(input.username.GetOr(""));
    NormalizeIdempotent(input.email.GetOr(""));
    User(id, username, Trim(input.fullName.GetOr("")), email, input.password.GetOr(""),
         input.role.GetOr(Roles.User), input.isActive.GetOr(true), None, false, None, None)
  }

  /** What the schema accepts: independent of the order in which validators report. */
  predicate ValidUser(u: User) {
    && |u.username| >= MinUsernameLength
    && u.fullName != ""
    && EmailMatches(u.email)
    && |u.password| >= MinPasswordLength
    && Roles.IsUserRole(u.role)
  }

  function UsernameIssues(v: string): seq<Issue> {
    if v == "" then [Issue("username", "Username is required")]
    else Check(|v| >= MinUsernameLength, "username", MinLengthMessage("username", v, MinUsernameLength))
  }

  function FullNameIssues(v: string): seq<Issue> {
    Check(v != "", "fullName", "Full name is required")
  }

  function EmailIssues(v: string): seq<Issue> {
    if v == "" then [Issue("email", "Email is required")]
    else Check(EmailMatches(v), "email", "Please add a valid email")
  }

  function PasswordIssues(v: string): seq<Issue> {
    if v == "" then [Issue("password", "Password is required")]
    else Check(|v| >= MinPasswordLength, "password", MinLengthMessage("password", v, MinPasswordLength))
  }

  function RoleIssues(v: string): seq<Issue> {
    Check(Roles.IsUserRole(v), "role", EnumMessage("role", v))
  }

  /** Full-document validation, in schema order, at most one issue per path. */
  function UserIssues(u: User): (issues: seq<Issue>)
    ensures issues == [] <==> ValidUser(u)
    ensures |issues| <= 5
    ensures forall k :: 0 <= k < |issues| ==> issues[k].path in ["username", "fullName", "email", "password", "role"]
  {
    assert EmailMatches(u.email) ==> u.email != "";
    UsernameIssues(u.username) + FullNameIssues(u.fullName) + EmailIssues(u.email)
      + PasswordIssues(u.password) + RoleIssues(u.role)
  }

  /** The hook rehashes only when the password path was modified: always for a new document. */
  predicate PasswordModified(stored: Option<User>, doc: User) {
    stored.None? || stored.value.password != doc.password
  }

  /** The pre-save hook. */
  function PreSave(stored: Option<User>, doc: User, salt: string, crypto: Crypto): (r: User)
    ensures r == doc.(password := r.password)
    ensures PasswordModified(stored, doc) ==> r.password == crypto.hash(doc.password, salt)
    ensures !PasswordModified(stored, doc) ==> r == doc
  {
    if PasswordModified(stored, doc) then doc.(password := crypto.hash(doc.password, salt)) else doc
  }

  /** `doc.save(options)`: validation (unless `validate` is off), then the pre-save hook. */
  function SaveUser(stored: Option<User>, doc: User, validate: bool, salt: string, crypto: Crypto): (r: Saved<User>)
    ensures r.Rejected? <==> validate && !ValidUser(doc)
    ensures r.Rejected? ==> r.issues == UserIssues(doc)
    ensures r.Saved? ==> r.doc == PreSave(stored, doc, salt, crypto)
  {
    if validate && UserIssues(doc) != [] then Rejected(UserIssues(doc)) else Saved(PreSave(stored, doc, salt, crypto))
  }

  /** A saved password is accepted by `matchPassword` with the plain text it was set from. */
  lemma SavedPasswordMatches(stored: Option<User>, doc: User, salt: string, crypto: Crypto)
    requires BcryptSound(crypto)
    requires PasswordModified(stored, doc)
    ensures MatchPassword(PreSave(stored, doc, salt, crypto), doc.password, crypto)
  {
    assert crypto.compare(doc.password, crypto.hash(doc.password, salt));
  }

  /** `user.matchPassword(entered)` */
  function MatchPassword(u: User, entered: string, crypto: Crypto): bool {
    crypto.compare(entered, u.password)
  }

  /** `process.env.JWT_EXPIRE_ACCESS || '1h'` */
  function AccessExpiry(setting: Option<string>): (r: string)
    ensures r != ""
    ensures setting.Some? && setting.value != "" ==> r == setting.value
    ensures setting.None? || setting.value == "" ==> r == DefaultAccessExpiry
  {
    if setting.Some? && setting.value != "" then setting.value else DefaultAccessExpiry
  }

  /** `getSignedJwtAccessToken`: the payload carries the id, role and username and nothing else. */
  function AccessToken(u: User, crypto: Crypto, expirySetting: Option<string>): (token: string)
    ensures token == crypto.sign(AccessPayload(u.id, u.role, u.username), AccessExpiry(expirySetting))
  {
    crypto.sign(AccessPayload(u.id, u.role, u.username), AccessExpiry(expirySetting))
  }

  /**
   * `getResetPasswordToken`: stores the digest of the raw token and an expiry ten minutes on,
   * and hands back the raw token, which is never stored.
   */
  function IssueResetToken(u: User, raw: string, now: nat, crypto: Crypto): (r: (User, string))
    ensures r.1 == raw
    ensures r.0 == u.(resetPasswordToken := Some(crypto.sha256Hex(raw)), resetPasswordExpire := Some(now + ResetTokenLifetimeMs))
  {
    (u.(resetPasswordToken := Some(crypto.sha256Hex(raw)), resetPasswordExpire := Some(now + ResetTokenLifetimeMs)), raw)
  }

  /** A user as queries return it: the `select: false` password path is left out ("" here). */
  function WithoutPassword(u: User): (r: User)
    ensures r.password == ""
    ensures r.(password := u.password) == u
  {
    u.(password := "")
  }

  /** A password-reset lookup: the digest matches and the expiry is still ahead (`$gt: now`). */
  predicate HoldsResetToken(u: User, digest: string, now: nat) {
    u.resetPasswordToken == Some(digest) && u.resetPasswordExpire.Some? && u.resetPasswordExpire.value > now
  }

  // ---------------------------------------------------------------- queries

  /** A query value after `toLowerCase()` and the path's own trim and lowercase setters. */
  function QueryKey(x: string): (k: string)
    ensures k == Normalize(x)
  {
    NormalizeLower(x);
    Normalize(Lower(x))
  }

  /** `{ $or: [{ email: e.toLowerCase() }, { username: n.toLowerCase() }] }` */
  function EmailOrUsername(email: string, username: string): User -> bool {
    (u: User) => u.email == QueryKey(email) || u.username == QueryKey(username)
  }

  /** `findById(id)` */
  function HasId(id: string): User -> bool {
    (u: User) => u.id == id
  }

  // ---------------------------------------------------------------- the collection

  /** Two users the unique indexes on `_id`, `username` and `email` keep apart. */
  predicate SameKey(a: User, b: User) {
    a.id == b.id || a.username == b.username || a.email == b.email
  }

  /** Whether writing `u` (over position `skip`, or as a new document when `skip` is -1) violates a unique index. */
  predicate Clashes(docs: seq<User>, u: User, skip: int) {
    exists j :: 0 <= j < |docs| && j != skip && SameKey(docs[j], u)
  }

  ghost predicate Distinct(docs: seq<User>) {
    forall i, j :: 0 <= i < j < |docs| ==> !SameKey(docs[i], docs[j])
  }

  /** What the collection guarantees: unique keys, stored trimmed and lower-cased. */
  ghost predicate StoreInvariant(docs: seq<User>) {
    && Distinct(docs)
    && forall i :: 0 <= i < |docs| ==> Normalized(docs[i])
  }

  /** Appending a user that clashes with none keeps the keys distinct. */
  lemma InsertKeepsDistinct(docs: seq<User>, u: User)
    requires Distinct(docs) && !Clashes(docs, u, -1)
    ensures Distinct(docs + [u])
  {
    var s := docs + [u];
    forall i, j | 0 <= i < j < |s| ensures !SameKey(s[i], s[j]) {
      if j == |docs| {
        assert !SameKey(docs[i], u);
      }
    }
  }

  /** Overwriting position `k` with a user that clashes with no other keeps the keys distinct. */
  lemma ReplaceKeepsDistinct(docs: seq<User>, k: nat, u: User)
    requires k < |docs| && Distinct(docs) && !Clashes(docs, u, k)
    ensures Distinct(docs[k := u])
  {
    var s := docs[k := u];
    forall i, j | 0 <= i < j < |s| ensures !SameKey(s[i], s[j]) {
      if i == k {
        assert !SameKey(docs[j], u);
      } else if j == k {
        assert !SameKey(docs[i], u);
      }
    }
  }

  /** Appending a normalized user that clashes with none keeps the invariant. */
  lemma InsertKeepsInvariant(docs: seq<User>, u: User)
    requires StoreInvariant(docs) && !Clashes(docs, u, -1) && Normalized(u)
    ensures StoreInvariant(docs + [u])
  {
    InsertKeepsDistinct(docs, u);
    var s := docs + [u];
    assert forall i :: 0 <= i < |s| ==> s[i] == (if i < |docs| then docs[i] else u);
  }

  /** Overwriting a user with a normalized one that clashes with no other keeps the invariant. */
  lemma ReplaceKeepsInvariant(docs: seq<User>, k: nat, u: User)
    requires k < |docs| && StoreInvariant(docs) && !Clashes(docs, u, k) && Normalized(u)
    ensures StoreInvariant(docs[k := u])
  {
    ReplaceKeepsDistinct(docs, k, u);
  }

  /** Removing a user keeps the invariant. */
  lemma RemoveKeepsInvariant(docs: seq<User>, k: nat)
    requires k < |docs| && StoreInvariant(docs)
    ensures StoreInvariant(docs[..k] + docs[k + 1..])
  {
    var s := docs[..k] + docs[k + 1..];
    assert forall i :: 0 <= i < |s| ==> s[i] == (if i < k then docs[i] else docs[i + 1]);
  }

  /** The `users` collection, in insertion order. */
  class UserStore {
    var docs: seq<User>

    ghost predicate Valid()
      reads this
    {
      StoreInvariant(docs)
    }

    constructor ()
      ensures docs == [] && Valid()
    {
      docs := [];
    }

    /** `findOne(filter)` / `findById(id)`: the first stored user the filter accepts. */
    method Find(p: User -> bool) returns (index: int)
      ensures -1 <= index < |docs|
      ensures index == -1 <==> FirstIndex(docs, p).None?
      ensures 0 <= index ==> FirstIndex(docs, p) == Some(index)
    {
      index := FindIndex(docs, p);
    }

    /** Inserting a new user; refused (E11000) when a unique index would be violated. */
    method Insert(u: User) returns (ok: bool)
      modifies this
      ensures ok == !Clashes(old(docs), u, -1)
      ensures docs == if ok then old(docs) + [u] else old(docs)
      ensures old(Valid()) && Normalized(u) ==> Valid()
    {
      if Clashes(docs, u, -1) {
        return false;
      }
      if Valid() && Normalized(u) {
        InsertKeepsInvariant(docs, u);
      }
      docs := docs + [u];
      ok := true;
    }

    /** Writing back the user at position `k`; refused when a unique index would be violated. */
    method Replace(k: nat, u: User) returns (ok: bool)
      requires k < |docs|
      modifies this
      ensures ok == !Clashes(old(docs), u, k)
      ensures docs == if ok then old(docs)[k := u] else old(docs)
      ensures old(Valid()) && Normalized(u) ==> Valid()
    {
      if Clashes(docs, u, k) {
        return false;
      }
      if Valid() && Normalized(u) {
        ReplaceKeepsInvariant(docs, k, u);
      }
      docs := docs[k := u];
      ok := true;
    }

    /** `deleteOne()` on the user at position `k`. */
    method Remove(k: nat)
      requires k < |docs|
      modifies this
      ensures docs == old(docs)[..k] + old(docs)[k + 1..]
      ensures old(Valid()) ==> Valid()
    {
      if Valid() {
        RemoveKeepsInvariant(docs, k);
      }
      docs := docs[..k] + docs[k + 1..];
    }
  }
}
