/**
 * `backend/controllers/userController.js`: user management by an administrator. `createUser`
 * saves a new document (validation, then the password hook); `updateUser` builds a partial
 * update of five fields, drops the undefined ones and writes them with `findByIdAndUpdate`,
 * which runs the validators of the paths it sets and not the pre-save hook.
 */
module UserController {
  import opened Wrappers
  import opened Text
  import opened Http
  import opened Validation
  import opened Collections
  import opened Patch
  import opened UserModel
  import Roles

  const CreatedMessage := "User created successfully"
  const UpdatedMessage := "User updated successfully"
  const DeletedMessage := "User deleted successfully"
  const UserExistsMessage := "User already exists with this email or username"
  const EmailInUseMessage := "Email already in use"
  const ServerError := "Server Error"

  /** `User not found with id of <id>` */
  function NotFoundMessage(id: string): string {
    "User not found with id of " + id
  }

  /** The body of a 200 or 201 answer that carries a user. */
  datatype UserReply = UserReply(data: User, message: string)

  // ---------------------------------------------------------------- getUser / deleteUser

  function GetUserStep(docs: seq<User>, id: string): (r: Response<User>)
    ensures r.Failure? <==> forall j :: 0 <= j < |docs| ==> docs[j].id != id
    ensures r.Failure? ==> r == Failure(404, NotFoundMessage(id))
    ensures r.Success? ==> r.status == 200 && r.body.id == id && r.body.password == ""
    ensures r.Success? ==> exists j :: 0 <= j < |docs| && r.body == WithoutPassword(docs[j])
  {
    match FirstIndex(docs, HasId(id))
    case None => Failure(404, NotFoundMessage(id))
    case Some(k) => Success(200, WithoutPassword(docs[k]))
  }

  method GetUser(store: UserStore, id: string) returns (reply: Response<User>)
    ensures reply == GetUserStep(store.docs, id)
  {
    var k := store.Find(HasId(id));
    if k < 0 {
      return Failure(404, NotFoundMessage(id));
    }
    reply := Success(200, WithoutPassword(store.docs[k]));
  }

  function DeleteUserStep(docs: seq<User>, id: string): (s: Step<User, string>)
    ensures s.reply.Failure? <==> forall j :: 0 <= j < |docs| ==> docs[j].id != id
    ensures s.reply.Failure? ==> s == Step(docs, Failure(404, NotFoundMessage(id)))
    ensures s.reply.Success? ==>
      var k := FirstIndex(docs, HasId(id)).value;
      && docs[k].id == id
      && s.docs == docs[..k] + docs[k + 1..]
      && s.reply == Success(200, DeletedMessage)
  {
    match FirstIndex(docs, HasId(id))
    case None => Step(docs, Failure(404, NotFoundMessage(id)))
    case Some(k) => Step(docs[..k] + docs[k + 1..], Success(200, DeletedMessage))
  }

  /** In a consistent store, ids are unique, so deleting a user leaves no user with that id. */
  lemma DeleteRemovesId(docs: seq<User>, id: string)
    requires Distinct(docs)
    ensures forall j :: 0 <= j < |DeleteUserStep(docs, id).docs| ==> DeleteUserStep(docs, id).docs[j].id != id
  {
    var s := DeleteUserStep(docs, id);
    if s.reply.Success? {
      var k := FirstIndex(docs, HasId(id)).value;
      forall j | 0 <= j < |s.docs| ensures s.docs[j].id != id {
        if j < k {
          assert s.docs[j] == docs[j];
        } else {
          assert s.docs[j] == docs[j + 1];
          assert !SameKey(docs[k], docs[j + 1]);
        }
      }
    }
  }

  lemma DeleteKeepsInvariant(docs: seq<User>, id: string)
    requires StoreInvariant(docs)
    ensures StoreInvariant(DeleteUserStep(docs, id).docs)
  {
    var after := DeleteUserStep(docs, id).docs;
    var found := FirstIndex(docs, HasId(id));
    if found.Some? {
      var k := found.value;
      RemoveKeepsInvariant(docs, k);
      assert after == docs[..k] + docs[k + 1..];
    } else {
      assert after == docs;
    }
  }

  method DeleteUser(store: UserStore, id: string) returns (reply: Response<string>)
    modifies store
    ensures Step(store.docs, reply) == DeleteUserStep(old(store.docs), id)
    ensures old(store.Valid()) ==> store.Valid()
  {
    var k := store.Find(HasId(id));
    if k < 0 {
      return Failure(404, NotFoundMessage(id));
    }
    store.Remove(k);
    reply := Success(200, DeletedMessage);
  }

  // ---------------------------------------------------------------- createUser

  /**
   * `createUser`: the duplicate check, then `User.create` with the role and `isActive` the
   * administrator gave. The 201 answer carries the created document as `create` returns it,
   * password hash included.
   */
  function CreateUserStep(docs: seq<User>, input: UserInput, id: string, salt: string, crypto: Crypto): (s: Step<User, UserReply>)
    ensures input.email.None? || input.username.None? ==> s == Step(docs, Failure(500, ServerError))
    ensures input.email.Some? && input.username.Some? && Any(docs, EmailOrUsername(input.email.value, input.username.value))
      ==> s == Step(docs, Failure(400, UserExistsMessage))
    ensures s.reply.Failure? ==> s.docs == docs
    ensures s.reply.Success? <==>
      && input.email.Some? && input.username.Some?
      && !Any(docs, EmailOrUsername(input.email.value, input.username.value))
      && ValidUser(NewUser(id, input))
      && !Clashes(docs, PreSave(None, NewUser(id, input), salt, crypto), -1)
    ensures s.reply.Success? ==>
      && s.docs == docs + [PreSave(None, NewUser(id, input), salt, crypto)]
      && s.reply == Success(201, UserReply(s.docs[|docs|], CreatedMessage))
  {
    if input.email.None? || input.username.None? then Step(docs, Failure(500, ServerError))
    else if Any(docs, EmailOrUsername(input.email.value, input.username.value)) then Step(docs, Failure(400, UserExistsMessage))
    else
      match SaveUser(None, NewUser(id, input), true, salt, crypto)
      case Rejected(issues) => Step(docs, Failure(400, ReportText(issues)))
      case Saved(u) =>
        if Clashes(docs, u, -1) then Step(docs, Failure(500, ServerError))
        else Step(docs + [u], Success(201, UserReply(u, CreatedMessage)))
  }

  /** Creating a user keeps the collection's invariant. */
  lemma CreateKeepsInvariant(docs: seq<User>, input: UserInput, id: string, salt: string, crypto: Crypto)
    requires StoreInvariant(docs)
    ensures StoreInvariant(CreateUserStep(docs, input, id, salt, crypto).docs)
  {
    var s := CreateUserStep(docs, input, id, salt, crypto);
    if s.reply.Success? {
      var d := NewUser(id, input);
      var u := PreSave(None, d, salt, crypto);
      assert s.docs == docs + [u];
      assert !Clashes(docs, u, -1);
      assert Normalized(u) by {
        assert Normalized(d);
        assert u.username == d.username && u.email == d.email;
      }
      InsertKeepsInvariant(docs, u);
    } else {
      assert s.docs == docs;
    }
  }

  method CreateUser(store: UserStore, input: UserInput, id: string, salt: string, crypto: Crypto) returns (reply: Response<UserReply>)
    modifies store
    ensures Step(store.docs, reply) == CreateUserStep(old(store.docs), input, id, salt, crypto)
  {
    if input.email.None? || input.username.None? {
      return Failure(500, ServerError);
    }
    var existing := store.Find(EmailOrUsername(input.email.value, input.username.value));
    if existing >= 0 {
      return Failure(400, UserExistsMessage);
    }
    var saved := SaveUser(None, NewUser(id, input), true, salt, crypto);
    if saved.Rejected? {
      return Failure(400, ReportText(saved.issues));
    }
    var inserted := store.Insert(saved.doc);
    if !inserted {
      return Failure(500, ServerError);
    }
    reply := Success(201, UserReply(saved.doc, CreatedMessage));
  }

  // ---------------------------------------------------------------- updateUser

  /** The values `updateUser` reads from the body; `None` is undefined. */
  datatype UpdateBody = UpdateBody(
    fullName: Option<string>, email: Option<string>, role: Option<string>,
    isActive: Option<bool>, twoFactorEnabled: Option<bool>)

  /** The keys of `updateFields`. */
  datatype UserPath = FullName | Email | Role | IsActive | TwoFactorEnabled

  /** A value of `updateFields`: the three string paths and the two boolean ones. */
  datatype PathValue = StringValue(text: string) | BoolValue(flag: bool)

  function StringField(v: Option<string>): Option<PathValue> {
    if v.Some? then Some(StringValue(v.value)) else None
  }

  function BoolField(v: Option<bool>): Option<PathValue> {
    if v.Some? then Some(BoolValue(v.value)) else None
  }

  /** `const updateFields = { fullName, email, role, isActive, twoFactorEnabled }` */
  function UpdateFields(b: UpdateBody): seq<Field<UserPath, PathValue>> {
    [(FullName, StringField(b.fullName)), (Email, StringField(b.email)), (Role, StringField(b.role)),
     (IsActive, BoolField(b.isActive)), (TwoFactorEnabled, BoolField(b.twoFactorEnabled))]
  }

  /** The string an update gives `path`, if it gives one. */
  function TextAt(kept: seq<Entry<UserPath, PathValue>>, path: UserPath): Option<string> {
    var v := Lookup(kept, path);
    if v.Some? && v.value.StringValue? then Some(v.value.text) else None
  }

  /** The boolean an update gives `path`, if it gives one. */
  function FlagAt(kept: seq<Entry<UserPath, PathValue>>, path: UserPath): Option<bool> {
    var v := Lookup(kept, path);
    if v.Some? && v.value.BoolValue? then Some(v.value.flag) else None
  }

  /** `$set` of the paths the update names, through each path's setters; other paths keep their values. */
  function SetPaths(u: User, kept: seq<Entry<UserPath, PathValue>>): User {
    var fullName := TextAt(kept, FullName);
    var email := TextAt(kept, Email);
    u.(fullName := if fullName.Some? then Trim(fullName.value) else u.fullName,
       email := if email.Some? then Normalize(email.value) else u.email,
       role := TextAt(kept, Role).GetOr(u.role),
       isActive := FlagAt(kept, IsActive).GetOr(u.isActive),
       twoFactorEnabled := FlagAt(kept, TwoFactorEnabled).GetOr(u.twoFactorEnabled))
  }

  /** The update validators: those of the paths the update sets, run on the values the setters produce. */
  function UpdateIssues(kept: seq<Entry<UserPath, PathValue>>): seq<Issue> {
    var fullName := TextAt(kept, FullName);
    var email := TextAt(kept, Email);
    var role := TextAt(kept, Role);
    (if fullName.Some? then FullNameIssues(Trim(fullName.value)) else [])
    + (if email.Some? then EmailIssues(Normalize(email.value)) else [])
    + (if role.Some? then RoleIssues(role.value) else [])
  }

  /** The user the update should produce, field by field from the body. */
  function Patched(u: User, b: UpdateBody): (r: User)
    ensures r.id == u.id && r.username == u.username && r.password == u.password
    ensures r.lastLogin == u.lastLogin
    ensures r.resetPasswordToken == u.resetPasswordToken && r.resetPasswordExpire == u.resetPasswordExpire
  {
    u.(fullName := if b.fullName.Some? then Trim(b.fullName.value) else u.fullName,
       email := if b.email.Some? then Normalize(b.email.value) else u.email,
       role := b.role.GetOr(u.role),
       isActive := b.isActive.GetOr(u.isActive),
       twoFactorEnabled := b.twoFactorEnabled.GetOr(u.twoFactorEnabled))
  }

  /** The issues the update should report, field by field from the body. */
  function PatchIssues(b: UpdateBody): (r: seq<Issue>)
    ensures r == [] <==>
      && (b.fullName.Some? ==> Trim(b.fullName.value) != "")
      && (b.email.Some? ==> EmailMatches(Normalize(b.email.value)))
      && (b.role.Some? ==> Roles.IsUserRole(b.role.value))
  {
    var name := if b.fullName.Some? then FullNameIssues(Trim(b.fullName.value)) else [];
    var email := if b.email.Some? then EmailIssues(Normalize(b.email.value)) else [];
    var role := if b.role.Some? then RoleIssues(b.role.value) else [];
    assert b.email.Some? && EmailMatches(Normalize(b.email.value)) ==> Normalize(b.email.value) != "";
    assert |name + email + role| == |name| + |email| + |role|;
    name + email + role
  }

  /**
   * Dropping the undefined fields and then setting what is left is the field-by-field patch:
   * a field the body leaves undefined never overwrites the stored value.
   */
  lemma UpdateMatchesPatch(u: User, b: UpdateBody)
    ensures SetPaths(u, Defined(UpdateFields(b))) == Patched(u, b)
    ensures UpdateIssues(Defined(UpdateFields(b))) == PatchIssues(b)
  {
    UpdateLookups(b);
  }

  /** Each path of the update holds the body's own field, or nothing when the body leaves it undefined. */
  lemma UpdateLookups(b: UpdateBody)
    ensures var kept := Defined(UpdateFields(b));
      && TextAt(kept, FullName) == b.fullName && TextAt(kept, Email) == b.email && TextAt(kept, Role) == b.role
      && FlagAt(kept, IsActive) == b.isActive && FlagAt(kept, TwoFactorEnabled) == b.twoFactorEnabled
  {
    var f := UpdateFields(b);
    var kept := Defined(f);
    UpdateKeysDistinct(b);
    LookupDefined(f, 0);
    TextAtOf(kept, FullName, b.fullName);
    LookupDefined(f, 1);
    TextAtOf(kept, Email, b.email);
    LookupDefined(f, 2);
    TextAtOf(kept, Role, b.role);
    LookupDefined(f, 3);
    FlagAtOf(kept, IsActive, b.isActive);
    LookupDefined(f, 4);
    FlagAtOf(kept, TwoFactorEnabled, b.twoFactorEnabled);
  }

  lemma UpdateKeysDistinct(b: UpdateBody)
    ensures DistinctKeys(UpdateFields(b))
  {
  }

  lemma TextAtOf(kept: seq<Entry<UserPath, PathValue>>, path: UserPath, v: Option<string>)
    requires Lookup(kept, path) == StringField(v)
    ensures TextAt(kept, path) == v
  {
  }

  lemma FlagAtOf(kept: seq<Entry<UserPath, PathValue>>, path: UserPath, v: Option<bool>)
    requires Lookup(kept, path) == BoolField(v)
    ensures FlagAt(kept, path) == v
  {
  }

  /** `email && email.toLowerCase() !== user.email.toLowerCase()`: whether the conflict check runs. */
  predicate ChangesEmail(email: Option<string>, current: string) {
    email.Some? && email.value != "" && Lower(email.value) != Lower(current)
  }

  /** `{ email: email.toLowerCase(), _id: { $ne: user._id } }` */
  function EmailHeldByOther(email: string, self: string): User -> bool {
    (u: User) => u.email == QueryKey(email) && u.id != self
  }

  function UpdateUserStep(docs: seq<User>, id: string, b: UpdateBody): (s: Step<User, UserReply>)
    ensures FirstIndex(docs, HasId(id)).None? ==> s == Step(docs, Failure(404, NotFoundMessage(id)))
    ensures s.reply.Failure? ==> s.docs == docs
    ensures FirstIndex(docs, HasId(id)).Some? ==>
      var k := FirstIndex(docs, HasId(id)).value;
      && (ChangesEmail(b.email, docs[k].email) && Any(docs, EmailHeldByOther(b.email.value, docs[k].id)) ==>
            s == Step(docs, Failure(400, EmailInUseMessage)))
      && (s.reply.Success? <==>
            && !(ChangesEmail(b.email, docs[k].email) && Any(docs, EmailHeldByOther(b.email.value, docs[k].id)))
            && PatchIssues(b) == []
            && !Clashes(docs, Patched(docs[k], b), k))
      && (s.reply.Success? ==>
            && s.docs == docs[k := Patched(docs[k], b)]
            && s.reply == Success(200, UserReply(WithoutPassword(Patched(docs[k], b)), UpdatedMessage)))
      && (!(ChangesEmail(b.email, docs[k].email) && Any(docs, EmailHeldByOther(b.email.value, docs[k].id))) && PatchIssues(b) != [] ==>
            s.reply == Failure(400, ReportText(PatchIssues(b))))
  {
    var kept := Defined(UpdateFields(b));
    match FirstIndex(docs, HasId(id))
    case None => Step(docs, Failure(404, NotFoundMessage(id)))
    case Some(k) =>
      var user := docs[k];
      UpdateMatchesPatch(user, b);
      if ChangesEmail(b.email, user.email) && Any(docs, EmailHeldByOther(b.email.value, user.id)) then
        Step(docs, Failure(400, EmailInUseMessage))
      else if UpdateIssues(kept) != [] then Step(docs, Failure(400, ReportText(UpdateIssues(kept))))
      else
        var updated := SetPaths(user, kept);
        if Clashes(docs, updated, k) then Step(docs, Failure(500, ServerError))
        else Step(docs[k := updated], Success(200, UserReply(WithoutPassword(updated), UpdatedMessage)))
  }

  /** The update never touches the username, the password hash, the login time or the reset fields. */
  lemma UpdateKeepsProtectedFields(docs: seq<User>, id: string, b: UpdateBody, k: nat)
    requires UpdateUserStep(docs, id, b).reply.Success?
    requires k < |docs|
    ensures var after := UpdateUserStep(docs, id, b).docs[k];
      && after.id == docs[k].id && after.username == docs[k].username && after.password == docs[k].password
      && after.lastLogin == docs[k].lastLogin
      && after.resetPasswordToken == docs[k].resetPasswordToken && after.resetPasswordExpire == docs[k].resetPasswordExpire
  {
  }

  /** A field left undefined keeps its stored value; a defined one is written through its setters. */
  lemma UpdateWritesOnlyGivenFields(docs: seq<User>, id: string, b: UpdateBody)
    requires UpdateUserStep(docs, id, b).reply.Success?
    ensures var k := FirstIndex(docs, HasId(id)).value;
      var after := UpdateUserStep(docs, id, b).docs[k];
      && after.fullName == (if b.fullName.Some? then Trim(b.fullName.value) else docs[k].fullName)
      && after.email == (if b.email.Some? then Normalize(b.email.value) else docs[k].email)
      && after.role == b.role.GetOr(docs[k].role)
      && after.isActive == b.isActive.GetOr(docs[k].isActive)
      && after.twoFactorEnabled == b.twoFactorEnabled.GetOr(docs[k].twoFactorEnabled)
  {
  }

  /** Unlike the other updaters, a body with none of the five fields is accepted and changes nothing. */
  lemma EmptyUpdateAccepted(docs: seq<User>, id: string)
    requires Distinct(docs)
    requires FirstIndex(docs, HasId(id)).Some?
    ensures var b := UpdateBody(None, None, None, None, None);
      && Defined(UpdateFields(b)) == []
      && UpdateUserStep(docs, id, b).reply.Success?
      && UpdateUserStep(docs, id, b).docs == docs
  {
    var b := UpdateBody(None, None, None, None, None);
    var k := FirstIndex(docs, HasId(id)).value;
    assert Patched(docs[k], b) == docs[k];
    forall j | 0 <= j < |docs| && j != k ensures !SameKey(docs[j], docs[k]) {
      if j < k {
        assert !SameKey(docs[j], docs[k]);
      } else {
        assert !SameKey(docs[k], docs[j]);
      }
    }
    assert docs[k := docs[k]] == docs;
  }

  /** Re-sending the stored email, in any letter case, skips the conflict check: only validation and the indexes decide. */
  lemma SameEmailSkipsCheck(docs: seq<User>, id: string, b: UpdateBody)
    requires FirstIndex(docs, HasId(id)).Some?
    requires b.email.Some? && Lower(b.email.value) == Lower(docs[FirstIndex(docs, HasId(id)).value].email)
    ensures var k := FirstIndex(docs, HasId(id)).value;
      UpdateUserStep(docs, id, b).reply.Success? <==> PatchIssues(b) == [] && !Clashes(docs, Patched(docs[k], b), k)
  {
    var k := FirstIndex(docs, HasId(id)).value;
    assert !ChangesEmail(b.email, docs[k].email);
  }

  /** With the conflict check passed, the updated user shares no key with any other user. */
  lemma {:induction false} PatchedKeepsKeysApart(docs: seq<User>, k: nat, b: UpdateBody)
    requires StoreInvariant(docs) && k < |docs|
    requires !(ChangesEmail(b.email, docs[k].email) && Any(docs, EmailHeldByOther(b.email.value, docs[k].id)))
    requires b.email.Some? ==> b.email.value != ""
    ensures !Clashes(docs, Patched(docs[k], b), k)
  {
    var u := Patched(docs[k], b);
    forall j | 0 <= j < |docs| && j != k ensures !SameKey(docs[j], u) {
      var other := docs[j];
      if j < k {
        assert !SameKey(other, docs[k]);
      } else {
        assert !SameKey(docs[k], other);
      }
      assert other.id != u.id && other.username != u.username;
      if b.email.Some? {
        var v := b.email.value;
        assert u.email == Normalize(v);
        if ChangesEmail(b.email, docs[k].email) {
          var p := EmailHeldByOther(v, docs[k].id);
          assert FirstIndex(docs, p).None?;
          assert !p(other);
          assert other.email != QueryKey(v);
        } else {
          LowerSameNormalize(v, docs[k].email);
          assert Normalized(docs[k]);
          assert Normalize(v) == docs[k].email;
        }
      } else {
        assert u.email == docs[k].email;
      }
      assert other.email != u.email;
    }
  }

  /** In a consistent store the conflict check leaves the unique indexes nothing to refuse: `updateUser` never answers 500. */
  lemma UpdateNeverFailsOnIndex(docs: seq<User>, id: string, b: UpdateBody)
    requires StoreInvariant(docs)
    ensures UpdateUserStep(docs, id, b).reply.status != 500
  {
    var s := UpdateUserStep(docs, id, b);
    var k := FirstIndex(docs, HasId(id));
    if k.Some? {
      var conflict := ChangesEmail(b.email, docs[k.value].email) && Any(docs, EmailHeldByOther(b.email.value, docs[k.value].id));
      if conflict {
        assert s.reply == Failure(400, EmailInUseMessage);
      } else if PatchIssues(b) != [] {
        assert s.reply == Failure(400, ReportText(PatchIssues(b)));
      } else {
        if b.email.Some? {
          assert EmailMatches(Normalize(b.email.value));
          assert Normalize("") == "";
        }
        PatchedKeepsKeysApart(docs, k.value, b);
        assert s.reply.Success?;
        assert s.reply.status == 200;
      }
    } else {
      assert s.reply == Failure(404, NotFoundMessage(id));
    }
  }

  lemma UpdateKeepsInvariant(docs: seq<User>, id: string, b: UpdateBody)
    requires StoreInvariant(docs)
    ensures StoreInvariant(UpdateUserStep(docs, id, b).docs)
  {
    var s := UpdateUserStep(docs, id, b);
    if s.reply.Success? {
      var k := FirstIndex(docs, HasId(id)).value;
      var u := Patched(docs[k], b);
      assert Normalized(u) by {
        assert Normalized(docs[k]);
        if b.email.Some? {
          NormalizeIdempotent(b.email.value);
        }
      }
      ReplaceKeepsInvariant(docs, k, u);
    } else {
      assert s.docs == docs;
    }
  }

  method UpdateUser(store: UserStore, id: string, b: UpdateBody) returns (reply: Response<UserReply>)
    modifies store
    ensures Step(store.docs, reply) == UpdateUserStep(old(store.docs), id, b)
  {
    var kept := DropUndefined(UpdateFields(b));
    var k := store.Find(HasId(id));
    if k < 0 {
      return Failure(404, NotFoundMessage(id));
    }
    var user := store.docs[k];
    if ChangesEmail(b.email, user.email) {
      var other := store.Find(EmailHeldByOther(b.email.value, user.id));
      if other >= 0 {
        return Failure(400, EmailInUseMessage);
      }
    }
    var issues := UpdateIssues(kept);
    if issues != [] {
      return Failure(400, ReportText(issues));
    }
    var updated := SetPaths(user, kept);
    var written := store.Replace(k, updated);
    if !written {
      return Failure(500, ServerError);
    }
    reply := Success(200, UserReply(WithoutPassword(updated), UpdatedMessage));
  }
}
