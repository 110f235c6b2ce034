/**
 * The user administration page (`frontend/src/pages/admin/UserManagementPage.tsx`): the user form
 * and its schema, whose password rule depends on whether an existing user is being edited;
 * the save request it builds; the delete confirmation, which a SuperAdmin row cannot open;
 * and the page state its handlers assign. The requests themselves and their answers are the
 * caller's: each handler's continuation after the network call is a method of its own.
 */
module UserManagement {
  import opened Wrappers
  import opened Text
  import opened Validation
  import opened Forms
  import Roles

  const FullNameRequired := "Full name is required"
  const UsernameRequired := "Username is required"
  const InvalidEmail := "Invalid email"
  const EmailRequired := "Email is required"
  const RoleRequired := "Role is required"
  const PasswordRequired := "Password is required"
  const PasswordTooShort := "Password must be at least 8 characters"
  const PasswordTooShortOnEdit := "Password must be at least 8 characters (leave blank to keep current)"
  const SaveFallback := "Failed to save user."
  const FetchFallback := "Failed to fetch users."
  const DeleteFallback := "Failed to delete user."
  const MinUsername: nat := 3
  const MinPassword: nat := 8
  const UsersPath := "/users"

  /** The role menu of the form. */
  const RoleChoices: seq<string> := ["User", "Analyst", "IncidentResponder", "Admin", "SuperAdmin"]

  /** A row of the user table; `id` is the user's `_id`. */
  datatype UserRow = UserRow(id: string, username: string, fullName: string, email: string, role: string, isActive: bool)

  /** The form's values; `id` is the hidden `_id`, undefined for a new user. */
  datatype UserValues = UserValues(
    id: Option<string>, fullName: string, username: string, email: string,
    role: string, password: string, isActive: bool)

  /** What the save request carries: the values, without `password` when it was left blank. */
  datatype UserPayload = UserPayload(
    id: Option<string>, fullName: string, username: string, email: string,
    role: string, password: Option<string>, isActive: bool)

  const InitialUserValues := UserValues(None, "", "", "", Roles.User, "", true)

  /** The role menu offers exactly the account roles, in the schema's order. */
  lemma RoleChoicesAreAccountRoles()
    ensures RoleChoices == Roles.UserRoles
  {
  }

  /** The form loaded for an existing user: its fields, its `_id`, and a blank password. */
  function EditValues(u: UserRow): (v: UserValues)
    ensures v.id == Some(u.id) && v.password == ""
    ensures v.fullName == u.fullName && v.username == u.username && v.email == u.email
    ensures v.role == u.role && v.isActive == u.isActive
  {
    UserValues(Some(u.id), u.fullName, u.username, u.email, u.role, "", u.isActive)
  }

  // ---------------------------------------------------------------- the schema

  /** `!val` on `_id`: the form is creating a user. */
  predicate Creating(v: UserValues) {
    v.id.None? || v.id.value == ""
  }

  /** The password rule: required and at least 8 long when creating, blank or at least 8 long when editing. */
  predicate PasswordAcceptable(v: UserValues) {
    if Creating(v) then |v.password| >= MinPassword else v.password == "" || |v.password| >= MinPassword
  }

  predicate UserAcceptable(v: UserValues, isEmail: string -> bool) {
    && v.fullName != ""
    && |v.username| >= MinUsername
    && v.email != "" && isEmail(v.email)
    && v.role != ""
    && PasswordAcceptable(v)
  }

  function PasswordIssues(v: UserValues): (r: seq<Issue>)
    ensures r == [] <==> PasswordAcceptable(v)
    ensures |r| <= 1
  {
    if Creating(v) then
      if v.password == "" then [Issue("password", PasswordRequired)]
      else Check(|v.password| >= MinPassword, "password", PasswordTooShort)
    else if v.password == "" then []
    else Check(|v.password| >= MinPassword, "password", PasswordTooShortOnEdit)
  }

  /**
   * The user schema's issues, one per path at most; `isEmail` is the schema library's email
   * test. The form can be submitted exactly when there are none.
   */
  function UserFormIssues(v: UserValues, isEmail: string -> bool): (issues: seq<Issue>)
    ensures issues == [] <==> UserAcceptable(v, isEmail)
    ensures |issues| <= 5
  {
    Check(v.fullName != "", "fullName", FullNameRequired)
      + (if v.username == "" then [Issue("username", UsernameRequired)]
         else Check(|v.username| >= MinUsername, "username", MinDefaultMessage("username", MinUsername)))
      + (if v.email == "" then [Issue("email", EmailRequired)] else Check(isEmail(v.email), "email", InvalidEmail))
      + Check(v.role != "", "role", RoleRequired)
      + PasswordIssues(v)
  }

  /** A fresh form reports every required field but the role, which starts as "User". */
  lemma FreshFormIssues(isEmail: string -> bool)
    ensures UserFormIssues(InitialUserValues, isEmail) == [
      Issue("fullName", FullNameRequired), Issue("username", UsernameRequired),
      Issue("email", EmailRequired), Issue("password", PasswordRequired)]
  {
  }

  // ---------------------------------------------------------------- requests

  /** `if (!userData.password) delete userData.password` */
  function StripBlankPassword(v: UserValues): (p: UserPayload)
    ensures p.password.None? <==> v.password == ""
    ensures p.password.Some? ==> p.password.value == v.password
    ensures p.id == v.id && p.fullName == v.fullName && p.username == v.username
    ensures p.email == v.email && p.role == v.role && p.isActive == v.isActive
  {
    UserPayload(v.id, v.fullName, v.username, v.email, v.role,
                if v.password == "" then None else Some(v.password), v.isActive)
  }

  /** PUT `/users/<id>` while an existing user with an id is being edited, POST `/users` otherwise. */
  function SaveRequest(v: UserValues, editing: Option<UserRow>): (req: Request<UserPayload>)
    ensures req.body == Some(StripBlankPassword(v))
    ensures req.verb == Put <==> editing.Some? && editing.value.id != ""
    ensures req.verb == Put ==> req.url == UsersPath + "/" + editing.value.id
    ensures req.verb != Put ==> req.verb == Post && req.url == UsersPath
  {
    if editing.Some? && editing.value.id != "" then Request(Put, UsersPath + "/" + editing.value.id, Some(StripBlankPassword(v)))
    else Request(Post, UsersPath, Some(StripBlankPassword(v)))
  }

  /**
   * An accepted form never sends a short password, and a form creating a user always sends
   * one.
   */
  lemma SentPasswordIsStrong(v: UserValues, editing: Option<UserRow>, isEmail: string -> bool)
    requires UserFormIssues(v, isEmail) == []
    ensures var p := SaveRequest(v, editing).body.value.password;
      && (Creating(v) ==> p.Some?)
      && (p.Some? ==> |p.value| >= MinPassword)
  {
  }

  /** Editing a user and leaving the password blank is accepted as far as the password goes, and sends none. */
  lemma UntouchedPasswordIsKept(u: UserRow)
    requires u.id != ""
    ensures PasswordIssues(EditValues(u)) == []
    ensures var req := SaveRequest(EditValues(u), Some(u));
      req.verb == Put && req.body.value.password.None?
  {
  }

  /** The delete action is disabled on SuperAdmin rows. */
  predicate CanDelete(row: UserRow) {
    row.role != Roles.SuperAdmin
  }

  function DeleteRequest(row: UserRow): (req: Request<UserPayload>)
    ensures req.verb == Delete && req.body.None?
    ensures req.url == UsersPath + "/" + row.id
  {
    Request(Delete, UsersPath + "/" + row.id, None)
  }

  // ---------------------------------------------------------------- the page state

  class UserManagementPage {
    var users: seq<UserRow>
    var loading: bool
    var error: Option<string>
    var isEditorOpen: bool
    var editingUser: Option<UserRow>
    var deleteConfirmOpen: bool
    var userToDelete: Option<UserRow>
    var values: UserValues

    /**
     * The form holds the `_id` of the user being edited and none while creating, and no
     * SuperAdmin is ever up for deletion.
     */
    predicate Valid()
      reads this
    {
      && (editingUser.Some? ==> values.id == Some(editingUser.value.id))
      && (editingUser.None? ==> values.id.None?)
      && (userToDelete.Some? ==> CanDelete(userToDelete.value))
    }

    constructor ()
      ensures users == [] && loading && error.None?
      ensures !isEditorOpen && editingUser.None? && values == InitialUserValues
      ensures !deleteConfirmOpen && userToDelete.None?
      ensures Valid()
    {
      users := [];
      loading := true;
      error := None;
      isEditorOpen := false;
      editingUser := None;
      deleteConfirmOpen := false;
      userToDelete := None;
      values := InitialUserValues;
    }

    /** `fetchUsers` up to its request: loading, and the error cleared. */
    method FetchStarted()
      modifies this
      ensures loading && error.None?
      ensures users == old(users) && isEditorOpen == old(isEditorOpen) && editingUser == old(editingUser)
      ensures deleteConfirmOpen == old(deleteConfirmOpen) && userToDelete == old(userToDelete) && values == old(values)
      ensures Valid() == old(Valid())
    {
      loading := true;
      error := None;
    }

    /** `fetchUsers` answered: the rows replace the table. */
    method FetchSucceeded(rows: seq<UserRow>)
      modifies this
      ensures users == rows && !loading
      ensures error == old(error) && isEditorOpen == old(isEditorOpen) && editingUser == old(editingUser)
      ensures deleteConfirmOpen == old(deleteConfirmOpen) && userToDelete == old(userToDelete) && values == old(values)
      ensures Valid() == old(Valid())
    {
      users := rows;
      loading := false;
    }

    method FetchFailed(responseError: Option<string>, message: Option<string>)
      modifies this
      ensures error == Some(FailureText(responseError, message, FetchFallback)) && !loading
      ensures users == old(users) && isEditorOpen == old(isEditorOpen) && editingUser == old(editingUser)
      ensures deleteConfirmOpen == old(deleteConfirmOpen) && userToDelete == old(userToDelete) && values == old(values)
      ensures Valid() == old(Valid())
    {
      error := Some(FailureText(responseError, message, FetchFallback));
      loading := false;
    }

    /** `handleOpenEditor(user)`: the user's values with a blank password, or a reset form. */
    method OpenEditor(user: Option<UserRow>)
      requires Valid()
      modifies this
      ensures isEditorOpen && editingUser == user
      ensures values == (if user.Some? then EditValues(user.value) else InitialUserValues)
      ensures users == old(users) && loading == old(loading) && error == old(error)
      ensures deleteConfirmOpen == old(deleteConfirmOpen) && userToDelete == old(userToDelete)
      ensures Valid()
    {
      editingUser := user;
      if user.Some? {
        values := EditValues(user.value);
      } else {
        values := InitialUserValues;
      }
      isEditorOpen := true;
    }

    /** An edit of the visible fields; the hidden `_id` has no input. */
    method Change(next: UserValues)
      requires Valid() && next.id == values.id
      modifies this
      ensures values == next
      ensures users == old(users) && loading == old(loading) && error == old(error)
      ensures isEditorOpen == old(isEditorOpen) && editingUser == old(editingUser)
      ensures deleteConfirmOpen == old(deleteConfirmOpen) && userToDelete == old(userToDelete)
      ensures Valid()
    {
      values := next;
    }

    /** `handleCloseEditor` */
    method CloseEditor()
      requires Valid()
      modifies this
      ensures !isEditorOpen && editingUser.None? && values == InitialUserValues && error.None?
      ensures users == old(users) && loading == old(loading)
      ensures deleteConfirmOpen == old(deleteConfirmOpen) && userToDelete == old(userToDelete)
      ensures Valid()
    {
      isEditorOpen := false;
      editingUser := None;
      values := InitialUserValues;
      error := None;
    }

    /**
     * Submitting: nothing happens unless the schema reports no issue; then the error is
     * cleared and the save request goes out. Creating always sends a password of at least 8
     * characters.
     */
    method Submit(isEmail: string -> bool) returns (req: Option<Request<UserPayload>>)
      requires Valid()
      modifies this
      ensures req.Some? <==> UserFormIssues(old(values), isEmail) == []
      ensures req.Some? ==> req.value == SaveRequest(values, editingUser) && error.None?
      ensures req.Some? && req.value.verb == Post ==>
        req.value.body.value.password.Some? && |req.value.body.value.password.value| >= MinPassword
      ensures req.None? ==> error == old(error)
      ensures values == old(values) && users == old(users) && loading == old(loading)
      ensures isEditorOpen == old(isEditorOpen) && editingUser == old(editingUser)
      ensures deleteConfirmOpen == old(deleteConfirmOpen) && userToDelete == old(userToDelete)
      ensures Valid()
    {
      if UserFormIssues(values, isEmail) == [] {
        error := None;
        SentPasswordIsStrong(values, editingUser, isEmail);
        req := Some(SaveRequest(values, editingUser));
      } else {
        req := None;
      }
    }

    /** The save answered: the list is fetched again and the editor closes with a reset form. */
    method SaveSucceeded()
      requires Valid()
      modifies this
      ensures loading && error.None?
      ensures !isEditorOpen && editingUser.None? && values == InitialUserValues
      ensures users == old(users) && deleteConfirmOpen == old(deleteConfirmOpen) && userToDelete == old(userToDelete)
      ensures Valid()
    {
      FetchStarted();
      CloseEditor();
    }

    /** The save failed: the editor stays open with its values, and shows the error. */
    method SaveFailed(responseError: Option<string>, message: Option<string>)
      modifies this
      ensures error == Some(FailureText(responseError, message, SaveFallback))
      ensures users == old(users) && loading == old(loading) && values == old(values)
      ensures isEditorOpen == old(isEditorOpen) && editingUser == old(editingUser)
      ensures deleteConfirmOpen == old(deleteConfirmOpen) && userToDelete == old(userToDelete)
      ensures Valid() == old(Valid())
    {
      error := Some(FailureText(responseError, message, SaveFallback));
    }

    /** `confirmDeleteUser(row)`; its button is disabled on SuperAdmin rows. */
    method ConfirmDelete(row: UserRow)
      requires Valid() && CanDelete(row)
      modifies this
      ensures userToDelete == Some(row) && deleteConfirmOpen
      ensures users == old(users) && loading == old(loading) && error == old(error)
      ensures isEditorOpen == old(isEditorOpen) && editingUser == old(editingUser) && values == old(values)
      ensures Valid()
    {
      userToDelete := Some(row);
      deleteConfirmOpen := true;
    }

    /** `handleDeleteUser` up to its request: none without a chosen user, and never one for a SuperAdmin. */
    method DeleteChosen() returns (req: Option<Request<UserPayload>>)
      requires Valid()
      ensures req.None? <==> userToDelete.None?
      ensures req.Some? ==> req.value == DeleteRequest(userToDelete.value) && CanDelete(userToDelete.value)
    {
      if userToDelete.None? {
        req := None;
      } else {
        req := Some(DeleteRequest(userToDelete.value));
      }
    }

    /**
     * The delete answered (`failure` holds the error's texts when it did not succeed): on
     * success the list is fetched again; either way the confirmation closes.
     */
    method DeleteFinished(failure: Option<(Option<string>, Option<string>)>)
      requires Valid() && userToDelete.Some?
      modifies this
      ensures failure.None? ==> loading && error.None?
      ensures failure.Some? ==> loading == old(loading) && error == Some(FailureText(failure.value.0, failure.value.1, DeleteFallback))
      ensures !deleteConfirmOpen && userToDelete.None?
      ensures users == old(users) && isEditorOpen == old(isEditorOpen) && editingUser == old(editingUser) && values == old(values)
      ensures Valid()
    {
      if failure.None? {
        FetchStarted();
      } else {
        error := Some(FailureText(failure.value.0, failure.value.1, DeleteFallback));
      }
      deleteConfirmOpen := false;
      userToDelete := None;
    }
  }
}
