/**
 * The client's authentication state (`frontend/src/store/slices/authSlice.ts`): the initial
 * state read from local storage and the reducers, each of which assigns fields of the state in
 * place. The thunks' network calls and local-storage writes are not modelled; their outcomes
 * arrive as the reducers' parameters.
 */
module AuthSlice {
  import opened Wrappers
  import opened Text

  const LoginFailed := "Login failed"
  const RegistrationFailed := "Registration failed"

  /** The user record the client keeps. */
  datatype Profile = Profile(id: string, username: string, fullName: string, email: string, role: string)

  /**
   * The payload of a rejected thunk: the server's answer body `{ success: false, error }`, or the
   * `{ message }` the thunk builds when there is no answer.
   */
  datatype RejectPayload = RejectPayload(message: Option<string>, error: Option<string>)

  /** `action.payload ? action.payload.message : (action.error.message || fallback)` */
  function RejectedError(payload: Option<RejectPayload>, errorMessage: Option<string>, fallback: string): (r: Option<string>)
    ensures payload.Some? ==> r == payload.value.message
    ensures payload.None? ==> r == Some(TextOr(errorMessage, fallback))
  {
    if payload.Some? then payload.value.message else Some(TextOr(errorMessage, fallback))
  }

  /**
   * The server's failure bodies carry their text under `error`, not `message`, so a rejection
   * with such a body leaves no error text in the state, whatever the server said.
   */
  lemma ServerErrorTextIsDropped(e: string, errorMessage: Option<string>, fallback: string)
    ensures RejectedError(Some(RejectPayload(None, Some(e))), errorMessage, fallback).None?
  {
  }

  /** Without a payload the text is never empty, given a non-empty fallback. */
  lemma RejectedWithoutPayloadHasText(errorMessage: Option<string>, fallback: string)
    requires fallback != ""
    ensures var r := RejectedError(None, errorMessage, fallback); r.Some? && r.value != ""
  {
  }

  class AuthState {
    var user: Option<Profile>
    var token: Option<string>
    var isAuthenticated: bool
    var isLoading: bool
    var error: Option<string>

    /**
     * Signed in only with a user record. Every reducer keeps this, and every reducer that signs
     * in or out restores it; only the initial state read from storage can break it.
     */
    predicate Valid()
      reads this
    {
      isAuthenticated ==> user.Some?
    }

    /**
     * `initialState`. `storedUser` is the raw text under `'user'` and `parsedUser` what
     * `JSON.parse(text || 'null')` made of it; `isAuthenticated` tests the two raw texts, so a
     * stored `"null"` signs in without a user record.
     */
    constructor (storedUser: Option<string>, parsedUser: Option<Profile>, storedToken: Option<string>)
      requires storedUser.None? || storedUser.value == "" || storedUser.value == "null" ==> parsedUser.None?
      ensures user == parsedUser && token == storedToken
      ensures isAuthenticated == (storedToken.Some? && storedToken.value != "" && storedUser.Some? && storedUser.value != "")
      ensures !isLoading && error.None?
      ensures Valid() <==> !(isAuthenticated && parsedUser.None?)
      ensures storedUser == Some("null") && storedToken.Some? && storedToken.value != "" ==> isAuthenticated && user.None? && !Valid()
    {
      user := parsedUser;
      token := storedToken;
      isAuthenticated := storedToken.Some? && storedToken.value != "" && storedUser.Some? && storedUser.value != "";
      isLoading := false;
      error := None;
    }

    /** `logout` */
    method Logout()
      modifies this
      ensures user.None? && token.None? && !isAuthenticated && error.None? && !isLoading
      ensures Valid()
    {
      user := None;
      token := None;
      isAuthenticated := false;
      error := None;
      isLoading := false;
    }

    /** `clearAuthError`: only the error changes. */
    method ClearAuthError()
      modifies this
      ensures error.None?
      ensures user == old(user) && token == old(token) && isAuthenticated == old(isAuthenticated) && isLoading == old(isLoading)
      ensures Valid() == old(Valid())
    {
      error := None;
    }

    /** The `pending` case of `loginUser`, `registerUser` and `fetchCurrentUser`, which are the same. */
    method Pending()
      modifies this
      ensures isLoading && error.None?
      ensures user == old(user) && token == old(token) && isAuthenticated == old(isAuthenticated)
      ensures Valid() == old(Valid())
    {
      isLoading := true;
      error := None;
    }

    /** The `fulfilled` case of `loginUser` and of `registerUser`, which are the same. */
    method SignedIn(payloadUser: Profile, payloadToken: string)
      modifies this
      ensures isAuthenticated && user == Some(payloadUser) && token == Some(payloadToken)
      ensures !isLoading && error.None?
      ensures Valid()
    {
      isLoading := false;
      isAuthenticated := true;
      user := Some(payloadUser);
      token := Some(payloadToken);
      error := None;
    }

    /** `loginUser.rejected`: signed out, with the rejection's text. */
    method LoginRejected(payload: Option<RejectPayload>, errorMessage: Option<string>)
      modifies this
      ensures !isLoading && !isAuthenticated && user.None? && token.None?
      ensures error == RejectedError(payload, errorMessage, LoginFailed)
      ensures Valid()
    {
      isLoading := false;
      isAuthenticated := false;
      user := None;
      token := None;
      error := RejectedError(payload, errorMessage, LoginFailed);
    }

    /** `registerUser.rejected`: only the loading flag and the error change. */
    method RegisterRejected(payload: Option<RejectPayload>, errorMessage: Option<string>)
      modifies this
      ensures !isLoading && error == RejectedError(payload, errorMessage, RegistrationFailed)
      ensures user == old(user) && token == old(token) && isAuthenticated == old(isAuthenticated)
      ensures Valid() == old(Valid())
    {
      isLoading := false;
      error := RejectedError(payload, errorMessage, RegistrationFailed);
    }

    /**
     * `fetchCurrentUser.fulfilled`: signed in with the fetched user; a missing or empty token is
     * replaced by the stored one, which may itself be missing. The error is left as it is.
     */
    method CurrentUserFetched(payloadUser: Profile, storedToken: Option<string>)
      modifies this
      ensures isAuthenticated && user == Some(payloadUser) && !isLoading
      ensures token == if old(token).Some? && old(token).value != "" then old(token) else storedToken
      ensures error == old(error)
      ensures Valid()
    {
      isLoading := false;
      isAuthenticated := true;
      user := Some(payloadUser);
      if !(token.Some? && token.value != "") {
        token := storedToken;
      }
    }

    /** `fetchCurrentUser.rejected`: signed out; the error is left as it is. */
    method CurrentUserRejected()
      modifies this
      ensures !isLoading && !isAuthenticated && user.None? && token.None?
      ensures error == old(error)
      ensures Valid()
    {
      isLoading := false;
      isAuthenticated := false;
      user := None;
      token := None;
    }
  }
}
