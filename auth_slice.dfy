/**
 * The client's session: the signed-in user, whether the session counts as
 * authenticated, the last login error, and the token kept in local storage.
 */
module AuthSlice {
  import opened Wrappers

  /** The user object the login endpoint returns; `name` and `role` may be absent. */
  datatype User = User(id: int, email: string, name: Option<string>, role: Option<string>)

  class AuthState {
    var user: Option<User>
    var isAuthenticated: bool
    var error: Option<string>
    /** The `token` entry of local storage. */
    var storedToken: Option<string>

    constructor (storedToken: Option<string>)
      ensures user == None && !isAuthenticated && error == None
      ensures this.storedToken == storedToken
    {
      user := None;
      isAuthenticated := false;
      error := None;
      this.storedToken := storedToken;
    }

    /** `logout`: the stored token is removed and the session is reset. */
    method Logout()
      modifies this
      ensures user == None && !isAuthenticated && error == None && storedToken == None
    {
      storedToken := None;
      user := None;
      isAuthenticated := false;
      error := None;
    }

    /**
     * `loginAsync` succeeding: a non-empty token in the response is stored,
     * then the reducer takes `payload.user` and marks the session authenticated.
     */
    method LoginFulfilled(payloadUser: Option<User>, token: Option<string>)
      modifies this
      ensures user == payloadUser && isAuthenticated && error == None
      ensures token.Some? && token.value != "" ==> storedToken == token
      ensures !(token.Some? && token.value != "") ==> storedToken == old(storedToken)
    {
      if token.Some? && token.value != "" {
        storedToken := token;
      }
      user := payloadUser;
      isAuthenticated := true;
      error := None;
    }

    /** `loginAsync` failing: the error is shown and the session is not authenticated; `user` stays. */
    method LoginRejected(message: string)
      modifies this
      ensures error == Some(message) && !isAuthenticated
      ensures user == old(user) && storedToken == old(storedToken)
    {
      error := Some(message);
      isAuthenticated := false;
    }
  }
}
