/**
 * `AuthService`: the session flag, set by a login with the one accepted
 * credential pair and cleared by logout, and the token kept in browser storage
 * alongside it (as a ghost field: the storage itself is not modelled).
 */
module Auth {
  import opened JsValues

  /** The placeholder token a successful login writes. */
  const FakeToken: string := "fake_token"

  /** The fixed credential check: user "admin" with password "12345". */
  predicate CredentialsAccepted(username: string, password: string)
  {
    username == "admin" && password == "12345"
  }

  class AuthService {
    /** The published session flag. */
    var isLoggedIn: bool
    /** The value stored under the `auth_token` storage key, if any. */
    ghost var token: Option<string>

    /**
     * The flag starts false; storage is not consulted, so a token left by an
     * earlier session (`stored`) stays as it was.
     */
    constructor (ghost stored: Option<string>)
      ensures !isLoggedIn && token == stored
    {
      isLoggedIn := false;
      token := stored;
    }

    /**
     * `login`: the result is whether the credentials are the accepted pair. On
     * success the token is stored and the flag set; on failure neither the flag
     * nor the token changes (a failed login does not log anybody out).
     */
    method Login(username: string, password: string) returns (success: bool)
      modifies this
      ensures success <==> CredentialsAccepted(username, password)
      ensures success ==> isLoggedIn && token == Some(FakeToken)
      ensures !success ==> isLoggedIn == old(isLoggedIn) && token == old(token)
    {
      success := CredentialsAccepted(username, password);
      if success {
        token := Some(FakeToken);
        isLoggedIn := true;
      }
    }

    /** `logout`: the token is removed and the flag cleared, whatever the previous state. */
    method Logout()
      modifies this
      ensures !isLoggedIn && token == None
    {
      token := None;
      isLoggedIn := false;
    }

    /** `isAuthenticated`: the current flag; nothing changes. */
    method IsAuthenticated() returns (authenticated: bool)
      ensures authenticated == isLoggedIn
    {
      authenticated := isLoggedIn;
    }
  }

  /** A successful login is observed by `isAuthenticated` until a logout, which is observed in turn. */
  method SessionScenario(username: string, password: string, ghost stored: Option<string>)
  {
    var auth := new AuthService(stored);
    var before := auth.IsAuthenticated();
    assert !before;
    var ok := auth.Login(username, password);
    var during := auth.IsAuthenticated();
    assert during <==> CredentialsAccepted(username, password);
    auth.Logout();
    var after := auth.IsAuthenticated();
    assert !after;
  }
}
