/**
 * The `AuthProvider` of app/context/AuthContext.jsx, the variant whose
 * `useAuth` the upload page imports (app/components/pdfpload.jsx:5). Its
 * `login(username, password)` performs the login request itself, and
 * `getAuthHeader` reads the token from the `user` state and returns `{}`
 * when there is none.
 *
 * As the app is written, only the other variant's provider is mounted
 * (app/layout.jsx:3, app/page.jsx:6), so the upload page's `useAuth()` finds
 * no provider of this context and throws (lines 101-105). The model studies
 * this provider as if it were mounted around the upload page.
 *
 * The network is an input: each operation receives how its request ended.
 */
module AuthContext {
  import opened Wrappers
  import opened Js
  import opened AuthSession

  /** What `response.json()` resolved to: an object (whose `access_token` may be absent) or `null`. */
  datatype TokenBody = TokenObject(accessToken: Option<string>) | NullBody

  /**
   * How the login request ended: `fetch` rejected; a response that is not
   * ok; or an ok response whose body parsed to `body` (`None` when
   * `response.json()` rejected).
   */
  datatype LoginResponse = LoginThrown | LoginNotOk | LoginOk(body: Option<TokenBody>)

  /** How the register request ended. */
  datatype RegisterResponse = RegisterThrown | RegisterNotOk | RegisterOk

  /**
   * `login(username, password)`: on an ok response with an object body it
   * stores `String(access_token)`, sets `user` to `{ token: access_token }`
   * and returns true; every failure (an exception, a response that is not
   * ok, a body that is not JSON or is `null`, or storage refusing the write
   * before `setUser` runs) is caught and returns false with the session
   * untouched.
   */
  function LoginResult(s: Session, response: LoginResponse, storageWritable: bool): (r: (Session, bool))
    ensures r.1 <==> storageWritable && response.LoginOk? && response.body.Some? && response.body.value.TokenObject?
    ensures r.1 ==> var token := response.body.value.accessToken;
                    r.0 == s.(stored := Some(ToStorageString(token)), user := Some(User(token)))
    ensures !r.1 ==> r.0 == s
  {
    match response
    case LoginOk(Some(TokenObject(token))) =>
      if storageWritable then (s.(stored := Some(ToStorageString(token)), user := Some(User(token))), true)
      else (s, false)
    case _ => (s, false)
  }

  /** `register(username, password, role)`: true exactly when the response is ok; the session is not touched. */
  function RegisterResult(response: RegisterResponse): (ok: bool)
    ensures ok <==> response == RegisterOk
  {
    match response
    case RegisterOk => true
    case _ => false
  }

  /** `getAuthHeader()`: `{ Authorization: 'Bearer <token>' }` when `user.token` is truthy, `{}` otherwise. */
  function HeaderFor(s: Session): (h: Headers)
    ensures h.authorization.Some? <==> Truthy(UserToken(s))
    ensures h.authorization.Some? ==> h.authorization.value == Bearer(UserToken(s).value)
  {
    if Truthy(UserToken(s)) then Headers(Some(Bearer(UserToken(s).value))) else Headers(None)
  }

  /**
   * A successful login with a token stores it, makes it the user's, and
   * upload requests then carry it, provided this provider is the one mounted
   * around the upload page.
   */
  lemma LoginWithToken(s: Session, token: string)
    requires token != ""
    ensures var (r, ok) := LoginResult(s, LoginOk(Some(TokenObject(Some(token)))), true);
            ok && r.stored == Some(token) && r.user == Some(User(Some(token))) && r.loading == s.loading &&
            HeaderFor(r) == Headers(Some(Bearer(token)))
  {
  }

  /**
   * A failed login (the request or body failing, or storage refusing the
   * write) returns false and changes neither the stored token nor the user.
   */
  lemma LoginFailureKeepsSession(s: Session, response: LoginResponse, storageWritable: bool)
    requires !storageWritable || !response.LoginOk? || response.body.None? || response.body.value.NullBody?
    ensures LoginResult(s, response, storageWritable) == (s, false)
  {
  }

  /**
   * An ok response without `access_token` still counts as a login: the code
   * returns true and stores the string "undefined". The user's token is
   * absent, so requests carry no header, but once the provider is mounted
   * again from storage, they carry "Bearer undefined".
   */
  lemma LoginWithoutToken(s: Session)
    ensures var (r, ok) := LoginResult(s, LoginOk(Some(TokenObject(None))), true);
            ok && r.stored == Some("undefined") && HeaderFor(r) == Headers(None) &&
            HeaderFor(Mount(Fresh(r.stored))) == Headers(Some("Bearer undefined"))
  {
    var remounted := Mount(Fresh(Some("undefined")));
    assert UserToken(remounted) == Some("undefined");
    assert Bearer("undefined") == "Bearer undefined";
  }

  /** A session whose user holds no truthy token gives `{}`: the upload request goes without a header. */
  lemma NoTokenNoHeader(s: Session)
    requires !Truthy(UserToken(s))
    ensures HeaderFor(s) == Headers(None)
  {
  }

  /** The provider's state, changed in place by its operations. */
  class AuthProvider {
    var user: Option<User>
    var stored: Option<string>
    var loading: bool

    function State(): Session
      reads this
    {
      Session(user, stored, loading)
    }

    /** The first render, over the storage as it is. */
    constructor (storedToken: Option<string>)
      ensures State() == Fresh(storedToken)
    {
      user := None;
      stored := storedToken;
      loading := true;
    }

    /** The mount effect. */
    method MountEffect()
      modifies this
      ensures State() == Mount(old(State()))
    {
      var token := stored;
      if Truthy(token) {
        user := Some(User(token));
      }
      loading := false;
    }

    method Login(username: string, password: string, response: LoginResponse, storageWritable: bool)
      returns (ok: bool)
      modifies this
      ensures (State(), ok) == LoginResult(old(State()), response, storageWritable)
    {
      match response {
        case LoginOk(Some(TokenObject(token))) =>
          if !storageWritable {
            return false;
          }
          stored := Some(ToStorageString(token));
          user := Some(User(token));
          ok := true;
        case _ =>
          ok := false;
      }
    }

    method Register(username: string, password: string, role: string, response: RegisterResponse) returns (ok: bool)
      ensures ok == RegisterResult(response)
    {
      ok := response == RegisterOk;
    }

    /** `logout()`; returns the `Authorization` header of the request it sends, if it sends one. */
    method Logout() returns (request: Option<string>)
      modifies this
      ensures request == LogoutRequest(old(State()))
      ensures State() == AuthSession.Logout(old(State()))
    {
      request := None;
      if user.Some? && Truthy(user.value.token) {
        request := Some(Bearer(user.value.token.value));
      }
      stored := None;
      user := None;
    }

    /** `getAuthHeader()`, over the current state. */
    function GetAuthHeader(): (h: Headers)
      reads this
      ensures h.authorization.Some? <==> user.Some? && Truthy(user.value.token)
      ensures h.authorization.Some? ==> h.authorization.value == Bearer(user.value.token.value)
    {
      HeaderFor(State())
    }
  }
}
