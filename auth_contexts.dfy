/**
 * The `AuthProvider` of app/contexts/AuthContext.jsx, the variant the login
 * page uses. Its `login(token)` only records a token obtained elsewhere,
 * `register` re-throws its errors instead of returning false, its children
 * are rendered only once loading has ended, and `getAuthHeader` reads the
 * token from storage (not from `user`) and returns `null` when there is none.
 */
module AuthContexts {
  import opened Wrappers
  import opened Js
  import opened AuthSession
  import AuthContext

  /** What an error response's body parsed to: an object (whose `detail` may be absent) or `null`. */
  datatype ErrorBody = DetailObject(detail: Option<string>) | NullBody

  /**
   * How the register request ended: `fetch` rejected with `message`; an ok
   * response; or a response that is not ok, whose body parsed to `body`
   * (`None` when `response.json()` rejected).
   */
  datatype RegisterResponse = RegisterThrown(message: string) | RegisterOk | RegisterNotOk(body: Option<ErrorBody>)

  /** The error `register` re-throws. */
  datatype RegisterError =
    | Rejected(message: string)      // `new Error(errorData.detail || 'Registration failed')`
    | RequestFailed(message: string) // the rejection of `fetch`, passed on
    | BodyNotJson                    // the rejection of `response.json()`, passed on
    | NullErrorBody                  // the TypeError of reading `detail` of `null`

  datatype RegisterOutcome = Registered | Threw(error: RegisterError)

  const RegistrationFailed := "Registration failed"

  /**
   * `login(token)`: stores the token and makes it the user's, returning
   * true; when storage refuses the write, the exception is caught, nothing
   * changes and it returns false.
   */
  function LoginResult(s: Session, token: string, storageWritable: bool): (r: (Session, bool))
    ensures r.1 == storageWritable
    ensures r.1 ==> r.0 == s.(stored := Some(token), user := Some(User(Some(token))))
    ensures !r.1 ==> r.0 == s
  {
    if storageWritable then (s.(stored := Some(token), user := Some(User(Some(token)))), true)
    else (s, false)
  }

  /**
   * `register(username, password, userData)`: resolves on an ok response;
   * a response that is not ok is turned into an error carrying the server's
   * `detail`, or 'Registration failed' when it has none; every error is
   * re-thrown, never turned into a false result.
   */
  function RegisterResult(response: RegisterResponse): (r: RegisterOutcome)
    ensures r.Registered? <==> response == RegisterOk
    ensures response.RegisterThrown? ==> r == Threw(RequestFailed(response.message))
    ensures response.RegisterNotOk? && response.body.Some? && response.body.value.DetailObject? ==>
              r == Threw(Rejected(OrElse(response.body.value.detail, RegistrationFailed)))
    ensures response == RegisterNotOk(None) ==> r == Threw(BodyNotJson)
    ensures response == RegisterNotOk(Some(NullBody)) ==> r == Threw(NullErrorBody)
  {
    match response
    case RegisterOk => Registered
    case RegisterThrown(message) => Threw(RequestFailed(message))
    case RegisterNotOk(None) => Threw(BodyNotJson)
    case RegisterNotOk(Some(NullBody)) => Threw(NullErrorBody)
    case RegisterNotOk(Some(DetailObject(detail))) => Threw(Rejected(OrElse(detail, RegistrationFailed)))
  }

  /**
   * A response that is not ok never resolves: it always throws, and a
   * rejection always carries a non-empty message, 'Registration failed'
   * when `detail` is absent or empty.
   */
  lemma RegisterNotOkThrows(body: Option<ErrorBody>)
    ensures RegisterResult(RegisterNotOk(body)).Threw?
    ensures RegisterResult(RegisterNotOk(body)).error.Rejected? ==>
              RegisterResult(RegisterNotOk(body)).error.message != ""
    ensures body == Some(DetailObject(Some(""))) ==>
              RegisterResult(RegisterNotOk(body)) == Threw(Rejected(RegistrationFailed))
  {
    assert RegistrationFailed != "";
  }

  /**
   * `getAuthHeader()`: built from the STORED token, whatever `user` says:
   * `{ Authorization: 'Bearer <token>' }` when it is truthy, `null` otherwise.
   */
  function HeaderFor(s: Session): (h: Option<Headers>)
    ensures h.Some? <==> Truthy(s.stored)
    ensures h.Some? ==> h.value == Headers(Some(Bearer(s.stored.value)))
  {
    var token := s.stored;
    if Truthy(token) then Some(Headers(Some(Bearer(token.value)))) else None
  }

  /** The children of the provider are rendered only when loading has ended. */
  predicate RendersChildren(s: Session) {
    !s.loading
  }

  /**
   * The user state and storage agree: before mounting there is no user; after
   * it, the user's token is truthy exactly when the stored one is, and then
   * they are the same token.
   */
  predicate Synced(s: Session) {
    (s.loading ==> s.user == None) &&
    (!s.loading ==> (Truthy(UserToken(s)) <==> Truthy(s.stored)) &&
                    (Truthy(s.stored) ==> UserToken(s) == s.stored))
  }

  /** The header depends on storage only: changing `user` does not change it. */
  lemma HeaderIgnoresUser(s: Session, u: Option<User>)
    ensures HeaderFor(s.(user := u)) == HeaderFor(s)
  {
  }

  /** Nothing is rendered before the mount effect, and everything after it. */
  lemma RenderingWaitsForMount(stored: Option<string>)
    ensures !RendersChildren(Fresh(stored))
    ensures RendersChildren(Mount(Fresh(stored)))
  {
  }

  /**
   * Mounting, logging in (which only rendered children can do, so after
   * mounting) and logging out keep user and storage in agreement.
   */
  lemma OperationsKeepSynced(s: Session, token: string, storageWritable: bool)
    requires Synced(s)
    ensures Synced(Mount(s))
    ensures !s.loading ==> Synced(LoginResult(s, token, storageWritable).0)
    ensures Synced(Logout(s))
  {
  }

  /**
   * Where the two variants' `getAuthHeader` differ, for a session whose user
   * and storage agree: with a token both give its Bearer header, without one
   * this variant gives `null` and the other `{}`.
   */
  lemma VariantsDifferOnlyWhenAbsent(s: Session)
    requires Synced(s) && !s.loading
    ensures AuthContext.HeaderFor(s).authorization.Some? ==> HeaderFor(s) == Some(AuthContext.HeaderFor(s))
    ensures AuthContext.HeaderFor(s).authorization.None? ==>
              HeaderFor(s) == None && AuthContext.HeaderFor(s) == Headers(None)
  {
    if Truthy(s.stored) {
      assert UserToken(s) == s.stored;
    }
  }

  /**
   * When storage and user disagree, the variants part ways: after the other
   * variant's login from a response without `access_token`, its own header is
   * `{}` while this one, reading the stored "undefined", sends
   * "Bearer undefined".
   */
  lemma VariantsDisagreeOnUndefinedToken(s: Session)
    ensures var r := AuthContext.LoginResult(s, AuthContext.LoginOk(Some(AuthContext.TokenObject(None))), true).0;
            AuthContext.HeaderFor(r) == Headers(None) &&
            HeaderFor(r) == Some(Headers(Some("Bearer undefined")))
  {
    assert Bearer("undefined") == "Bearer undefined";
  }

  /** The provider's state, changed in place by its operations. */
  class AuthProvider {
    var user: Option<User>
    var stored: Option<string>
    var loading: bool

    function State(): Session
      reads this
    {
      Session(user, stored, loading)
    }

    constructor (storedToken: Option<string>)
      ensures State() == Fresh(storedToken)
    {
      user := None;
      stored := storedToken;
      loading := true;
    }

    method MountEffect()
      modifies this
      ensures State() == Mount(old(State()))
    {
      var token := stored;
      if Truthy(token) {
        user := Some(User(token));
      }
      loading := false;
    }

    method Login(token: string, storageWritable: bool) returns (ok: bool)
      modifies this
      ensures (State(), ok) == LoginResult(old(State()), token, storageWritable)
    {
      if !storageWritable {
        return false;
      }
      stored := Some(token);
      user := Some(User(Some(token)));
      ok := true;
    }

    method Register(username: string, password: string, response: RegisterResponse) returns (outcome: RegisterOutcome)
      ensures outcome == RegisterResult(response)
    {
      match response {
        case RegisterOk => outcome := Registered;
        case RegisterThrown(message) => outcome := Threw(RequestFailed(message));
        case RegisterNotOk(None) => outcome := Threw(BodyNotJson);
        case RegisterNotOk(Some(NullBody)) => outcome := Threw(NullErrorBody);
        case RegisterNotOk(Some(DetailObject(detail))) =>
          outcome := Threw(Rejected(OrElse(detail, RegistrationFailed)));
      }
    }

    method Logout() returns (request: Option<string>)
      modifies this
      ensures request == LogoutRequest(old(State()))
      ensures State() == AuthSession.Logout(old(State()))
    {
      request := None;
      if user.Some? && Truthy(user.value.token) {
        request := Some(Bearer(user.value.token.value));
      }
      stored := None;
      user := None;
    }

    function GetAuthHeader(): (h: Option<Headers>)
      reads this
      ensures h.Some? <==> Truthy(stored)
      ensures h.Some? ==> h.value == Headers(Some(Bearer(stored.value)))
    {
      HeaderFor(State())
    }
  }
}
