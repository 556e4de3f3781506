/**
 * What the two `AuthProvider` variants (app/context/AuthContext.jsx and
 * app/contexts/AuthContext.jsx) have in common: the session they keep, the
 * mount effect that restores it from storage, and `logout`, all of which the
 * two files write identically.
 *
 * `user` is the React state (`null` or `{ token }`, where `token` may be
 * `undefined`), `stored` is `localStorage.getItem('token')` (`null` or a
 * string) and `loading` is true until the mount effect has run.
 */
module AuthSession {
  import opened Wrappers
  import opened Js

  datatype User = User(token: Option<string>)

  datatype Session = Session(user: Option<User>, stored: Option<string>, loading: bool)

  /** The request headers an object such as `{ Authorization: … }` or `{}` contributes. */
  datatype Headers = Headers(authorization: Option<string>)

  /** The header value `Bearer ${token}`. */
  function Bearer(token: string): (v: string)
    ensures StartsWith(v, "Bearer ") && v[7..] == token
  {
    "Bearer " + token
  }

  /** `user?.token`, as a value that may be absent. */
  function UserToken(s: Session): Option<string> {
    match s.user
    case Some(u) => u.token
    case None => None
  }

  /** A provider as it is first rendered: no user, loading, over whatever storage holds. */
  function Fresh(stored: Option<string>): Session {
    Session(None, stored, true)
  }

  /**
   * The mount effect: a stored token that is truthy becomes the user; a
   * missing or empty one leaves the user as it is; loading ends either way.
   */
  function Mount(s: Session): (r: Session)
    ensures !r.loading && r.stored == s.stored
    ensures Truthy(s.stored) ==> r.user == Some(User(s.stored))
    ensures !Truthy(s.stored) ==> r.user == s.user
  {
    var token := s.stored;
    if Truthy(token) then s.(user := Some(User(token)), loading := false)
    else s.(loading := false)
  }

  /**
   * On a freshly rendered provider, mounting yields a user exactly when a
   * truthy token is stored, and then the user holds that very token.
   */
  lemma MountRestoresUser(stored: Option<string>)
    ensures var r := Mount(Fresh(stored));
            !r.loading && r.stored == stored &&
            (r.user.Some? <==> Truthy(stored)) &&
            (r.user.Some? ==> r.user.value.token == stored)
  {
  }

  /**
   * The logout request: it is sent, carrying `Bearer <token>`, only when the
   * user holds a truthy token. The value is its `Authorization` header.
   */
  function LogoutRequest(s: Session): (header: Option<string>)
    ensures header.Some? <==> Truthy(UserToken(s))
    ensures header.Some? ==> header.value == Bearer(UserToken(s).value)
  {
    if Truthy(UserToken(s)) then Some(Bearer(UserToken(s).value)) else None
  }

  /**
   * `logout`: whether the request succeeds or throws, the `finally` block
   * removes the stored token and clears the user.
   */
  function Logout(s: Session): (r: Session)
    ensures r.user == None && r.stored == None && r.loading == s.loading
  {
    s.(user := None, stored := None)
  }

  /** After `logout` no token is left, so a second `logout` sends nothing. */
  lemma LogoutThenNoRequest(s: Session)
    ensures LogoutRequest(Logout(s)) == None
    ensures Logout(Logout(s)) == Logout(s)
  {
  }
}
