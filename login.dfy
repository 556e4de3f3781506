/**
 * The login page (app/components/Login.jsx): the form fields, the consent
 * checkbox, and `handleSubmit`, which gates on consent, sends the login
 * request, and classifies what comes back into either an error message or
 * a token that it hands to the storage-backed `AuthProvider`.
 *
 * The request's outcome is an input. `JSON.parse` is abstracted to the
 * value it yields, if any: `null`, or a value with possibly absent `detail`
 * and `access_token` fields (strings, numbers and arrays parse to values
 * whose fields are both absent).
 */
module Login {
  import opened Wrappers
  import opened Js
  import AuthSession
  import AuthContexts

  /** The form state, `{ username, password }`, keyed by each input's `name`. */
  type Form = map<string, string>

  function InitialForm(): Form {
    map["username" := "", "password" := ""]
  }

  /**
   * `handleChange`: `{ ...formData, [name]: value }`. The named field gets
   * the new value; every other field keeps its own.
   */
  function WithField(form: Form, name: string, value: string): (r: Form)
    ensures r.Keys == form.Keys + {name}
    ensures r[name] == value
    ensures forall k :: k in form && k != name ==> r[k] == form[k]
  {
    form[name := value]
  }

  const ConsentMessage := "Please accept the HIPAA/PHI compliance terms to log in."
  const NetworkMessage := "Network error: Unable to reach the server. Please check your internet connection."
  const LoginFailed := "Login failed"
  const InvalidResponse := "Invalid server response"
  const NoTokenMessage := "No access token received"
  const FallbackMessage := "Failed to login. Please try again."
  /** What V8 says when `data.access_token` is read from `null`. */
  const NullBodyMessage := "Cannot read properties of null (reading 'access_token')"

  datatype Json = JsonNull | JsonValue(detail: Option<string>, accessToken: Option<string>)

  /** A response: its `ok` flag, its body text, and what that text parses to, if it parses. */
  datatype Response = Response(ok: bool, text: string, parsed: Option<Json>)

  /**
   * The login request: `fetch` rejected, the response arrived but reading
   * its body (`response.text()`) rejected with the given message, or the
   * response and its body text arrived.
   */
  datatype Attempt = Unreachable | BodyUnreadable(message: string) | Reached(response: Response)

  datatype SubmitResult = Rejected(message: string) | LoggedIn(token: string)

  /**
   * The message thrown for a response that is not ok: the parsed `detail`
   * when truthy, else 'Login failed'; a body that does not parse, or parses
   * to `null` (reading `detail` of `null` throws inside the same `try`),
   * falls back to the raw text when it is not empty, else 'Login failed'.
   */
  function NotOkMessage(r: Response): (m: string)
    ensures m != ""
  {
    match r.parsed
    case Some(JsonValue(detail, _)) => OrElse(detail, LoginFailed)
    case _ => OrElse(Some(r.text), LoginFailed)
  }

  /** Everything `handleSubmit` does after the consent gate, up to the `catch`. */
  function Classify(a: Attempt): (r: SubmitResult)
    ensures r.LoggedIn? ==> a.Reached? && a.response.ok && r.token != ""
  {
    match a
    case Unreachable => Rejected(NetworkMessage)
    case BodyUnreadable(message) => Rejected(message)
    case Reached(r) =>
      if !r.ok then Rejected(NotOkMessage(r))
      else match r.parsed
        case None => Rejected(InvalidResponse)
        case Some(JsonNull) => Rejected(NullBodyMessage)
        case Some(JsonValue(_, token)) =>
          if Truthy(token) then LoggedIn(token.value) else Rejected(NoTokenMessage)
  }

  /** The error the `catch` shows: the message, or the fallback when the message is empty. */
  function ShownError(message: string): (shown: string)
    ensures shown != ""
    ensures message != "" ==> shown == message
  {
    if message == "" then FallbackMessage else message
  }

  /** A network failure always shows the fixed network message, nothing else. */
  lemma UnreachableMessage()
    ensures Classify(Unreachable) == Rejected(NetworkMessage)
    ensures ShownError(NetworkMessage) == NetworkMessage
  {
  }

  /**
   * A body read that rejects is not converted by the `.catch` on `fetch`: the
   * page shows the rejection's own message, or the fallback when that is
   * empty, and no login happens.
   */
  lemma BodyUnreadableMessage(message: string)
    ensures Classify(BodyUnreadable(message)) == Rejected(message)
    ensures ShownError(Classify(BodyUnreadable(message)).message) ==
              if message != "" then message else FallbackMessage
  {
  }

  /**
   * The message for a response that is not ok: from a parsed body, `detail`
   * if truthy else 'Login failed'; from a body that does not parse, or
   * parses to `null` (reading its `detail` throws inside the same `try`), the
   * raw text if it is not empty else 'Login failed'.
   */
  lemma NotOkMessages(r: Response)
    requires !r.ok
    ensures r.parsed.Some? && r.parsed.value.JsonValue? ==>
              Classify(Reached(r)) == Rejected(if Truthy(r.parsed.value.detail) then r.parsed.value.detail.value else LoginFailed)
    ensures r.parsed.None? ==>
              Classify(Reached(r)) == Rejected(if r.text != "" then r.text else LoginFailed)
    ensures r.parsed == Some(JsonNull) ==>
              Classify(Reached(r)) == Rejected(if r.text != "" then r.text else LoginFailed)
  {
  }

  /**
   * An ok response whose body does not parse is an invalid server response;
   * one whose body is `null` fails on reading `access_token` from it.
   */
  lemma OkBodyErrors(text: string)
    ensures Classify(Reached(Response(true, text, None))) == Rejected(InvalidResponse)
    ensures Classify(Reached(Response(true, text, Some(JsonNull)))) == Rejected(NullBodyMessage)
  {
  }

  /**
   * Logging in happens exactly for an ok response that parses to a value with
   * a truthy `access_token`, and with that token; an ok, parsed value
   * without one is 'No access token received'.
   */
  lemma LoggedInExactlyWithToken(a: Attempt)
    ensures Classify(a).LoggedIn? <==>
              a.Reached? && a.response.ok && a.response.parsed.Some? &&
              a.response.parsed.value.JsonValue? && Truthy(a.response.parsed.value.accessToken)
    ensures Classify(a).LoggedIn? ==> Classify(a).token == a.response.parsed.value.accessToken.value
    ensures (a.Reached? && a.response.ok && a.response.parsed.Some? && a.response.parsed.value.JsonValue? &&
             !Truthy(a.response.parsed.value.accessToken)) ==> Classify(a) == Rejected(NoTokenMessage)
  {
  }

  /**
   * No message the page throws itself is ever empty, so the fallback text
   * takes the place of the message only for a rejected body read whose own
   * message is empty.
   */
  lemma FallbackNeverShown(a: Attempt)
    ensures Classify(a).Rejected? && !a.BodyUnreadable? ==>
              Classify(a).message != "" && ShownError(Classify(a).message) == Classify(a).message
    ensures Classify(a).Rejected? ==>
              (ShownError(Classify(a).message) != Classify(a).message <==> a == BodyUnreadable(""))
  {
    match a
    case Unreachable =>
    case BodyUnreadable(_) =>
    case Reached(r) =>
      if !r.ok {
        assert LoginFailed != "";
      }
  }

  /** The page's state, changed in place by its handlers. */
  class LoginPage {
    var formData: Form
    var error: string
    var isLoading: bool
    var hasConsent: bool

    constructor ()
      ensures formData == InitialForm() && error == "" && !isLoading && !hasConsent
    {
      formData := InitialForm();
      error := "";
      isLoading := false;
      hasConsent := false;
    }

    method HandleChange(name: string, value: string)
      modifies this
      ensures formData == WithField(old(formData), name, value)
      ensures error == old(error) && isLoading == old(isLoading) && hasConsent == old(hasConsent)
    {
      formData := formData[name := value];
    }

    method HandleConsentChange(checked: bool)
      modifies this
      ensures hasConsent == checked
      ensures formData == old(formData) && error == old(error) && isLoading == old(isLoading)
    {
      hasConsent := checked;
    }

    /**
     * `handleSubmit` up to the request. It first clears the error; without
     * consent it sets the consent message and stops, sending nothing and
     * leaving `isLoading` alone; otherwise loading starts.
     */
    method BeginSubmit() returns (proceed: bool)
      modifies this
      ensures proceed == hasConsent
      ensures !proceed ==> error == ConsentMessage && isLoading == old(isLoading)
      ensures proceed ==> error == "" && isLoading
      ensures formData == old(formData) && hasConsent == old(hasConsent)
    {
      error := "";
      if !hasConsent {
        error := ConsentMessage;
        return false;
      }
      isLoading := true;
      proceed := true;
    }

    /**
     * `handleSubmit` once the request has settled: on a token, `login(token)`
     * of the storage-backed provider and navigation to "/"; otherwise the
     * error message is shown. Either way loading ends (the `finally`).
     * Returns where the router is sent, if anywhere.
     */
    method FinishSubmit(attempt: Attempt, auth: AuthContexts.AuthProvider, storageWritable: bool)
      returns (navigateTo: Option<string>)
      modifies this, auth
      ensures !isLoading
      ensures formData == old(formData) && hasConsent == old(hasConsent)
      ensures Classify(attempt).LoggedIn? ==>
                error == old(error) && navigateTo == Some("/") &&
                auth.State() == AuthContexts.LoginResult(old(auth.State()), Classify(attempt).token, storageWritable).0
      ensures Classify(attempt).Rejected? ==>
                error == ShownError(Classify(attempt).message) && navigateTo == None &&
                auth.State() == old(auth.State())
    {
      var result := Classify(attempt);
      navigateTo := None;
      match result {
        case LoggedIn(token) =>
          var _ := auth.Login(token, storageWritable);
          navigateTo := Some("/");
        case Rejected(message) =>
          error := ShownError(message);
      }
      isLoading := false;
    }
  }
}
