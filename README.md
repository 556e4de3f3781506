# HIPAA summarizer front end: upload page, login page and session providers

This project models the client-side logic of a medical-record summarization portal. It covers:

- The PDF upload page (`app/components/pdfpload.jsx`):
  - a text helper that renders an elapsed number of seconds as an `MM:SS` clock (`formatTime`);
  - a text helper that cuts a summary paragraph at its `**…**` markup and turns the marked parts into bold segments (`parseBoldText`);
  - the page's upload state: `uploadStatus`, `isProcessing`, the seconds counter `processingTime`, `finalProcessingTime` and `summary`. `handleFileUpload` and the once-a-second timer effect update it.
- The login page (`app/components/Login.jsx`): the form-field update, the consent gate, and how `handleSubmit` turns the login request's outcome into either an error message or a token handed to the session.
- The two `AuthProvider` variants:
  - `app/context/AuthContext.jsx` keeps the token in the `user` state and performs the login request itself. The upload page imports its `useAuth` (app/components/pdfpload.jsx:5), but the app as written mounts only the other provider (app/layout.jsx:3, app/page.jsx:6). Read as written, the upload page's `useAuth()` then finds no provider and throws (app/context/AuthContext.jsx:101-105). The model studies this provider as if it were mounted;
  - `app/contexts/AuthContext.jsx` only records a token obtained elsewhere, reads the header token from storage, and re-throws registration errors.

Modules:

- `Wrappers`: `Option`.
- `Js`: the JavaScript built-ins the code relies on, written out:
  - `Number.prototype.toString` on integers;
  - the truncating `%` and `Math.floor(a / b)`;
  - `padStart` (which never truncates), `startsWith`, `endsWith` and `slice` with negative positions;
  - truthiness of a possibly absent string;
  - `a || b`;
  - `localStorage.setItem`'s conversion of its value to a string (`undefined` becomes `"undefined"`).
- `PdfText`: `formatTime` and `parseBoldText`.
  - `String.prototype.split` with a capturing regular expression is modelled the way the ECMAScript algorithm performs it: it tries a sticky match at each position, keeps the text before a match and the capture, and continues after the match.
  - `/(\*\*.*?\*\*)/g` is modelled exactly. Its lazy `.*?` stops at the first following `**` and does not cross a line terminator (`\n`, `\r`, U+2028, U+2029).
  - A declarative description of a split (`Tokenizes`) is proved to have `Split` as its only solution.
- `PdfUpload`:
  - the upload state as a value, with pure transitions `Tick`, `Begin` and `Finish`;
  - the class `UploadPage`, whose methods update the same fields in place and are proved equal to those transitions.
  - `handleFileUpload` is cut at the awaited request and body read, treated as one wait: nothing changes the page's state between `fetch` (line 64) and `response.json()` (line 76), and timer ticks arriving in either add up in `Ticks`.
- `AuthSession`: the parts both providers share. These are the session (`user`, stored token, `loading`), the mount effect and `logout`.
- `AuthContext` and `AuthContexts`: one module per provider variant. Each has pure results for `login`, `register` and `getAuthHeader`, and a class `AuthProvider` whose methods change the session in place.
- `Login`:
  - the response classification as a pure function;
  - the class `LoginPage`, whose methods update `formData`, `error`, `isLoading` and `hasConsent`.

Inputs instead of effects:

- The network is an input. Every request becomes a datatype of the ways it can end (rejected, not ok, ok with a body).
- `JSON.parse` / `response.json()` is abstracted to the value it yields, if any.
- `localStorage` is a field holding the stored token.
- Whether storage accepts the write of `localStorage.setItem` is a boolean input to both providers' `login`.
- Navigation is returned as a value.
- Timer ticks are explicit events.

The upload page reads one JSON body; it has no line-by-line progress stream. An upload without a token goes out without an `Authorization` header.

## Model

| member | source | states |
|---|---|---|
| Js.NatToString | app/components/pdfpload.jsx:24 | `toString()` of a non-negative integer is a non-empty string of decimal digits with no leading zero |
| Js.NatToStringValue | app/components/pdfpload.jsx:24 | those digits read back as exactly the integer |
| Js.IntToString | app/components/pdfpload.jsx:24 | `toString()` of an integer: the digits of a non-negative one, and '-' followed by the digits of the magnitude for a negative one |
| Js.Slice | app/components/pdfpload.jsx:13 | `slice(start, end)` is never longer than the string; it is exactly `s[start..end]` for positions inside it, and for a negative end (as in `slice(2, -2)`) it ends `-end` characters before the end of the string, or is empty when that lies before `start` |
| Js.Remainder | app/components/pdfpload.jsx:23 | JavaScript `%`: the remainder has the sign of the dividend and the size of the Euclidean remainder of its magnitude |
| Js.FloorDiv | app/components/pdfpload.jsx:22 | `Math.floor(a / b)` is the quotient q with q·b ≤ a < q·b + b |
| Js.PadStart | app/components/pdfpload.jsx:24 | `padStart(w, c)` gives length max(\|s\|, w), ends with `s` unchanged, and every added character is `c`: it never truncates |
| Js.OrElse | app/components/Login.jsx:70-72 | `a \|\| b` on strings: `a` when it is present and non-empty, else `b` |
| Js.ToStorageString | app/context/AuthContext.jsx:35 | storage keeps `String(value)`: a present token as itself, an absent one as "undefined" |
| PdfText.ClockFieldValue | app/components/pdfpload.jsx:24 | a clock field is at least two characters long; for a non-negative value it is digits worth the value, and exactly two of them below 100 |
| PdfText.FormatTime | app/components/pdfpload.jsx:21-25 | `formatTime` itself: two padded fields around a colon, at least five characters whatever the count |
| PdfText.FormatTimeFields | app/components/pdfpload.jsx:22-23 | for non-negative seconds, minutes·60 + seconds-field == seconds and the seconds field is below 60 |
| PdfText.FormatTimeIsClock | app/components/pdfpload.jsx:21-25 | `formatTime(s)` is a minutes field of at least two digits worth s / 60, with 100 minutes or more not truncated, then a colon, then two digits worth s % 60; reading the clock back gives s |
| PdfText.FormatTimeZero | app/components/pdfpload.jsx:21-25 | `formatTime(0) == "00:00"` |
| PdfText.FormatTimeNegative | app/components/pdfpload.jsx:22-24 | a negative count shows JavaScript arithmetic: `formatTime(-1) == "-1:-1"` |
| PdfText.FindClose | app/components/pdfpload.jsx:9 | the lazy `.*?\*\*` from a position: a closing marker found lies at or after it and fits in the text |
| PdfText.MatchAt | app/components/pdfpload.jsx:9 | the match of the pattern that starts at a position: when there is one it is at least four characters (two markers) and ends inside the text |
| PdfText.SplitFrom | app/components/pdfpload.jsx:9 | `split` from a position, as the ECMAScript algorithm performs it: always an odd number of parts, text and captures alternating |
| PdfText.Split | app/components/pdfpload.jsx:9 | `text.split(/(\*\*.*?\*\*)/g)`: an odd number of parts |
| PdfText.FindCloseIsNearest | app/components/pdfpload.jsx:9 | the lazy `.*?\*\*` stops at the first `**` that has no line terminator before it, and finds nothing when every later `**` has one before it |
| PdfText.MatchAtIsShortest | app/components/pdfpload.jsx:9 | the match found at a position is in the pattern's language, is the shortest such piece, and has no `**` between its markers; when nothing is found, no piece from there is in the language |
| PdfText.SplitParts | app/components/pdfpload.jsx:9 | the split parts concatenate back to the text in order; there is an odd number of them; every odd-numbered part is a whole lazy `**…**` match; no match begins inside an even-numbered part |
| PdfText.SplitIsTheTokenization | app/components/pdfpload.jsx:9 | a list of parts satisfies the declarative description of the split if and only if it is the split |
| PdfText.TextPartHasNoMatch | app/components/pdfpload.jsx:9 | no match of the pattern begins anywhere inside a plain-text part of a tokenization |
| PdfText.SplitWithoutMarkers | app/components/pdfpload.jsx:9 | a paragraph without `**` splits into itself alone |
| PdfText.RenderPart | app/components/pdfpload.jsx:11-16 | a part gives a bold segment exactly when it starts and ends with `**`; the bold text is the part without two characters at each end (empty for `**` and `***`); any other part is returned unchanged |
| PdfText.ShortMarkerParts | app/components/pdfpload.jsx:11-14 | `"**"` and `"***"` become `Bold("")`, and the empty part stays `Plain("")` |
| PdfText.ParseBoldText | app/components/pdfpload.jsx:8-18 | `parseBoldText`: exactly one segment per part of the split, so an odd number of them |
| PdfText.ParseBoldTextSegments | app/components/pdfpload.jsx:8-18 | one segment per part, in place; each match becomes bold text with its markers removed and no `**` inside; every other part is rendered as its own contents |
| PdfText.ParseBoldTextWithoutMarkers | app/components/pdfpload.jsx:8-18 | a paragraph without `**` is one plain segment holding the whole paragraph |
| PdfText.ParseBoldTextExamples | app/components/pdfpload.jsx:8-18 | `"a **b** c"` gives plain "a ", bold "b", plain " c" |
| PdfUpload.Tick | app/components/pdfpload.jsx:39-42 | while processing, a tick adds exactly one to the counter and changes nothing else; otherwise it changes nothing |
| PdfUpload.Begin | app/components/pdfpload.jsx:49-62 | a file that is not `application/pdf` changes nothing; a PDF sets 'processing', starts processing with the counter at 0, clears the final time and keeps the summary |
| PdfUpload.Finish | app/components/pdfpload.jsx:72-87 | both endings stop processing, with the counter reset to 0; success sets 'success', the data as summary and the captured counter as final time; failure sets 'error' and keeps summary and final time |
| PdfUpload.Upload | app/components/pdfpload.jsx:49-88 | `handleFileUpload` as written: a refused file changes nothing; an accepted one ends not processing with the counter at 0, in 'error' on failure, and on success in 'success' with the data as summary and the counter captured at the call as final time |
| PdfUpload.UploadIntended | app/components/pdfpload.jsx:80 | the same handler recording the live counter: on success the final time is the number of ticks the request waited |
| PdfUpload.InitialConsistent | app/components/pdfpload.jsx:29-33 | the first render is consistent, with status '' and no final time |
| PdfUpload.TicksCount | app/components/pdfpload.jsx:37-47 | n ticks add exactly n to the counter while processing and do nothing otherwise |
| PdfUpload.StepsKeepConsistent | app/components/pdfpload.jsx:37-87 | ticks, the start and the end of an upload all keep the page consistent: the processing flag matches the status, and the counter is non-negative and 0 when idle |
| PdfUpload.UploadOutcome | app/components/pdfpload.jsx:49-88 | a refused file changes nothing; after any number of ticks, an accepted upload ends either in 'success' with the data as summary or in 'error' with the summary kept, never processing and with the counter at 0 |
| PdfUpload.FinalTimeAsWritten | app/components/pdfpload.jsx:80 | as written, for an upload started while idle, the final time recorded on success is 0, shown as "00:00", however long the request was pending |
| PdfUpload.FinalTimeAsWrittenExample | app/components/pdfpload.jsx:80 | after five seconds of waiting, the page as written records 0 where the intended page records 5 |
| PdfUpload.FinalTimeIntended | app/components/pdfpload.jsx:80 | recording the live counter gives exactly the number of seconds the request was pending, and leaves the rest of the resulting state as in the page as written |
| PdfUpload.UploadPage.constructor | app/components/pdfpload.jsx:29-33 | the fields start in the initial state |
| PdfUpload.UploadPage.TimerTick | app/components/pdfpload.jsx:39-42 | a firing of the interval updates the fields as `Tick` does |
| PdfUpload.UploadPage.BeginUpload | app/components/pdfpload.jsx:49-62 | accepts exactly a PDF, returns the counter the handler captured, and updates the fields as `Begin` does |
| PdfUpload.UploadPage.FinishUpload | app/components/pdfpload.jsx:72-87 | updates the fields as `Finish` does, including the timer effect's reset |
| AuthSession.Bearer | app/context/AuthContext.jsx:71 | the header value is "Bearer " followed by exactly the token |
| AuthSession.Mount | app/context/AuthContext.jsx:11-18 | the mount effect ends loading; a truthy stored token becomes the user, and otherwise the user is kept |
| AuthSession.MountRestoresUser | app/contexts/AuthContext.jsx:11-18 | on a fresh provider, mounting yields a user if and only if a truthy token is stored, and that user holds that token |
| AuthSession.LogoutRequest | app/context/AuthContext.jsx:65-74 | the logout request is sent if and only if the user's token is truthy, and it carries that token's Bearer header |
| AuthSession.Logout | app/context/AuthContext.jsx:75-80 | whatever the request does, logout removes the stored token and clears the user |
| AuthSession.LogoutThenNoRequest | app/contexts/AuthContext.jsx:57-73 | after logout a second logout sends no request and leaves the session as it is |
| AuthContext.LoginResult | app/context/AuthContext.jsx:20-42 | login returns true exactly when storage accepts the write and the response is ok with an object body; it then stores `String(access_token)` and makes it the user's token; every failure, a refused storage write included, returns false and leaves the session unchanged |
| AuthContext.RegisterResult | app/context/AuthContext.jsx:44-63 | register returns true if and only if the response is ok |
| AuthContext.HeaderFor | app/context/AuthContext.jsx:83-85 | the header is the Bearer header exactly when the user's token is truthy, and `{}` otherwise |
| AuthContext.AuthProvider.GetAuthHeader | app/context/AuthContext.jsx:83-85 | over the provider's fields: an `Authorization` value exactly when the user's token is truthy, and then "Bearer " and that token |
| AuthContext.LoginWithToken | app/context/AuthContext.jsx:34-37 | a login with a token stores it, sets the user to it, returns true, and later upload requests carry its Bearer header, when this provider is the one mounted around the upload page |
| AuthContext.LoginFailureKeepsSession | app/context/AuthContext.jsx:30-41 | a rejected request, a response that is not ok, a body that is not JSON or is null, or a storage write that throws gives false and leaves storage and the user unchanged |
| AuthContext.LoginWithoutToken | app/context/AuthContext.jsx:34-37 | an ok response without `access_token` still returns true and stores "undefined"; the header is `{}` until a remount from storage makes it "Bearer undefined" |
| AuthContext.NoTokenNoHeader | app/context/AuthContext.jsx:84 | without a truthy user token the header object is empty |
| AuthContext.AuthProvider.constructor | app/context/AuthContext.jsx:7-9 | a provider starts with no user and loading, over whatever storage holds |
| AuthContext.AuthProvider.MountEffect | app/context/AuthContext.jsx:11-18 | the fields change as `Mount` says |
| AuthContext.AuthProvider.Login | app/context/AuthContext.jsx:20-42 | the fields and the result change as `LoginResult` says, with the refused storage write returning false before the user is set |
| AuthContext.AuthProvider.Register | app/context/AuthContext.jsx:44-63 | the result is `RegisterResult`, and the session is not touched |
| AuthContext.AuthProvider.Logout | app/context/AuthContext.jsx:65-81 | returns the request header that `LogoutRequest` gives for the session before the call, and changes the fields as `Logout` does |
| AuthContexts.LoginResult | app/contexts/AuthContext.jsx:20-29 | `login(token)` stores the token, sets the user to it and returns true; when storage refuses, it returns false and changes nothing |
| AuthContexts.RegisterResult | app/contexts/AuthContext.jsx:31-55 | register resolves if and only if the response is ok; a rejected request is re-thrown unchanged; a response that is not ok throws the server's truthy `detail`, or 'Registration failed' when `detail` is missing or empty; a body that is not JSON, or is `null`, throws the parse or property-read error |
| AuthContexts.RegisterNotOkThrows | app/contexts/AuthContext.jsx:43-47 | a response that is not ok always throws; a refusal always carries a non-empty message, 'Registration failed' for an empty `detail` |
| AuthContexts.HeaderFor | app/contexts/AuthContext.jsx:75-78 | the header comes from the stored token: the Bearer header exactly when it is truthy, and `null` otherwise |
| AuthContexts.AuthProvider.GetAuthHeader | app/contexts/AuthContext.jsx:75-78 | over the provider's fields: a header object exactly when the stored token is truthy, holding "Bearer " and that token |
| AuthContexts.RendersChildren | app/contexts/AuthContext.jsx:91 | `{!loading && children}`: the children are rendered once loading has ended |
| AuthContexts.HeaderIgnoresUser | app/contexts/AuthContext.jsx:75-78 | changing the user never changes the header |
| AuthContexts.RenderingWaitsForMount | app/contexts/AuthContext.jsx:89-93 | children are not rendered before the mount effect and are rendered after it |
| AuthContexts.OperationsKeepSynced | app/contexts/AuthContext.jsx:11-73 | mount, login after mounting, and logout keep the user's token and the stored token in agreement |
| AuthContexts.VariantsDifferOnlyWhenAbsent | app/contexts/AuthContext.jsx:75-78 | when user and storage agree, both variants give the same Bearer header for a token; without one this variant gives `null` and the other `{}` |
| AuthContexts.VariantsDisagreeOnUndefinedToken | app/contexts/AuthContext.jsx:75-78 | after the other variant's login without `access_token`, that variant sends no header and this one sends "Bearer undefined" |
| AuthContexts.AuthProvider.constructor | app/contexts/AuthContext.jsx:7-9 | a provider starts with no user and loading, over whatever storage holds |
| AuthContexts.AuthProvider.MountEffect | app/contexts/AuthContext.jsx:11-18 | the fields change as `Mount` says |
| AuthContexts.AuthProvider.Login | app/contexts/AuthContext.jsx:20-29 | the fields and the result change as `LoginResult` says |
| AuthContexts.AuthProvider.Register | app/contexts/AuthContext.jsx:31-55 | the outcome is `RegisterResult`, and the session is not touched |
| AuthContexts.AuthProvider.Logout | app/contexts/AuthContext.jsx:57-73 | returns the request header that `LogoutRequest` gives for the session before the call, and changes the fields as `Logout` does |
| Login.WithField | app/components/Login.jsx:19-24 | the named field takes the new value, every other field keeps its own, and no other field appears |
| Login.NotOkMessage | app/components/Login.jsx:66-75 | the error thrown for a response that is not ok is never empty |
| Login.Classify | app/components/Login.jsx:46-90 | the `try` of `handleSubmit`, including a body read that rejects: a login results only from a response that arrived, whose body was read and which is ok, and its token is never empty |
| Login.ShownError | app/components/Login.jsx:93 | `err.message \|\| fallback`: the shown error is never empty, and is the message itself whenever that is not empty |
| Login.BodyUnreadableMessage | app/components/Login.jsx:63-93 | a rejected `response.text()` bypasses the `.catch` on `fetch`: the page shows the rejection's own message, or the fallback when that is empty, and no login happens |
| Login.UnreachableMessage | app/components/Login.jsx:57-60 | a request that cannot reach the server shows exactly the fixed network message |
| Login.NotOkMessages | app/components/Login.jsx:66-75 | a response that is not ok gives the parsed `detail` if truthy, else 'Login failed'; a body that does not parse, or parses to `null`, gives the raw text if it is not empty, else 'Login failed' |
| Login.OkBodyErrors | app/components/Login.jsx:77-86 | an ok response whose body does not parse gives 'Invalid server response'; a `null` body fails on reading `access_token` |
| Login.LoggedInExactlyWithToken | app/components/Login.jsx:85-90 | the login happens if and only if an ok response parses to a value with a truthy `access_token`, and uses that token; otherwise the message is 'No access token received' |
| Login.FallbackNeverShown | app/components/Login.jsx:91-93 | every message the page throws itself is non-empty and is shown as it is; the fallback text takes the place of the message exactly for a rejected body read with an empty message |
| Login.LoginPage.constructor | app/components/Login.jsx:9-15 | the form is empty, with no error, not loading and no consent |
| Login.LoginPage.HandleChange | app/components/Login.jsx:19-24 | the form changes as `WithField` says, and nothing else changes |
| Login.LoginPage.HandleConsentChange | app/components/Login.jsx:26-28 | only the consent flag changes, to the checkbox's value |
| Login.LoginPage.BeginSubmit | app/components/Login.jsx:30-39 | the submit proceeds exactly with consent; it first clears the error; without consent it shows the consent message and leaves `isLoading` as it was; otherwise loading starts |
| Login.LoginPage.FinishSubmit | app/components/Login.jsx:46-96 | loading always ends; with a token the provider's session changes as its `login` says and the router is sent to "/"; otherwise the message is shown and the session is untouched |

## Left out

- Encryption and base64: the helpers live in `app/utils/encryption`, and app/utils/encryption is not part of this model. `app/hooks/useFileUpload.jsx` and `app/api/encrypt-pdf/route.jsx` only wrap them, WebCrypto and `fetch`.
- Reading a progress stream: no such code exists. The upload page reads one JSON body.
- The component tree: which provider surrounds which page is not modelled. Each provider is studied as if it were mounted; as written, the upload page's `useAuth()` would throw, because the `app/context/` provider is never mounted.
- The network, `localStorage` and the router are modelled as inputs and fields, not performed. In both providers' `login`, a `localStorage.setItem` that throws is a boolean input: the `catch` then returns false before `setUser` runs.
- `setInterval` and `clearInterval`: ticks are explicit events, with no real time. Several ticks pending at once and a tick racing `setIsProcessing(false)` are not modelled.
- React's batching and re-rendering: each handler's setters are applied in order as one step.
- The summary's rendering (the paragraph split and the JSX around `parseBoldText`), drag-and-drop handlers, `alert` and `console` calls, and all markup.
- `app/components/logout.jsx`, `app/page.jsx`, `app/layout.jsx` and `app/config.js`: UI, routing and deployment constants.
- Server behaviour: summarisation, PHI checks and token issuance.
- JSON values are abstracted. `detail` and `access_token` are strings or absent. A number or object in those fields, which JavaScript would coerce, is not modelled. The upload body is abstracted the same way: `setSummary(data)` stores whatever `response.json()` yields, and the model takes it to be a string; an object or number there would make `summary.split('\n')` at app/components/pdfpload.jsx:185 throw.
- JavaScript numbers are doubles: `toString` switches to exponent notation from 1e21 on, and integers lose precision above 2^53. The model's integers are unbounded; no seconds counter reaches these values.
- Strings are sequences of characters. JavaScript's UTF-16 code units, and so surrogate pairs, are not distinguished.
- PdfText.FormatTime: fractional seconds are not modelled (the counter only takes integer values). For negative counts the JavaScript arithmetic is modelled but not proved to round-trip.
- Login.OkBodyErrors: the message for a `null` body is the one this model fixes for V8's TypeError. Other engines word it differently.
- The request bodies and headers themselves (JSON encoding of username, password, role and extra user data, the `FormData`) are not modelled. Only whether the logout request is sent, and its `Authorization` value, are.

## Findings

| source | as written | input that shows it | evidently intended | confidence | as-written member | corrected member |
|---|---|---|---|---|---|---|
| app/components/pdfpload.jsx:80 | `setFinalProcessingTime(processingTime)` reads the counter captured when the handler was created, which is 0 while idle | a PDF whose request resolves after 5 ticks records a final time of 0, shown as "00:00" | record the seconds the counter reached while the request was pending | not executed | PdfUpload.FinalTimeAsWritten | PdfUpload.FinalTimeIntended |
