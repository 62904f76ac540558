# coco-native: network engine, session, URL helpers, deep links and sign-up

This project models the client core of the coco-native mobile app in Dafny
and proves properties of the model. It covers six parts:

- **The network engine** (`network.dfy`). It normalises responses. It runs
  the long-poll loop: while the server answers `{msg: "Still Processing"}`,
  the engine waits the `sleep` the server gave and polls the resource again
  with `task_id` appended. It also keeps a single-flight busy flag. The
  transport is a script of replies, and running out of replies means the
  call is still waiting. The engine is a class whose state holds the busy
  flag, the replies not yet delivered and a log of requests and waits.
- **The authentication session** (`authentication.dfy`). It handles sign-up
  (a JSON POST to the registration endpoint), sign-in (a POST carrying
  HTTP Basic credentials, base 64 per section 4 of RFC 4648, in
  `base64.dfy`) and sign-out. Its authenticated fetch adds the bearer token.
  The session is a class over the engine.
- **The URL helpers** (`url_helpers.dfy`). `fromEndpointAndParams` builds a
  query string. `parseDeepLinkURL` parses the query of a deep link into a
  record. `encodeURIComponent` and `decodeURIComponent` are modelled
  exactly over UTF-8 in `uri_coding.dfy`, and string `split`, `join` and
  `indexOf` are in `strings.dfy`.
- **The deep-link bridge** of the `Link` component (`link.dfy`). It covers
  the OAuth callback URL, the value handed to the callback, the
  subscription, and the press handler that opens the target with
  `platform=mobile` appended.
- **The sign-up screen** (`signup.dfy`). It covers the form validator, the
  submit gate, and the messages, navigation and alerts that follow the
  session's answer.
- **The `Result` record** (`result.dfy`). It carries `data` or an `error`
  message, as its tests pin it. `getData` and `getError` throw on the wrong
  variant, and the throw is modelled as a value.

JavaScript values are the `Json` datatype of `js_values.dfy`. That file also
models truthiness, `||` defaulting and `String(...)`.

Some behaviour of the code is easy to misread, and the model keeps to what
the code does:

- **Signed-in invariant.** The session keeps only one direction of "no
  token exactly when no user": a session with a token has a user
  (`Authentication.StepsKeepTokenHasUser`). A sign-up answer without `jwt`
  stores a user with an empty token
  (`Authentication.SignUpWithoutJwtKeepsUser`), and so does a sign-in answer
  without `token` (`Authentication.SignInWithoutTokenKeepsUser`).
- **Sign-in fields.** Sign-in does not insist on `token` or `userid` in the
  answer: each defaults to `''` (`Authentication.SignInStep`).
- **Non-JSON bodies.** A body without a JSON content type keeps `isOk`
  equal to the transport's `ok` and is returned as text. Only a JSON body
  that fails to parse becomes a failure with empty data
  (`Network.FromResponse`).
- **Busy flag.** The flag is cleared once the loop returns, so a call still
  waiting for the network leaves it set (`Network.NetworkEngine.Fetch`).
- **Link test.** The `Link` test (`__tests__/Link.test.tsx:31-32`) expects
  the target to be opened unchanged, but the press handler appends
  `platform=mobile` (`DeepLink.PressOpensOnlyWhenSupported`).
- **`__proto__` in a deep link.** `parseDeepLinkURL` writes into a plain
  object, whose inherited `__proto__` setter ignores a string, so a
  `__proto__` parameter never appears in the record
  (`UrlHelpers.ProtoKeyIgnored`).

## Model

| member | source | states |
|---|---|---|
| Results.GetData | __tests__/Result.test.tsx:22-28 | yields a value exactly for a non-error result, and it is that result's data; otherwise throws "tried to get data on erroneous result" |
| Results.GetError | __tests__/Result.test.tsx:30-36 | yields a value exactly for an error result, and it is its message; otherwise throws "tried to get error on valid result" |
| Results.SuccessRecord | __tests__/Result.test.tsx:3-7 | `result(x)` has data `x` and error `''`, is not an error, `getData` gives `x` and `getError` throws |
| Results.FailureRecord | __tests__/Result.test.tsx:9-13 | `error(m)` has no data and error `m`, is an error, `getError` gives `m` and `getData` throws |
| Results.OneFieldActive | __tests__/Result.test.tsx:15-20 | `isError` holds exactly when there is no data; a success has error `''`, a failure is rebuilt from its message |
| Strings.IndexOf | src/helpers/URL.tsx:23 | `indexOf` of an occurring character is a position holding it with no earlier occurrence |
| Strings.Split | src/helpers/URL.tsx:28 | `split` gives at least one piece and no piece contains the separator |
| Strings.JoinSplit | src/helpers/URL.tsx:28 | joining the pieces of a split gives back the text |
| Strings.SplitJoin | src/helpers/URL.tsx:11-16 | splitting a join of separator-free pieces gives back the pieces |
| JsValues.NatToDecimal | src/contexts/Authentication.tsx:143 | the decimal text of a status is a non-empty string of digits with no leading zero (only 0 starts with `0`) |
| JsValues.DecimalRoundTrip | src/contexts/Authentication.tsx:143 | reading the decimal text of a number back gives the number |
| UriCoding.Utf8Text | src/contexts/Authentication.tsx:120 | the UTF-8 form of a text has between one and four bytes per character |
| UriCoding.Encode | src/helpers/URL.tsx:14 | `encodeURIComponent` output holds only unreserved characters and `%` |
| UriCoding.FormEncode | src/contexts/Network.tsx:84 | the form encoding `searchParams.append` writes holds only unreserved characters, `%` and `+` |
| UriCoding.FormDecodeEncode | src/contexts/Network.tsx:84 | reading the form encoding back (`+` as space, then escapes decoded) gives the text again, for every text |
| UriCoding.Decode | src/helpers/URL.tsx:31 | a successful `decodeURIComponent` is never longer than its input |
| UriCoding.DecodeWithoutEscapes | src/helpers/URL.tsx:31 | a text without `%` decodes to itself |
| UriCoding.DecodeEncode | src/helpers/URL.tsx:14-31 | `decodeURIComponent(encodeURIComponent(s)) == s` for every text |
| Base64.Encode | src/contexts/Authentication.tsx:120-122 | the base 64 text of n bytes has 4 * ceil(n / 3) characters |
| Base64.DecodeEncode | src/contexts/Authentication.tsx:120-122 | decoding the base 64 text gives back the bytes |
| Base64.EncodeAlphabet | src/contexts/Authentication.tsx:120-122 | every character is an alphabet digit, except `=` padding in the last two places |
| UrlHelpers.PairTexts | src/helpers/URL.tsx:11-15 | one `key=value` text per entry, in entry order, each with both sides encoded |
| UrlHelpers.FromEndpointAndParams | src/helpers/URL.tsx:5-19 | the URL starts with the endpoint, then `&` if it has a `?` and `?` otherwise; no parameters leave only the separator |
| UrlHelpers.BuildQueryScenarios | src/helpers/URL.tsx:10-18 | `"e"` with no parameters gives `"e?"`, `"e?a=1"` gives `"e?a=1&"`, and a space is encoded `%20` |
| UrlHelpers.QuerySplitsIntoPairs | src/helpers/URL.tsx:11-16 | the built query splits at `&` into exactly the encoded pairs, and each pair splits at `=` into its encoded key and value |
| UrlHelpers.PairHasNoAmpersand | src/helpers/URL.tsx:14 | an encoded pair contains no `&` |
| UrlHelpers.PairSplitsAtEquals | src/helpers/URL.tsx:14 | an encoded pair splits at `=` into its encoded key and value |
| UrlHelpers.ParseDeepLinkURL | src/helpers/URL.tsx:21-33 | a URL without `?` parses to `null`; a parsed record never holds an own `__proto__` key |
| UrlHelpers.SegmentEntryOfPair | src/helpers/URL.tsx:30-31 | a segment written by `fromEndpointAndParams` reads back as its key and value |
| UrlHelpers.SegmentWithoutEquals | src/helpers/URL.tsx:30-31 | a segment without `=` is its decoded key with the value "undefined", and fails only when the key does not decode |
| UrlHelpers.ParseSegments | src/helpers/URL.tsx:27-33 | the reduce only adds keys to the record, and never adds `__proto__` |
| UrlHelpers.AssignLastWins | src/helpers/URL.tsx:29-33 | the record holds, per key other than `__proto__`, the value of its last entry, and keeps untouched keys (and `__proto__`) as they were |
| UrlHelpers.ProtoKeyIgnored | src/helpers/URL.tsx:29-33 | `e?__proto__=x` parses to `{}`: the write to `__proto__` is ignored |
| UrlHelpers.ParseSegmentsIsAssign | src/helpers/URL.tsx:28-37 | the parse fails exactly when some segment fails to decode, and otherwise is the in-order assignment of the decoded entries |
| UrlHelpers.ParseBuiltURL | src/helpers/URL.tsx:21-33 | parsing a URL built from an endpoint without a query gives back the parameters as a record |
| UrlHelpers.EmptyQueryParse | src/helpers/URL.tsx:26-31 | a bare trailing `?` parses to `{"": "undefined"}` |
| UrlHelpers.ExtraEqualsDropped | src/helpers/URL.tsx:30 | in `k=v=w` only `k -> v` counts |
| Network.BadResponse | src/contexts/Network.tsx:20-27 | the canned failure: not ok, status 400, empty data, no headers |
| Network.FromResponse | src/contexts/Network.tsx:29-54 | status and headers copied; a JSON content type gives the parsed body, or a failure with empty data when it does not parse; any other type gives the text with the transport's `ok` |
| Network.NeedsMoreTimeExactly | src/contexts/Network.tsx:68-70 | more time is needed exactly when the body is an object whose `msg` is the string "Still Processing" |
| Network.PollUrl | src/contexts/Network.tsx:83-85 | the poll URL starts with the resource, then `&` if the resource has a `?` and `?` otherwise, then `task_id=` and a value holding no `&`, `#` or `=` that form-decodes to `String(data.task_id)` of the given response |
| Network.RequestsCarryOptions | src/contexts/Network.tsx:73-89 | every request of the loop carries the caller's options, or `{}` when none were given |
| Network.LoopSpec | src/contexts/Network.tsx:72-98 | a returned response never needs more time and consumed a reply; a waiting run consumed the whole script |
| Network.PollSpec | src/contexts/Network.tsx:87-91 | as above, and every consumed reply cost one wait and one request |
| Network.FetchSpec | src/contexts/Network.tsx:100-108 | while busy the answer is the canned failure, with no reply consumed and no event |
| Network.PollRequestsRepeat | src/contexts/Network.tsx:83-91 | in the poll loop waits and requests alternate, and every request is the same poll URL with the same options |
| Network.PollWaitsFollowReplies | src/contexts/Network.tsx:87-89 | each wait uses the `sleep` of the latest response, which needed more time |
| Network.PollReturnsLastReply | src/contexts/Network.tsx:87-97 | a returned response is the normalised last reply consumed, or the canned failure when that reply threw |
| Network.TerminalFirstResponse | src/contexts/Network.tsx:76-81 | a first response that needs no more time is returned after one request |
| Network.LoopRequests | src/contexts/Network.tsx:73-89 | the first request goes to the resource; later ones alternate with waits and go to the URL built from the first response's `task_id`, all with the same options |
| Network.PollingScenario | src/contexts/Network.tsx:72-93 | a "Still Processing" answer with `task_id` T1 and `sleep` 50, then a final answer: one wait of 50, a second request with `?task_id=T1`, and the final answer returned |
| Network.NetworkEngine.constructor | src/contexts/Network.tsx:129 | the engine starts not busy with an empty log |
| Network.NetworkEngine.Send | src/contexts/Network.tsx:77 | one `fetch`: the request is logged and the next reply, if any, is taken |
| Network.NetworkEngine.FetchLoop | src/contexts/Network.tsx:72-98 | the loop's result, the replies it consumes and the events it logs are those of `LoopSpec` |
| Network.NetworkEngine.Poll | src/contexts/Network.tsx:87-97 | the `while` loop from a response that needs more time: its result, the replies it consumes and the events it logs are those of `PollSpec` |
| Network.NetworkEngine.Fetch | src/contexts/Network.tsx:100-120 | result, remaining script and log follow `FetchSpec`; busy ends set only if it was set or the call still waits |
| Authentication.RecordFromCreds | src/contexts/Authentication.tsx:28-34 | a record with exactly the keys email, password and name, holding the credentials |
| Authentication.RegisterArgs | src/contexts/Authentication.tsx:70-86 | a POST to the register endpoint with a JSON content type and the credentials record as body |
| Authentication.BasicAuthorization | src/contexts/Authentication.tsx:120-131 | the header is `Basic ` followed by text that decodes to the UTF-8 bytes of `email:password` |
| Authentication.LoginArgs | src/contexts/Authentication.tsx:125-137 | a POST to the login endpoint, without body, whose `Authorization` header is the Basic credentials |
| Authentication.Authorize | src/contexts/Authentication.tsx:188-200 | without a token the request is unchanged; with one, resource, method, body and settings are kept, `Authorization` is `Bearer <token>` and every other header is kept as it was |
| Authentication.SignUpStep | src/contexts/Authentication.tsx:88-103 | sign-up fails exactly on a not-ok response and then leaves the state alone, with the 409 message, else `String(data.error)` when that is truthy, else the default message; on success the user is the record (or `{}`), the token the `jwt` (or `''`) and the result that user |
| Authentication.SignInStep | src/contexts/Authentication.tsx:141-160 | sign-in fails exactly on a not-ok response ("Bad signin response: <status>") or a non-object payload ("Invalid response payload") and then leaves the state alone; on success the user is exactly `{userid}` holding the payload's `userid` (or `''`) and the token the payload's `token` (or `''`) |
| Authentication.StepsKeepTokenHasUser | src/contexts/Authentication.tsx:98-156 | both steps keep "a session with a token has a user", and a success always sets a user |
| Authentication.SignUpWithoutJwtKeepsUser | src/contexts/Authentication.tsx:99-100 | a sign-up answer without `jwt` leaves a user but no token |
| Authentication.SignInWithoutTokenKeepsUser | src/contexts/Authentication.tsx:152-155 | a sign-in answer without `token` succeeds and leaves a user but no token |
| Authentication.SignInScenario | src/contexts/Authentication.tsx:152-160 | the answer `{token: "tok", userid: "42"}` signs in with user `{userid: "42"}` |
| Authentication.BusyNetworkFails | src/contexts/Authentication.tsx:88-143 | the canned 400 makes sign-up report the default message and sign-in "Bad signin response: 400" |
| Authentication.AuthSession.constructor | src/contexts/Authentication.tsx:212-215 | the session starts with no user and an empty token |
| Authentication.AuthSession.NetFetch | src/contexts/Authentication.tsx:182-201 | the engine fetches the request with the session's bearer token added |
| Authentication.AuthSession.SignUp | src/contexts/Authentication.tsx:59-108 | throws "cannot signup when signed in" without a request; otherwise posts the registration and moves to the state and result of the sign-up step |
| Authentication.AuthSession.SignIn | src/contexts/Authentication.tsx:110-165 | throws "cannot signin when signed in. Log out first!" without a request; otherwise posts the login and moves to the state and result of the sign-in step |
| Authentication.AuthSession.SignOut | src/contexts/Authentication.tsx:167-180 | throws "already signed out" when there is no token; otherwise clears user and token and resolves to true |
| DeepLink.QueryOf | src/components/Link.tsx:41-42 | the query is what lies between the first `?` and the fragment (the rest of the URL without one), and is empty when the URL has no `?` |
| UriCoding.PlusToSpace | src/components/Link.tsx:42 | each `+` becomes a space and every other character is kept |
| DeepLink.SearchParamFirst | src/components/Link.tsx:42 | `get` finds a value exactly when some non-empty segment has the name, and then it is the decoded value of the first such segment |
| DeepLink.CallbackArgument | src/components/Link.tsx:37-52 | a URL without the callback prefix calls nothing |
| DeepLink.CallbackArgumentParses | src/components/Link.tsx:39-46 | the callback gets a value exactly when a non-empty `data` parameter decodes and parses |
| DeepLink.DoubleEncodedPayloadArrives | src/components/Link.tsx:41-46 | a payload percent-encoded twice reaches the callback as the parsed text |
| DeepLink.SingleEncodedPayloadArrives | src/components/Link.tsx:41-46 | a payload percent-encoded once, without `%` in its text, reaches the callback as the parsed text |
| DeepLink.PlatformUrl | src/components/Link.tsx:61-63 | the opened URL starts with the target |
| DeepLink.PlatformUrlIsBuilt | src/components/Link.tsx:61-63 | it is the target with `platform=mobile` appended as `fromEndpointAndParams` appends it |
| DeepLink.PlatformUrlParsesWithoutQuery | src/components/Link.tsx:61-63 | read back, a target without a query gives `{platform: "mobile"}` |
| DeepLink.PlatformUrlParsesWithQuery | src/components/Link.tsx:61-63 | read back, a target with a query gives its record with `platform -> mobile` on top |
| DeepLink.PressCalls | src/components/Link.tsx:59-75 | the capability check of the platform URL comes first; three calls only when a supported open throws, two otherwise |
| DeepLink.PressOpensOnlyWhenSupported | src/components/Link.tsx:59-75 | the check comes first; the platform URL is opened exactly when supported; the "Cannot open URL" alert comes exactly when unsupported; there is no alert exactly when the open succeeds |
| DeepLink.LinkBridge.constructor | src/components/Link.tsx:16-21 | nothing subscribed, delivered or called yet |
| DeepLink.LinkBridge.HandleUrl | src/components/Link.tsx:37-52 | the callback is called at most once, with the callback argument |
| DeepLink.LinkBridge.Mount | src/components/Link.tsx:22-35 | without a callback nothing happens; otherwise it subscribes and handles an initial URL carrying the callback prefix |
| DeepLink.LinkBridge.Receive | src/components/Link.tsx:55 | a `url` event is handled only while subscribed |
| DeepLink.LinkBridge.Unmount | src/components/Link.tsx:56 | the cleanup removes the subscription |
| DeepLink.LinkBridge.Press | src/components/Link.tsx:59-75 | the platform calls are those of `PressCalls` |
| Signup.Utf16Length | src/screens/Signup.tsx:71 | `length` counts one or two UTF-16 code units per character |
| Signup.Utf16LengthOfBmp | src/screens/Signup.tsx:71 | in the Basic Multilingual Plane, `length` is the number of characters |
| Signup.ThreeAstralCharactersSuffice | src/screens/Signup.tsx:71 | three characters outside that plane already have length 6 |
| Signup.ValidateForm | src/screens/Signup.tsx:67-78 | `null` exactly when the email has `@`, the password has length at least 6 and the two passwords match; otherwise the first failing check's message |
| Signup.SignUpFeedback | src/screens/Signup.tsx:35-56 | success sets the confirmation text and goes home; a failed result shows its message as error and alert; a throw shows the generic message and the "Sign-up Error" alert; never both messages |
| Signup.SignUpForm.constructor | src/screens/Signup.tsx:63-64 | no error and no success message |
| Signup.SignUpForm.OnSubmit | src/screens/Signup.tsx:99-119 | both messages cleared; a validation error stops with that message; without a navigator nothing is sent; otherwise the session signs up and the screen shows its outcome; when signed in (a throw) or still waiting, the session's user and token stay as they were |
| Signup.SignUpForm.SignUpUser | src/screens/Signup.tsx:28-57 | messages and events follow `SignUpFeedback` of the session's answer |

## Left out

- React providers, contexts, hooks and rendering are left out. State lives in the `NetworkEngine`, `AuthSession`, `LinkBridge` and `SignUpForm` objects. The stale `isProcessing` captured by `netFetch.bind` is not modelled: the engine reads its current busy flag.
- The transport, `delay`, the clock and `console` output are left out. Replies are a script, waits are logged with their `sleep` value, and nothing is timed.
- Network.NetworkEngine.Fetch: a call still waiting when the script runs out leaves busy set, because that call has not yet reached the line that clears it.
- UriCoding.FormDecode: the lenient handling of malformed escapes by `URLSearchParams` (kept as text, not thrown) is not modelled. The function is used only as the inverse of `FormEncode`.
- Network.PollUrl: WHATWG URL parsing is not modelled. A resource that does not parse as a URL, or that has a fragment, would throw or be rewritten. Here `task_id` is appended as text with `?` or `&`.
- The in-place update of the caller's `options` object in the session's `netFetch` (aliasing) is not modelled. The model returns a new request with the header added.
- JSON numbers are integers. Floating point, `JSON.stringify` key order and `Object.entries` order are not modelled: a record given to `fromEndpointAndParams` is a sequence of pairs in its iteration order.
- Lone surrogates in `encodeURIComponent` (a URIError) are not modelled: Dafny's `char` is a Unicode scalar value.
- DeepLink.CallbackArgument: `JSON.parse` and the percent-decoding `URLSearchParams` applies are function parameters. The URL parser's own re-encoding of the query is not modelled.
- Authentication.SignUpStep: the source returns the raw `data.error` as the error, whatever its type. The model's error is text, so it converts a non-string `data.error` with its own `String(...)` of `Json`, which prints arrays and objects in a simplified form.
- The `catch` branches that report "Signup error:" and "Sign-in error:" are not modelled: nothing in the modelled try blocks throws, because the engine never rejects.
- `resetForm` is not modelled. The un-awaited `signUpUser` call is modelled as finishing before `onSubmit` returns.
- The implementation of `src/types/result` is not part of this model. The `Result` record is modelled from its tests, with `isError` meaning the failure variant.
- `handleGoogleCallback` is not part of this model: the session's source does not define it.
- The other endpoints, screens and components (navigation, timeline, trends, login screen, third-party login buttons) are outside the modelled core.
