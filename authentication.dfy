/** The authentication session: sign-up, sign-in and sign-out against the
    registration and login endpoints, and the authenticated fetch that adds
    the bearer token. The session's `token` is whatever the server sent
    (`payload.jwt || ''`), so it is a JSON value; it is "empty" when it is the
    empty string. */
module Authentication {
  import opened JsValues
  import opened Results
  import opened Network
  import UriCoding
  import Base64

  const RegisterEndpoint: string := "http://localhost:8000/register"
  const LoginEndpoint: string := "http://localhost:8000/login"

  datatype Credentials = Credentials(email: string, password: string, name: string)

  /** `{user, token}`; `user` is None for `null`. */
  datatype SessionState = SessionState(user: Option<Json>, token: Json)

  const SignedOut: SessionState := SessionState(None, JStr(""))

  /** `token !== ''` */
  predicate SignedIn(st: SessionState)
  {
    st.token != JStr("")
  }

  /** The invariant the session keeps: a session with a token has a user. */
  predicate TokenHasUser(st: SessionState)
  {
    SignedIn(st) ==> st.user.Some?
  }

  /** How an asynchronous call of the session ends: it resolves, it throws
      (a rejected promise), or it is still waiting for the network. */
  datatype Call<T> = Resolves(value: T) | Throws(message: string) | Pending

  /** `recordFromCreds`: the three credential fields as a record. */
  function RecordFromCreds(creds: Credentials): (r: Json)
    ensures r.JObj? && r.fields.Keys == {"email", "password", "name"}
    ensures Get(r, "email") == Some(JStr(creds.email))
    ensures Get(r, "password") == Some(JStr(creds.password))
    ensures Get(r, "name") == Some(JStr(creds.name))
  {
    JObj(map["email" := JStr(creds.email), "password" := JStr(creds.password), "name" := JStr(creds.name)])
  }

  const RequestSettings: map<string, string> :=
    map["cache" := "no-cache", "redirect" := "follow", "referrerPolicy" := "no-referrer"]

  /** The registration request: a JSON POST of the credentials. */
  function RegisterArgs(creds: Credentials): (args: FetchArgs)
    ensures args.resource == RegisterEndpoint && args.options.Some?
    ensures args.options.value.verb == Some("POST")
    ensures args.options.value.headers == Some(map["Content-Type" := "application/json"])
    ensures args.options.value.body == Some(RecordFromCreds(creds))
  {
    FetchArgs(RegisterEndpoint, Some(Options(Some("POST"), Some(map["Content-Type" := "application/json"]),
                                             Some(RecordFromCreds(creds)), RequestSettings)))
  }

  /** `'Basic ' + base64(email + ':' + password)` over the UTF-8 bytes; a
      server reading the header gets those bytes back. */
  function BasicAuthorization(creds: Credentials): (header: string)
    ensures |header| >= 6 && header[..6] == "Basic "
    ensures Base64.Decode(header[6..]) == Some(UriCoding.Utf8Text(creds.email + ":" + creds.password))
  {
    var bytes := UriCoding.Utf8Text(creds.email + ":" + creds.password);
    Base64.DecodeEncode(bytes);
    var header := "Basic " + Base64.Encode(bytes);
    assert header[6..] == Base64.Encode(bytes);
    header
  }

  /** The login request: a POST without body, carrying the basic credentials. */
  function LoginArgs(creds: Credentials): (args: FetchArgs)
    ensures args.resource == LoginEndpoint && args.options.Some?
    ensures args.options.value.verb == Some("POST") && args.options.value.body == None
    ensures args.options.value.headers.Some?
    ensures "Authorization" in args.options.value.headers.value
    ensures args.options.value.headers.value["Authorization"] == BasicAuthorization(creds)
  {
    FetchArgs(LoginEndpoint, Some(Options(Some("POST"),
      Some(map["Authorization" := BasicAuthorization(creds), "Content-Type" := "application/json"]),
      None, RequestSettings)))
  }

  /** The request the authenticated `netFetch` hands to the network: without
      a token the request passes unchanged; with one, the resource, method,
      body and settings of the (defaulted) options are kept, the
      `Authorization` header carries the bearer token and every other header
      is kept as it was. */
  function Authorize(token: Json, args: FetchArgs): (r: FetchArgs)
    ensures token == JStr("") ==> r == args
    ensures token != JStr("") ==>
      var before := DefaultOptions(args);
      && r.resource == args.resource
      && r.options.Some? && r.options.value.headers.Some?
      && r.options.value.verb == before.verb
      && r.options.value.body == before.body
      && r.options.value.settings == before.settings
      && var headers := r.options.value.headers.value;
         && "Authorization" in headers
         && headers["Authorization"] == "Bearer " + ToJsString(Some(token))
         && forall h :: h != "Authorization" ==>
              (h in headers <==> before.headers.Some? && h in before.headers.value)
              && (h in headers ==> headers[h] == before.headers.value[h])
  {
    if token == JStr("") then args
    else
      var options := DefaultOptions(args);
      var headers := if options.headers.Some? then options.headers.value else map[];
      FetchArgs(args.resource, Some(options.(headers := Some(headers["Authorization" := "Bearer " + ToJsString(Some(token))]))))
  }

  /** The outcome of `signUp` once the network has answered: the new state
      and the result. Sign-up fails exactly when the response is not ok, and
      then the state is unchanged and the message follows the status and the
      body's `error`; when it succeeds the session holds the returned record
      (or `{}`) as user and the `jwt` (or '') as token, and the result is
      that user. */
  function SignUpStep(st: SessionState, response: FetchResponse): (out: (SessionState, Result<Json>))
    ensures var (next, result) := out;
      && (IsError(result) <==> !response.isOk)
      && (IsError(result) ==> next == st)
      && (!response.isOk && response.status == 409 ==>
            ErrorOf(result) == "An account with this email already exists")
      && (!response.isOk && response.status != 409 && Truthy(Get(response.data, "error")) ==>
            ErrorOf(result) == ToJsString(Get(response.data, "error")))
      && (!response.isOk && response.status != 409 && !Truthy(Get(response.data, "error")) ==>
            ErrorOf(result) == "Registration failed. Please try again.")
      && (!IsError(result) ==>
            && next.user.Some? && DataOf(result) == next.user
            && (Truthy(Get(response.data, "record")) ==> next.user.value == Get(response.data, "record").value)
            && (!Truthy(Get(response.data, "record")) ==> next.user.value == EmptyObject)
            && (Truthy(Get(response.data, "jwt")) ==> next.token == Get(response.data, "jwt").value)
            && (!Truthy(Get(response.data, "jwt")) ==> !SignedIn(next)))
  {
    if !response.isOk then
      if response.status == 409 then (st, Failure("An account with this email already exists"))
      else if Truthy(Get(response.data, "error")) then (st, Failure(ToJsString(Get(response.data, "error"))))
      else (st, Failure("Registration failed. Please try again."))
    else
      var user := OrElse(Get(response.data, "record"), EmptyObject);
      (SessionState(Some(user), OrElse(Get(response.data, "jwt"), JStr(""))), Success(user))
  }

  /** The outcome of `signIn` once the network has answered. Sign-in fails
      exactly when the response is not ok or its payload is not an object
      (`typeof` is `'object'` for records and arrays, `null` being excluded);
      then the state is unchanged. On success the user is exactly
      `{userid: payload.userid || ''}` and the token the payload's `token`
      (or ''). */
  function SignInStep(st: SessionState, response: FetchResponse): (out: (SessionState, Result<Json>))
    ensures var (next, result) := out;
      && (IsError(result) <==> !response.isOk || !(response.data.JObj? || response.data.JArr?))
      && (IsError(result) ==> next == st)
      && (!response.isOk ==> ErrorOf(result) == "Bad signin response: " + IntToDecimal(response.status))
      && (response.isOk && !(response.data.JObj? || response.data.JArr?) ==>
            ErrorOf(result) == "Invalid response payload")
      && (!IsError(result) ==>
            && next.user.Some? && DataOf(result) == next.user
            && next.user.value == JObj(map["userid" := OrElse(Get(response.data, "userid"), JStr(""))])
            && (Truthy(Get(response.data, "token")) ==> next.token == Get(response.data, "token").value)
            && (!Truthy(Get(response.data, "token")) ==> !SignedIn(next)))
  {
    if !response.isOk then (st, Failure("Bad signin response: " + IntToDecimal(response.status)))
    else if !(response.data.JObj? || response.data.JArr?) then (st, Failure("Invalid response payload"))
    else
      var user := JObj(map["userid" := OrElse(Get(response.data, "userid"), JStr(""))]);
      (SessionState(Some(user), OrElse(Get(response.data, "token"), JStr(""))), Success(user))
  }

  /** Both steps keep the invariant: a successful step always sets a user, a
      failed one changes nothing. */
  lemma StepsKeepTokenHasUser(st: SessionState, response: FetchResponse)
    requires TokenHasUser(st)
    ensures TokenHasUser(SignUpStep(st, response).0)
    ensures TokenHasUser(SignInStep(st, response).0)
    ensures SignUpStep(st, response).1.Success? ==> SignUpStep(st, response).0.user.Some?
    ensures SignInStep(st, response).1.Success? ==> SignInStep(st, response).0.user.Some?
  {
  }

  /** The converse does not hold: a successful sign-up whose payload has no
      `jwt` leaves a user with an empty token, so "no token" does not mean
      "no user". */
  lemma SignUpWithoutJwtKeepsUser(record: Json)
    ensures var response := FetchResponse(true, map[], 201, JObj(map["record" := record]));
      var next := SignUpStep(SignedOut, response).0;
      !SignedIn(next) && next.user.Some?
  {
    var response := FetchResponse(true, map[], 201, JObj(map["record" := record]));
    assert Get(response.data, "jwt") == None;
  }

  /** Sign-in does not insist on a token either: a payload with a `userid`
      but no `token` succeeds and leaves the session without a token. */
  lemma SignInWithoutTokenKeepsUser(userid: Json)
    ensures var response := FetchResponse(true, map[], 200, JObj(map["userid" := userid]));
      var (next, result) := SignInStep(SignedOut, response);
      !IsError(result) && !SignedIn(next) && next.user.Some?
  {
    var response := FetchResponse(true, map[], 200, JObj(map["userid" := userid]));
    assert Get(response.data, "token") == None;
  }

  /** From signed out, a login answer `{token: "tok", userid: "42"}` signs
      in with user `{userid: "42"}` and token "tok". */
  lemma SignInScenario(headers: map<string, string>)
    ensures var response := FetchResponse(true, headers, 200, JObj(map["token" := JStr("tok"), "userid" := JStr("42")]));
      var user := JObj(map["userid" := JStr("42")]);
      && SignInStep(SignedOut, response) == (SessionState(Some(user), JStr("tok")), Success(user))
      && SignedIn(SessionState(Some(user), JStr("tok")))
  {
  }

  /** While the network is busy it answers with `badResponse()`: sign-up
      then reports the generic failure and sign-in a 400. */
  lemma BusyNetworkFails(st: SessionState)
    ensures SignUpStep(st, BadResponse()) == (st, Failure("Registration failed. Please try again."))
    ensures SignInStep(st, BadResponse()) == (st, Failure("Bad signin response: 400"))
  {
    assert Get(BadResponse().data, "error") == None;
    assert IntToDecimal(400) == "400" by {
      assert DigitChar(4) == '4' && DigitChar(0) == '0';
      assert NatToDecimal(4) == "4";
      assert NatToDecimal(40) == NatToDecimal(4) + ['0'] == "40";
      assert NatToDecimal(400) == NatToDecimal(40) + ['0'] == "400";
    }
    assert "Bad signin response: " + "400" == "Bad signin response: 400";
  }

  /** The session, over the network engine it sends through. */
  class AuthSession {
    var user: Option<Json>
    var token: Json
    const network: NetworkEngine

    function State(): SessionState
      reads this
    {
      SessionState(user, token)
    }

    /** The provider starts signed out. */
    constructor (network: NetworkEngine)
      ensures State() == SignedOut && this.network == network
    {
      user := None;
      token := JStr("");
      this.network := network;
    }

    /** `netFetch` of the session: the network fetch of the authorised request. */
    method NetFetch(args: FetchArgs) returns (out: Completion<FetchResponse>)
      modifies network
      ensures network.Fetched(Authorize(token, args), out)
    {
      out := network.Fetch(Authorize(token, args));
    }

    /** `signUp`: throws when signed in; otherwise posts the registration and,
        once answered, moves to the state `SignUpStep` gives. */
    method SignUp(creds: Credentials) returns (out: Call<Result<Json>>, ghost sent: Completion<FetchResponse>)
      modifies this, network
      ensures old(SignedIn(State())) ==>
        out == Throws("cannot signup when signed in") && State() == old(State()) && unchanged(network)
      ensures !old(SignedIn(State())) ==>
        && network.Fetched(RegisterArgs(creds), sent)
        && (sent.Awaiting? ==> out == Pending && State() == old(State()))
        && (sent.Returned? ==>
              var (next, result) := SignUpStep(old(State()), sent.value);
              State() == next && out == Resolves(result))
    {
      sent := Awaiting;
      if token != JStr("") {
        return Throws("cannot signup when signed in"), sent;
      }
      var reply := NetFetch(RegisterArgs(creds));
      sent := reply;
      if reply.Awaiting? {
        return Pending, sent;
      }
      var response := reply.value;
      if !response.isOk {
        if response.status == 409 {
          return Resolves(Failure("An account with this email already exists")), sent;
        }
        var reported := Get(response.data, "error");
        if Truthy(reported) {
          return Resolves(Failure(ToJsString(reported))), sent;
        }
        return Resolves(Failure("Registration failed. Please try again.")), sent;
      }
      token := OrElse(Get(response.data, "jwt"), JStr(""));
      user := Some(OrElse(Get(response.data, "record"), EmptyObject));
      out := Resolves(Success(user.value));
    }

    /** `signIn`: throws when signed in; otherwise posts the basic
        credentials and, once answered, moves to the state `SignInStep`
        gives. */
    method SignIn(creds: Credentials) returns (out: Call<Result<Json>>, ghost sent: Completion<FetchResponse>)
      modifies this, network
      ensures old(SignedIn(State())) ==>
        out == Throws("cannot signin when signed in. Log out first!") && State() == old(State()) && unchanged(network)
      ensures !old(SignedIn(State())) ==>
        && network.Fetched(LoginArgs(creds), sent)
        && (sent.Awaiting? ==> out == Pending && State() == old(State()))
        && (sent.Returned? ==>
              var (next, result) := SignInStep(old(State()), sent.value);
              State() == next && out == Resolves(result))
    {
      sent := Awaiting;
      if token != JStr("") {
        return Throws("cannot signin when signed in. Log out first!"), sent;
      }
      var reply := NetFetch(LoginArgs(creds));
      sent := reply;
      if reply.Awaiting? {
        return Pending, sent;
      }
      var response := reply.value;
      if !response.isOk {
        return Resolves(Failure("Bad signin response: " + IntToDecimal(response.status))), sent;
      }
      var payload := response.data;
      if !(payload.JObj? || payload.JArr?) {
        return Resolves(Failure("Invalid response payload")), sent;
      }
      token := OrElse(Get(payload, "token"), JStr(""));
      user := Some(JObj(map["userid" := OrElse(Get(payload, "userid"), JStr(""))]));
      out := Resolves(Success(user.value));
    }

    /** `signOut`: throws when already signed out; otherwise clears the
        session and resolves to true. */
    method SignOut() returns (out: Call<bool>)
      modifies this
      ensures old(SignedIn(State())) ==> out == Resolves(true) && State() == SignedOut
      ensures !old(SignedIn(State())) ==> out == Throws("already signed out") && State() == old(State())
    {
      if token == JStr("") {
        return Throws("already signed out");
      }
      token := JStr("");
      user := None;
      out := Resolves(true);
    }
  }
}
