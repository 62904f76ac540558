/** The network engine: response normalisation, the long-poll loop and the
    single-flight fetch. The transport is a script of replies consumed one per
    request; running out of script means the engine is still waiting for a
    reply. Waits (`delay`) are recorded as events. */
module Network {
  import opened JsValues
  import opened Strings
  import opened UriCoding

  /** `RequestInit`: method, headers, a JSON body (sent stringified) and the
      remaining string settings (`cache`, `redirect`, `referrerPolicy`). */
  datatype Options = Options(
    verb: Option<string>,
    headers: Option<map<string, string>>,
    body: Option<Json>,
    settings: map<string, string>)

  const NoOptions: Options := Options(None, None, None, map[])

  /** How an asynchronous operation stands once the scripted transport has
      delivered every reply it holds: it returned a value, or it is still
      awaiting a reply that never comes. */
  datatype Completion<T> = Returned(value: T) | Awaiting

  datatype FetchArgs = FetchArgs(resource: string, options: Option<Options>)

  datatype FetchResponse = FetchResponse(isOk: bool, headers: map<string, string>, status: int, data: Json)

  /** What the transport hands back: status line, headers (lower-case names),
      the body as text, and the body parsed as JSON (None when it is not
      valid JSON). */
  datatype RawResponse = RawResponse(ok: bool, status: int, headers: map<string, string>, text: string, json: Option<Json>)

  /** One scripted transport outcome: a response, or a rejected `fetch`. */
  datatype Reply = Answer(raw: RawResponse) | Rejected

  /** What the engine does that can be observed: requests and waits. */
  datatype Event = Request(resource: string, options: Options) | Wait(sleep: Option<Json>)

  /** A run of the engine against a script: its outcome, how many replies it
      consumed and the events it produced. */
  datatype Run = Run(outcome: Completion<FetchResponse>, consumed: nat, events: seq<Event>)

  /** `badResponse()`: the canned failure. */
  function BadResponse(): (r: FetchResponse)
    ensures !r.isOk && r.status == 400 && r.data == EmptyObject && r.headers == map[]
  {
    FetchResponse(false, map[], 400, EmptyObject)
  }

  predicate DeclaresJson(headers: map<string, string>)
  {
    "content-type" in headers && Contains(headers["content-type"], "application/json")
  }

  /** `fromResponse`: status and headers are copied; the body is parsed as
      JSON only under a JSON content type, otherwise kept as text; a body
      that fails to parse gives a failed response with empty data. */
  function FromResponse(raw: RawResponse): (r: FetchResponse)
    ensures r.status == raw.status && r.headers == raw.headers
    ensures r.isOk ==> raw.ok
    ensures !DeclaresJson(raw.headers) ==> r.isOk == raw.ok && r.data == JStr(raw.text)
    ensures DeclaresJson(raw.headers) && raw.json.Some? ==> r.isOk == raw.ok && r.data == raw.json.value
    ensures DeclaresJson(raw.headers) && raw.json.None? ==> !r.isOk && r.data == EmptyObject
  {
    if DeclaresJson(raw.headers) then
      match raw.json
      case Some(body) => FetchResponse(raw.ok, raw.headers, raw.status, body)
      case None => FetchResponse(false, raw.headers, raw.status, EmptyObject)
    else
      FetchResponse(raw.ok, raw.headers, raw.status, JStr(raw.text))
  }

  /** `needsMoreTime`: the body says `msg === "Still Processing"`. */
  predicate NeedsMoreTime(data: Json)
  {
    Get(data, "msg") == Some(JStr("Still Processing"))
  }

  /** Only an object whose `msg` is exactly the string "Still Processing"
      asks for more time: not a string, array or number body, not another
      `msg`, not a missing one. */
  lemma NeedsMoreTimeExactly(data: Json)
    ensures NeedsMoreTime(data) <==>
      data.JObj? && "msg" in data.fields && data.fields["msg"] == JStr("Still Processing")
  {
  }

  /** Reading `.msg` of a `null` body throws a TypeError inside the loop. */
  predicate ReadThrows(data: Json)
  {
    data.JNull?
  }

  /** `args?.options || {}` */
  function DefaultOptions(args: FetchArgs): Options
  {
    if args.options.Some? then args.options.value else NoOptions
  }

  /** The resource with `task_id=<String(data.task_id)>` appended as a query
      parameter, as `URL.searchParams.append` serialises it: the resource is
      kept, the separator is `&` when it already has a query and `?`
      otherwise, and the value cannot end its parameter (no `&`, `#` or `=`)
      and reads back as `String(data.task_id)`. */
  function PollUrl(resource: string, data: Json): (url: string)
    ensures |url| >= |resource| + 9 && url[..|resource|] == resource
    ensures url[|resource|] == (if '?' in resource then '&' else '?')
    ensures url[|resource| + 1..|resource| + 9] == "task_id="
    ensures var value := url[|resource| + 9..]; '&' !in value && '#' !in value && '=' !in value
    ensures FormDecode(url[|resource| + 9..]) == Some(ToJsString(Get(data, "task_id")))
  {
    var value := FormEncode(ToJsString(Get(data, "task_id")));
    FormEncodedValue(ToJsString(Get(data, "task_id")));
    FormDecodeEncode(ToJsString(Get(data, "task_id")));
    var separator := if '?' in resource then '&' else '?';
    TaskParam(resource, separator, value);
    resource + [separator] + "task_id=" + value
  }

  /** A form-encoded value holds no `&`, `#` or `=`. */
  lemma FormEncodedValue(s: string)
    ensures var r := FormEncode(s); '&' !in r && '#' !in r && '=' !in r
  {
    var r := FormEncode(s);
    forall i | 0 <= i < |r| ensures r[i] != '&' && r[i] != '#' && r[i] != '=' {
    }
  }

  lemma TaskParam(resource: string, separator: char, value: string)
    ensures var url := resource + [separator] + "task_id=" + value;
      && |url| == |resource| + 9 + |value|
      && url[..|resource|] == resource && url[|resource|] == separator
      && url[|resource| + 1..|resource| + 9] == "task_id=" && url[|resource| + 9..] == value
  {
  }

  /** The normalised response for a reply, or None when the loop throws on
      it (a rejected fetch, or a `null` body). */
  function Observe(reply: Reply): Option<FetchResponse>
  {
    if reply.Rejected? then None
    else
      var response := FromResponse(reply.raw);
      if ReadThrows(response.data) then None else Some(response)
  }

  /** `fetchLoop` against a script: the first request goes to the resource;
      while the latest response needs more time, wait its `sleep` and
      request the poll URL built from the first response. Anything thrown
      becomes `badResponse()`. */
  function LoopSpec(args: FetchArgs, script: seq<Reply>): (r: Run)
    ensures r.consumed <= |script|
    ensures r.outcome.Returned? ==> !NeedsMoreTime(r.outcome.value.data) && r.consumed >= 1
    ensures r.outcome.Awaiting? ==> r.consumed == |script|
  {
    var options := DefaultOptions(args);
    var first := Request(args.resource, options);
    if script == [] then Run(Awaiting, 0, [first])
    else
      match Observe(script[0])
      case None => Run(Returned(BadResponse()), 1, [first])
      case Some(response) =>
        if !NeedsMoreTime(response.data) then Run(Returned(response), 1, [first])
        else
          var rest := PollSpec(PollUrl(args.resource, response.data), options, response, script[1..]);
          Run(rest.outcome, rest.consumed + 1, [first] + rest.events)
  }

  /** The `while` loop of `fetchLoop`, from a response that needs more time. */
  function PollSpec(url: string, options: Options, response: FetchResponse, script: seq<Reply>): (r: Run)
    requires NeedsMoreTime(response.data)
    ensures r.consumed <= |script|
    ensures r.outcome.Returned? ==> !NeedsMoreTime(r.outcome.value.data) && r.consumed >= 1
    ensures r.outcome.Awaiting? ==> r.consumed == |script|
    ensures |r.events| == 2 * r.consumed + (if r.outcome.Awaiting? then 2 else 0)
    decreases |script|
  {
    var step := [Wait(Get(response.data, "sleep")), Request(url, options)];
    if script == [] then Run(Awaiting, 0, step)
    else
      match Observe(script[0])
      case None => Run(Returned(BadResponse()), 1, step)
      case Some(next) =>
        if !NeedsMoreTime(next.data) then Run(Returned(next), 1, step)
        else
          var rest := PollSpec(url, options, next, script[1..]);
          Run(rest.outcome, rest.consumed + 1, step + rest.events)
  }

  /** `netFetch` of the engine: rejected at once while busy, otherwise the loop. */
  function FetchSpec(busy: bool, args: FetchArgs, script: seq<Reply>): (r: Run)
    ensures busy ==> r == Run(Returned(BadResponse()), 0, [])
    ensures r.consumed <= |script|
  {
    if busy then Run(Returned(BadResponse()), 0, []) else LoopSpec(args, script)
  }

  /** Waits at even positions, the same request at odd ones. */
  predicate PollShaped(events: seq<Event>, url: string, options: Options)
  {
    forall i :: 0 <= i < |events| ==>
      (i % 2 == 0 ==> events[i].Wait?) && (i % 2 == 1 ==> events[i] == Request(url, options))
  }

  /** Every poll sends the same request, the poll URL with the same options,
      and is preceded by a wait. */
  lemma {:induction false} PollRequestsRepeat(url: string, options: Options, response: FetchResponse, script: seq<Reply>)
    requires NeedsMoreTime(response.data)
    ensures PollShaped(PollSpec(url, options, response, script).events, url, options)
    decreases |script|
  {
    var r := PollSpec(url, options, response, script);
    if script != [] && Observe(script[0]).Some? && NeedsMoreTime(Observe(script[0]).value.data) {
      var next := Observe(script[0]).value;
      var rest := PollSpec(url, options, next, script[1..]);
      PollRequestsRepeat(url, options, next, script[1..]);
      assert r.events == [Wait(Get(response.data, "sleep")), Request(url, options)] + rest.events;
      forall i | 2 <= i < |r.events|
        ensures (i % 2 == 0 ==> r.events[i].Wait?) && (i % 2 == 1 ==> r.events[i] == Request(url, options))
      {
        assert r.events[i] == rest.events[i - 2];
        assert (i - 2) % 2 == i % 2;
      }
    }
  }

  /** The wait after reply `j` of the script uses that reply's `sleep`, and
      that reply needed more time. */
  predicate WaitsFollow(script: seq<Reply>, events: seq<Event>)
  {
    forall j :: 0 <= j < |script| && 2 * j + 2 < |events| ==>
      && Observe(script[j]).Some?
      && NeedsMoreTime(Observe(script[j]).value.data)
      && events[2 * j + 2] == Wait(Get(Observe(script[j]).value.data, "sleep"))
  }

  /** Each wait uses the `sleep` of the latest response: the first that of
      the response the loop starts from, the one after reply `j` that of
      reply `j`, which needed more time. */
  lemma {:induction false} PollWaitsFollowReplies(url: string, options: Options, response: FetchResponse, script: seq<Reply>)
    requires NeedsMoreTime(response.data)
    ensures var r := PollSpec(url, options, response, script);
      r.events[0] == Wait(Get(response.data, "sleep")) && WaitsFollow(script, r.events)
    decreases |script|
  {
    if script != [] && Observe(script[0]).Some? && NeedsMoreTime(Observe(script[0]).value.data) {
      var next := Observe(script[0]).value;
      var rest := PollSpec(url, options, next, script[1..]);
      PollWaitsFollowReplies(url, options, next, script[1..]);
      var step := [Wait(Get(response.data, "sleep")), Request(url, options)];
      assert PollSpec(url, options, response, script).events == step + rest.events;
      WaitsFollowStep(script, step, rest.events);
    }
  }

  /** The step of PollWaitsFollowReplies: two events in front of the run
      that follows the first reply. */
  lemma WaitsFollowStep(script: seq<Reply>, step: seq<Event>, rest: seq<Event>)
    requires |step| == 2 && script != [] && Observe(script[0]).Some?
    requires NeedsMoreTime(Observe(script[0]).value.data)
    requires rest != [] ==> rest[0] == Wait(Get(Observe(script[0]).value.data, "sleep"))
    requires WaitsFollow(script[1..], rest)
    ensures WaitsFollow(script, step + rest)
  {
    var events := step + rest;
    forall j | 1 <= j < |script| && 2 * j + 2 < |events|
      ensures && Observe(script[j]).Some?
              && NeedsMoreTime(Observe(script[j]).value.data)
              && events[2 * j + 2] == Wait(Get(Observe(script[j]).value.data, "sleep"))
    {
      assert script[1..][j - 1] == script[j];
      assert events[2 * j + 2] == rest[2 * (j - 1) + 2];
    }
  }

  /** A returned response is either the canned failure or the normalised
      last reply the loop consumed. */
  lemma {:induction false} PollReturnsLastReply(url: string, options: Options, response: FetchResponse, script: seq<Reply>)
    requires NeedsMoreTime(response.data)
    ensures var r := PollSpec(url, options, response, script);
      r.outcome.Returned? ==>
        if Observe(script[r.consumed - 1]).None? then r.outcome.value == BadResponse()
        else r.outcome.value == Observe(script[r.consumed - 1]).value
    decreases |script|
  {
    if script != [] && Observe(script[0]).Some? && NeedsMoreTime(Observe(script[0]).value.data) {
      var next := Observe(script[0]).value;
      PollReturnsLastReply(url, options, next, script[1..]);
      var rest := PollSpec(url, options, next, script[1..]);
      if rest.outcome.Returned? {
        assert script[1..][rest.consumed - 1] == script[rest.consumed];
      }
    }
  }

  /** A terminal first response is returned unchanged after one request. */
  lemma TerminalFirstResponse(args: FetchArgs, script: seq<Reply>)
    requires script != [] && Observe(script[0]).Some?
    requires !NeedsMoreTime(Observe(script[0]).value.data)
    ensures LoopSpec(args, script)
         == Run(Returned(FromResponse(script[0].raw)), 1, [Request(args.resource, DefaultOptions(args))])
  {
  }

  /** The first request goes to the resource; every later request goes to the
      poll URL built from the first response's `task_id` (later `task_id`s are
      ignored), and every request carries the same options. */
  lemma LoopRequests(args: FetchArgs, script: seq<Reply>)
    ensures var r := LoopSpec(args, script);
      && r.events[0] == Request(args.resource, DefaultOptions(args))
      && forall i :: 1 <= i < |r.events| ==>
           && (i % 2 == 1 ==> r.events[i].Wait?)
           && (i % 2 == 0 ==>
                 r.events[i] == Request(PollUrl(args.resource, FromResponse(script[0].raw).data), DefaultOptions(args)))
  {
    if script != [] && Observe(script[0]).Some? && NeedsMoreTime(Observe(script[0]).value.data) {
      var response := Observe(script[0]).value;
      var url := PollUrl(args.resource, response.data);
      var rest := PollSpec(url, DefaultOptions(args), response, script[1..]);
      assert LoopSpec(args, script).events == [Request(args.resource, DefaultOptions(args))] + rest.events by {
        LoopPolls(args, script);
      }
      assert FromResponse(script[0].raw) == response;
      PollRequestsRepeat(url, DefaultOptions(args), response, script[1..]);
      PrependedPollShape(Request(args.resource, DefaultOptions(args)), rest.events, url, DefaultOptions(args));
    }
  }

  /** Every request of a loop carries the caller's options, or `{}` when
      the caller gave none. */
  lemma RequestsCarryOptions(args: FetchArgs, script: seq<Reply>)
    ensures forall e :: e in LoopSpec(args, script).events && e.Request? ==>
      e.options == (if args.options.Some? then args.options.value else NoOptions)
  {
    var events := LoopSpec(args, script).events;
    LoopRequests(args, script);
    forall e | e in events && e.Request?
      ensures e.options == DefaultOptions(args)
    {
      var i :| 0 <= i < |events| && events[i] == e;
    }
  }

  /** A poll-shaped run behind one first event: requests at even positions
      from 2 on, waits at odd ones. */
  lemma PrependedPollShape(first: Event, events: seq<Event>, url: string, options: Options)
    requires PollShaped(events, url, options)
    ensures var all := [first] + events;
      forall i :: 1 <= i < |all| ==>
        && (i % 2 == 1 ==> all[i].Wait?)
        && (i % 2 == 0 ==> all[i] == Request(url, options))
  {
    var all := [first] + events;
    forall i | 1 <= i < |all|
      ensures && (i % 2 == 1 ==> all[i].Wait?)
              && (i % 2 == 0 ==> all[i] == Request(url, options))
    {
      assert all[i] == events[i - 1];
      assert (i - 1) % 2 == 1 - i % 2;
    }
  }

  const JsonHeaders: map<string, string> := map["content-type" := "application/json"]

  /** The long-poll scenario: a first answer `{msg: "Still Processing",
      task_id: "T1", sleep: 50}` and a terminal second answer give one wait
      of 50, a second request with `task_id=T1` appended, and the second
      answer as result. */
  lemma PollingScenario(resource: string, status: int, body: map<string, Json>)
    requires '?' !in resource && "msg" !in body
    ensures var first := JObj(map["msg" := JStr("Still Processing"), "task_id" := JStr("T1"), "sleep" := JNum(50)]);
      var script := [Answer(RawResponse(true, 200, JsonHeaders, "", Some(first))),
                     Answer(RawResponse(true, status, JsonHeaders, "", Some(JObj(body))))];
      LoopSpec(FetchArgs(resource, None), script)
        == Run(Returned(FetchResponse(true, JsonHeaders, status, JObj(body))), 2,
               [Request(resource, NoOptions), Wait(Some(JNum(50))), Request(resource + "?task_id=T1", NoOptions)])
  {
    var first := JObj(map["msg" := JStr("Still Processing"), "task_id" := JStr("T1"), "sleep" := JNum(50)]);
    var replies := [Answer(RawResponse(true, 200, JsonHeaders, "", Some(first))),
                    Answer(RawResponse(true, status, JsonHeaders, "", Some(JObj(body))))];
    var polling := FetchResponse(true, JsonHeaders, 200, first);
    assert DeclaresJson(JsonHeaders) by {
      assert StartsWith("application/json", "application/json");
    }
    assert Observe(replies[0]) == Some(polling);
    assert Observe(replies[1]) == Some(FetchResponse(true, JsonHeaders, status, JObj(body)));
    assert Get(first, "sleep") == Some(JNum(50)) && NeedsMoreTime(first);
    assert PollUrl(resource, first) == resource + "?task_id=T1" by {
      ScenarioPollUrl(resource);
    }
    TwoReplies(FetchArgs(resource, None), replies[0], replies[1]);
    assert replies == [replies[0], replies[1]];
  }

  /** A first reply that needs more time and a terminal second reply: two
      requests with one wait between them, and the second reply returned. */
  lemma TwoReplies(args: FetchArgs, first: Reply, second: Reply)
    requires Observe(first).Some? && NeedsMoreTime(Observe(first).value.data)
    requires Observe(second).Some? && !NeedsMoreTime(Observe(second).value.data)
    ensures var polling := Observe(first).value;
      LoopSpec(args, [first, second])
        == Run(Returned(Observe(second).value), 2,
               [Request(args.resource, DefaultOptions(args)), Wait(Get(polling.data, "sleep")),
                Request(PollUrl(args.resource, polling.data), DefaultOptions(args))])
  {
    var polling := Observe(first).value;
    var url := PollUrl(args.resource, polling.data);
    LoopPolls(args, [first, second]);
    assert [first, second][1..] == [second];
    PollEnds(url, DefaultOptions(args), polling, [second], 0, []);
  }

  /** The poll URL of the scenario's first answer. */
  lemma ScenarioPollUrl(resource: string)
    requires '?' !in resource
    ensures PollUrl(resource, JObj(map["msg" := JStr("Still Processing"), "task_id" := JStr("T1"), "sleep" := JNum(50)]))
         == resource + "?task_id=T1"
  {
    var first := JObj(map["msg" := JStr("Still Processing"), "task_id" := JStr("T1"), "sleep" := JNum(50)]);
    var url := resource + "?task_id=T1";
    assert Get(first, "task_id") == Some(JStr("T1"));
    assert ToJsString(Some(JStr("T1"))) == "T1";
    assert resource + ['?'] + "task_id=" + "T1" == url;
    assert FormEncode("T1") == "T1" by {
      assert FormEncode("1") == "1" by {
        assert FormEncode("") == "";
      }
      assert "T1"[1..] == "1";
    }
  }

  /** A run that `done` replies and the events `seen` lead into. */
  function Glue(done: nat, seen: seq<Event>, rest: Run): Run
  {
    Run(rest.outcome, rest.consumed + done, seen + rest.events)
  }

  /** One iteration of the poll loop with no reply left: it waits. */
  lemma PollNoReply(url: string, options: Options, response: FetchResponse, done: nat, seen: seq<Event>)
    requires NeedsMoreTime(response.data)
    ensures Glue(done, seen, PollSpec(url, options, response, []))
         == Run(Awaiting, done, seen + [Wait(Get(response.data, "sleep")), Request(url, options)])
  {
  }

  /** One iteration of the poll loop whose reply throws. */
  lemma PollThrows(url: string, options: Options, response: FetchResponse, script: seq<Reply>, done: nat, seen: seq<Event>)
    requires NeedsMoreTime(response.data) && script != [] && Observe(script[0]).None?
    ensures Glue(done, seen, PollSpec(url, options, response, script))
         == Run(Returned(BadResponse()), done + 1, seen + [Wait(Get(response.data, "sleep")), Request(url, options)])
  {
  }

  /** One iteration of the poll loop whose reply is terminal. */
  lemma PollEnds(url: string, options: Options, response: FetchResponse, script: seq<Reply>, done: nat, seen: seq<Event>)
    requires NeedsMoreTime(response.data) && script != [] && Observe(script[0]).Some?
    requires !NeedsMoreTime(Observe(script[0]).value.data)
    ensures Glue(done, seen, PollSpec(url, options, response, script))
         == Run(Returned(Observe(script[0]).value), done + 1, seen + [Wait(Get(response.data, "sleep")), Request(url, options)])
  {
  }

  /** One iteration of the poll loop whose reply still needs more time. */
  lemma PollContinues(url: string, options: Options, response: FetchResponse, script: seq<Reply>, done: nat, seen: seq<Event>)
    requires NeedsMoreTime(response.data) && script != [] && Observe(script[0]).Some?
    requires NeedsMoreTime(Observe(script[0]).value.data)
    ensures Glue(done, seen, PollSpec(url, options, response, script))
         == Glue(done + 1, seen + [Wait(Get(response.data, "sleep")), Request(url, options)],
                 PollSpec(url, options, Observe(script[0]).value, script[1..]))
  {
    var step := [Wait(Get(response.data, "sleep")), Request(url, options)];
    var rest := PollSpec(url, options, Observe(script[0]).value, script[1..]);
    assert seen + (step + rest.events) == (seen + step) + rest.events;
  }

  /** The loop's first request, when the script continues into polling. */
  lemma LoopPolls(args: FetchArgs, script: seq<Reply>)
    requires script != [] && Observe(script[0]).Some? && NeedsMoreTime(Observe(script[0]).value.data)
    ensures var response := Observe(script[0]).value;
      LoopSpec(args, script) == Glue(1, [Request(args.resource, DefaultOptions(args))],
        PollSpec(PollUrl(args.resource, response.data), DefaultOptions(args), response, script[1..]))
  {
  }

  /** Appending a wait and then a request to a log that holds `seen`. */
  lemma EventsAssociate(a: seq<Event>, b: seq<Event>, c: seq<Event>)
    ensures a + b + c == a + (b + c)
  {
  }

  lemma LogGrows(log0: seq<Event>, seen: seq<Event>, wait: Event, request: Event)
    ensures log0 + seen + [wait] + [request] == log0 + (seen + [wait, request])
  {
  }

  /** The engine, with the busy flag of the single-flight policy. */
  class NetworkEngine {
    var busy: bool
    /** Replies the transport has yet to deliver, in order. */
    var script: seq<Reply>
    /** Requests issued and waits performed, in order. */
    var log: seq<Event>

    constructor (replies: seq<Reply>)
      ensures !busy && script == replies && log == []
    {
      busy := false;
      script := replies;
      log := [];
    }

    /** The engine's state moved as `netFetch(args)` moves it, with result `out`. */
    twostate predicate Fetched(args: FetchArgs, new out: Completion<FetchResponse>)
      reads this
    {
      var run := FetchSpec(old(busy), args, old(script));
      && out == run.outcome
      && script == old(script)[run.consumed..]
      && log == old(log) + run.events
      && busy == (old(busy) || out.Awaiting?)
    }

    /** One transport call: the request is issued, and the next scripted
        reply, if any, is taken. */
    method Send(resource: string, options: Options) returns (reply: Option<Reply>)
      modifies this`script, this`log
      ensures log == old(log) + [Request(resource, options)]
      ensures old(script) == [] ==> reply == None && script == []
      ensures old(script) != [] ==> reply == Some(old(script)[0]) && script == old(script)[1..]
    {
      log := log + [Request(resource, options)];
      if script == [] {
        reply := None;
      } else {
        reply := Some(script[0]);
        script := script[1..];
      }
    }

    /** `fetchLoop`: the first request, then the polling loop while the
        response needs more time. */
    method FetchLoop(args: FetchArgs) returns (out: Completion<FetchResponse>)
      modifies this`script, this`log
      ensures var run := LoopSpec(args, old(script));
        && out == run.outcome
        && script == old(script)[run.consumed..]
        && log == old(log) + run.events
    {
      ghost var script0, log0 := script, log;
      var options := DefaultOptions(args);
      var reply := Send(args.resource, options);
      if reply.None? {
        return Awaiting;
      }
      var first := Observe(reply.value);
      if first.None? {
        return Returned(BadResponse());
      }
      var response := first.value;
      if !NeedsMoreTime(response.data) {
        return Returned(response);
      }
      var url := PollUrl(args.resource, response.data);
      ghost var rest := PollSpec(url, options, response, script);
      out := Poll(url, options, response);
      LoopPolls(args, script0);
      assert script0[1..][rest.consumed..] == script0[rest.consumed + 1..];
      EventsAssociate(log0, [Request(args.resource, options)], rest.events);
    }

    /** The `while` loop of `fetchLoop`: wait the latest `sleep`, request the
        poll URL, and normalise the reply, until a response no longer needs
        more time or something throws. */
    method Poll(url: string, options: Options, response: FetchResponse) returns (out: Completion<FetchResponse>)
      requires NeedsMoreTime(response.data)
      modifies this`script, this`log
      ensures var run := PollSpec(url, options, response, old(script));
        && out == run.outcome
        && script == old(script)[run.consumed..]
        && log == old(log) + run.events
    {
      ghost var script0, log0 := script, log;
      ghost var spec := PollSpec(url, options, response, script0);
      ghost var done: nat := 0;
      ghost var seen: seq<Event> := [];
      var latest := response;
      while NeedsMoreTime(latest.data)
        invariant done <= |script0| && script == script0[done..]
        invariant log == log0 + seen
        invariant NeedsMoreTime(latest.data) ==> spec == Glue(done, seen, PollSpec(url, options, latest, script))
        invariant !NeedsMoreTime(latest.data) ==> spec == Run(Returned(latest), done, seen)
        decreases |script|
      {
        ghost var before, prior := script, seen;
        var wait := Wait(Get(latest.data, "sleep"));
        log := log + [wait];
        ghost var request := Request(url, options);
        seen := seen + [wait, request];
        LogGrows(log0, prior, wait, request);
        var reply := Send(url, options);
        if reply.None? {
          PollNoReply(url, options, latest, done, prior);
          return Awaiting;
        }
        done := done + 1;
        var next := Observe(reply.value);
        if next.None? {
          PollThrows(url, options, latest, before, done - 1, prior);
          return Returned(BadResponse());
        }
        if NeedsMoreTime(next.value.data) {
          PollContinues(url, options, latest, before, done - 1, prior);
        } else {
          PollEnds(url, options, latest, before, done - 1, prior);
        }
        latest := next.value;
      }
      return Returned(latest);
    }

    /** `netFetch`: rejected with `badResponse()` and no transport call while
        busy; otherwise busy is set, the loop runs, and busy is cleared when
        the loop returns (it stays set while the loop still waits). */
    method Fetch(args: FetchArgs) returns (out: Completion<FetchResponse>)
      modifies this
      ensures Fetched(args, out)
    {
      if busy {
        return Returned(BadResponse());
      }
      busy := true;
      out := FetchLoop(args);
      if out.Returned? {
        busy := false;
      }
    }
  }
}
