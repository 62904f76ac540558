/** The deep-link bridge of the `Link` component: OAuth callback URLs
    (`cocoapp://oauth/callback?data=...`) are turned into a call of the
    callback with the parsed `data` payload, and pressing the link opens
    the target with `platform=mobile` appended. The platform's `Linking`
    and `Alert` calls are recorded as events. The form-urlencoded
    percent-decoding `URLSearchParams` applies and `JSON.parse` are given as
    functions. */
module DeepLink {
  import opened JsValues
  import opened Strings
  import opened UriCoding
  import opened UrlHelpers

  const CallbackPrefix: string := "cocoapp://oauth/callback"

  /** The query of a URL: after the first `?` and before the fragment; empty
      when there is none. */
  function QueryOf(url: string): (q: string)
    ensures '#' !in q
    ensures '?' in url && '#' !in url ==> q == url[IndexOf(url, '?') + 1..]
    ensures '#' in url && '?' in url[..IndexOf(url, '#')] ==> q == url[IndexOf(url, '?') + 1..IndexOf(url, '#')]
    ensures '?' !in url ==> q == ""
  {
    var beforeHash := if '#' in url then url[..IndexOf(url, '#')] else url;
    if '?' in beforeHash then beforeHash[IndexOf(beforeHash, '?') + 1..] else ""
  }

  /** The name of a query segment: up to its first `=`, or all of it. */
  function RawName(segment: string): string
  {
    if '=' in segment then segment[..IndexOf(segment, '=')] else segment
  }

  /** The value of a query segment: after its first `=`, or empty. */
  function RawValue(segment: string): string
  {
    if '=' in segment then segment[IndexOf(segment, '=') + 1..] else ""
  }

  /** A non-empty segment whose form-decoded name is `name`. */
  predicate Names(segment: string, name: string, percentDecode: string -> string)
  {
    segment != "" && percentDecode(PlusToSpace(RawName(segment))) == name
  }

  /** `urlObj.searchParams.get(name)`: the value of the first pair with that
      name. Empty segments are skipped; a segment splits at its first `=`
      (none: the value is empty); names and values are form-decoded. */
  function SearchParam(segments: seq<string>, name: string, percentDecode: string -> string): Option<string>
    decreases |segments|
  {
    if segments == [] then None
    else if Names(segments[0], name, percentDecode) then Some(percentDecode(PlusToSpace(RawValue(segments[0]))))
    else SearchParam(segments[1..], name, percentDecode)
  }

  /** `get` finds a value exactly when some segment names the parameter,
      and then it is the decoded value of the first such segment. */
  lemma {:induction false} SearchParamFirst(segments: seq<string>, name: string, percentDecode: string -> string)
    ensures SearchParam(segments, name, percentDecode).Some? <==>
      exists i :: 0 <= i < |segments| && Names(segments[i], name, percentDecode)
    ensures SearchParam(segments, name, percentDecode).Some? ==>
      exists i :: 0 <= i < |segments| && Names(segments[i], name, percentDecode)
        && (forall j :: 0 <= j < i ==> !Names(segments[j], name, percentDecode))
        && SearchParam(segments, name, percentDecode).value == percentDecode(PlusToSpace(RawValue(segments[i])))
    decreases |segments|
  {
    if segments != [] && !Names(segments[0], name, percentDecode) {
      var rest := segments[1..];
      SearchParamFirst(rest, name, percentDecode);
      if exists i :: 0 <= i < |segments| && Names(segments[i], name, percentDecode) {
        var i :| 0 <= i < |segments| && Names(segments[i], name, percentDecode);
        assert rest[i - 1] == segments[i];
      }
      if SearchParam(segments, name, percentDecode).Some? {
        var k :| 0 <= k < |rest| && Names(rest[k], name, percentDecode)
          && (forall j :: 0 <= j < k ==> !Names(rest[j], name, percentDecode))
          && SearchParam(rest, name, percentDecode).value == percentDecode(PlusToSpace(RawValue(rest[k])));
        assert segments[k + 1] == rest[k];
        forall j | 0 <= j < k + 1 ensures !Names(segments[j], name, percentDecode) {
          if j > 0 {
            assert segments[j] == rest[j - 1];
          }
        }
      }
    }
  }

  /** What `handleUrl` hands to the callback for `url`: None when the URL is
      not a callback URL, has no non-empty `data` parameter, or when
      `decodeURIComponent` or `JSON.parse` throws (the error is caught). */
  function CallbackArgument(url: string, percentDecode: string -> string, parseJson: string -> Option<Json>): (r: Option<Json>)
    ensures !StartsWith(url, CallbackPrefix) ==> r == None
  {
    if !StartsWith(url, CallbackPrefix) then None
    else
      match SearchParam(Split(QueryOf(url), '&'), "data", percentDecode)
      case None => None
      case Some(data) =>
        if data == "" then None
        else
          match Decode(data)
          case None => None
          case Some(text) => parseJson(text)
  }

  /** The callback is called with a value only when a non-empty `data`
      parameter decodes, and then with what parsing the decoded text gives. */
  lemma CallbackArgumentParses(url: string, percentDecode: string -> string, parseJson: string -> Option<Json>)
    ensures CallbackArgument(url, percentDecode, parseJson).Some? <==>
      && StartsWith(url, CallbackPrefix)
      && var data := SearchParam(Split(QueryOf(url), '&'), "data", percentDecode);
         && data.Some? && data.value != ""
         && Decode(data.value).Some?
         && parseJson(Decode(data.value).value).Some?
  {
  }

  lemma EncodeKeepsUnreserved(s: string)
    requires forall i :: 0 <= i < |s| ==> Unreserved(s[i])
    ensures Encode(s) == s
    decreases |s|
  {
    if s != [] {
      EncodeKeepsUnreserved(s[1..]);
    }
  }

  lemma EncodedHasNoSeparators(s: string)
    ensures var e := Encode(s);
      '&' !in e && '#' !in e && '?' !in e && '=' !in e && '+' !in e
  {
    var e := Encode(s);
    assert forall i :: 0 <= i < |e| ==> e[i] != '&' && e[i] != '#' && e[i] != '?' && e[i] != '=' && e[i] != '+';
  }

  lemma {:induction false} EncodeNonEmpty(s: string)
    requires s != ""
    ensures Encode(s) != ""
  {
    if !Unreserved(s[0]) {
      assert |EscapeAll(Utf8(s[0]))| >= 3;
    }
  }

  /** The query of a callback URL with a single `data` parameter. */
  lemma CallbackQuery(payload: string)
    requires '#' !in payload
    ensures QueryOf(CallbackPrefix + "?data=" + payload) == "data=" + payload
  {
    var url := CallbackPrefix + "?data=" + payload;
    var query := "data=" + payload;
    assert url == CallbackPrefix + ['?'] + query;
    assert '#' !in url by {
      assert '#' !in CallbackPrefix && '#' !in "data=";
    }
    assert '?' !in CallbackPrefix;
    FirstAfter(CallbackPrefix, '?', query);
  }

  /** The `data` parameter of a query holding only `data=<payload>`. */
  lemma DataSegment(payload: string, percentDecode: string -> string)
    requires '&' !in payload
    requires percentDecode("data") == "data"
    ensures SearchParam(Split("data=" + payload, '&'), "data", percentDecode) == Some(percentDecode(PlusToSpace(payload)))
  {
    var segment := "data" + ['='] + payload;
    assert "data=" + payload == segment;
    assert '=' !in "data" && '&' !in "data=";
    assert PlusToSpace("data") == "data";
    assert RawName(segment) == "data" && RawValue(segment) == payload by {
      FirstAfter("data", '=', payload);
    }
    assert Split(segment, '&') == [segment] by {
      assert '&' !in segment;
    }
  }

  /** What the callback receives for `data=<payload>` with an encoded payload. */
  lemma EncodedPayload(x: string, percentDecode: string -> string, parseJson: string -> Option<Json>)
    requires x != ""
    requires forall y :: percentDecode(Encode(y)) == y
    ensures CallbackArgument(CallbackPrefix + "?data=" + Encode(x), percentDecode, parseJson)
         == match Decode(x) case None => None case Some(text) => parseJson(text)
  {
    var payload := Encode(x);
    var url := CallbackPrefix + "?data=" + payload;
    assert StartsWith(url, CallbackPrefix) by {
      assert url[..|CallbackPrefix|] == CallbackPrefix;
    }
    assert QueryOf(url) == "data=" + payload by {
      EncodedHasNoSeparators(x);
      CallbackQuery(payload);
    }
    assert SearchParam(Split("data=" + payload, '&'), "data", percentDecode) == Some(x) by {
      EncodedDataParam(x, percentDecode);
    }
  }

  /** The `data` parameter of `data=<encoded x>` reads back as `x`. */
  lemma EncodedDataParam(x: string, percentDecode: string -> string)
    requires forall y :: percentDecode(Encode(y)) == y
    ensures SearchParam(Split("data=" + Encode(x), '&'), "data", percentDecode) == Some(x)
  {
    var payload := Encode(x);
    assert percentDecode("data") == "data" by {
      DataIsPlain();
      assert percentDecode(Encode("data")) == "data";
    }
    EncodedHasNoSeparators(x);
    DataSegment(payload, percentDecode);
    assert PlusToSpace(payload) == payload;
  }

  lemma DataIsPlain()
    ensures Encode("data") == "data"
  {
    EncodeKeepsUnreserved("data");
  }

  /** The callback URL a server builds for a payload: the JSON text
      percent-encoded twice. */
  function CallbackUrl(text: string): string
  {
    CallbackPrefix + "?data=" + Encode(Encode(text))
  }

  /** A payload sent encoded twice reaches the callback as the parsed text:
      the search parameter undoes one encoding and `decodeURIComponent` the
      other. */
  lemma DoubleEncodedPayloadArrives(text: string, percentDecode: string -> string, parseJson: string -> Option<Json>)
    requires text != ""
    requires forall x :: percentDecode(Encode(x)) == x
    ensures CallbackArgument(CallbackUrl(text), percentDecode, parseJson) == parseJson(text)
  {
    EncodeNonEmpty(text);
    EncodedPayload(Encode(text), percentDecode, parseJson);
    DecodeEncode(text);
  }

  /** A payload sent encoded once arrives as well when its text holds no
      `%`: `decodeURIComponent` then leaves it as it is. */
  lemma SingleEncodedPayloadArrives(text: string, percentDecode: string -> string, parseJson: string -> Option<Json>)
    requires text != "" && '%' !in text
    requires forall x :: percentDecode(Encode(x)) == x
    ensures CallbackArgument(CallbackPrefix + "?data=" + Encode(text), percentDecode, parseJson) == parseJson(text)
  {
    EncodedPayload(text, percentDecode, parseJson);
    DecodeWithoutEscapes(text);
  }

  /** `to` with `platform=mobile` appended as a query parameter. */
  function PlatformUrl(to: string): (url: string)
    ensures StartsWith(url, to)
  {
    to + [if '?' in to then '&' else '?'] + "platform=mobile"
  }

  const PlatformParam: (string, string) := ("platform", "mobile")

  lemma PlatformPairText()
    ensures PairText(PlatformParam) == "platform=mobile"
  {
    assert "platform" + "=" + "mobile" == "platform=mobile";
    PlainWords();
  }

  lemma PlainWords()
    ensures Encode("platform") == "platform" && Encode("mobile") == "mobile"
  {
    EncodeKeepsUnreserved("platform");
    EncodeKeepsUnreserved("mobile");
  }

  /** The opened URL is the target with the one parameter appended as
      `fromEndpointAndParams` appends it. */
  lemma PlatformUrlIsBuilt(to: string)
    ensures PairTexts([PlatformParam]) == ["platform=mobile"]
    ensures PlatformUrl(to) == FromEndpointAndParams(to, [PlatformParam])
  {
    PlatformPairText();
    assert PairTexts([PlatformParam]) == [PairText(PlatformParam)];
  }

  /** Read back with `parseDeepLinkURL`, a target without a query opens
      with just `platform -> mobile`. */
  lemma PlatformUrlParsesWithoutQuery(to: string)
    requires '?' !in to
    ensures ParseDeepLinkURL(PlatformUrl(to)) == Some(map["platform" := "mobile"])
  {
    PlatformUrlIsBuilt(to);
    ParseBuiltURL(to, [PlatformParam]);
    assert Assign(map[], [PlatformParam]) == Assign(map["platform" := "mobile"], []);
  }

  /** A query with the parameter appended parses to the query's record
      with the parameter written on top. */
  lemma ParseAppendedParam(query: string, m: map<string, string>)
    requires ParseSegments(Split(query, '&'), map[]) == Some(m)
    ensures ParseSegments(Split(query + "&" + "platform=mobile", '&'), map[]) == Some(m["platform" := "mobile"])
  {
    var t := PairText(PlatformParam);
    PlatformPairText();
    SplitAppend(query, t, '&');
    PairHasNoAmpersand(PlatformParam);
    assert Split(t, '&') == [t];
    assert PairTexts([PlatformParam]) == [t];
    ParseSegmentsAppend(Split(query, '&'), [t], map[]);
    ParsePairTexts([PlatformParam], m);
    assert Assign(m, [PlatformParam]) == Assign(m["platform" := "mobile"], []);
  }

  /** Read back with `parseDeepLinkURL`, a target with a query opens with
      `platform -> mobile` on top of what that query held. */
  lemma PlatformUrlParsesWithQuery(to: string)
    requires '?' in to && ParseDeepLinkURL(to).Some?
    ensures ParseDeepLinkURL(PlatformUrl(to)) == Some(ParseDeepLinkURL(to).value["platform" := "mobile"])
  {
    var url := PlatformUrl(to);
    var i := IndexOf(to, '?');
    assert url[..i] == to[..i];
    IndexOfUnique(url, '?', i);
    var query := to[i + 1..];
    assert url[i + 1..] == query + "&" + "platform=mobile";
    ParseAppendedParam(query, ParseDeepLinkURL(to).value);
  }

  /** Splitting `s & t` splits `s` and `t` apart. */
  lemma {:induction false} SplitAppend(s: string, t: string, c: char)
    ensures Split(s + [c] + t, c) == Split(s, c) + Split(t, c)
    decreases |s|
  {
    if c in s {
      var i := IndexOf(s, c);
      var pre, post := s[..i], s[i + 1..];
      assert s == pre + [c] + post;
      SplitAppend(post, t, c);
      SplitAppendAfter(pre, post, t, c);
    } else {
      SplitAt(s, c, t);
    }
  }

  /** The step of SplitAppend: `s` is `pre`, a separator, then `post`. */
  lemma SplitAppendAfter(pre: string, post: string, t: string, c: char)
    requires c !in pre
    requires Split(post + [c] + t, c) == Split(post, c) + Split(t, c)
    ensures Split(pre + [c] + post + [c] + t, c) == Split(pre + [c] + post, c) + Split(t, c)
  {
    var more, last := Split(post, c), Split(t, c);
    assert Split(pre + [c] + post + [c] + t, c) == [pre] + (more + last) by {
      assert pre + [c] + post + [c] + t == pre + [c] + (post + [c] + t);
      SplitAt(pre, c, post + [c] + t);
    }
    assert Split(pre + [c] + post, c) == [pre] + more by {
      SplitAt(pre, c, post);
    }
    PrependAssociates(pre, more, last);
  }

  lemma PrependAssociates(head: string, more: seq<string>, last: seq<string>)
    ensures [head] + (more + last) == [head] + more + last
  {
  }

  /** Parsing more segments continues from the record the first ones built. */
  lemma {:induction false} ParseSegmentsAppend(first: seq<string>, more: seq<string>, acc: map<string, string>)
    ensures ParseSegments(first + more, acc) ==
      match ParseSegments(first, acc)
      case None => None
      case Some(m) => ParseSegments(more, m)
    decreases |first|
  {
    if first != [] {
      assert (first + more)[1..] == first[1..] + more;
      match SegmentEntry(first[0])
      case None =>
      case Some(entry) =>
        ParseSegmentsAppend(first[1..], more, Write(acc, entry));
    } else {
      assert first + more == more;
    }
  }

  /** What `canOpenURL` reports: supported, unsupported, or it throws. */
  datatype Capability = Supported | Unsupported | CheckFailed

  /** The platform calls the component makes. */
  datatype PlatformCall = CanOpen(url: string) | Open(url: string) | Alert(title: string, message: string)

  /** The result of `Linking.getInitialURL()` at mount. */
  datatype InitialUrl = NoInitialUrl | InitialUrl(url: string) | InitialUrlFailed

  /** The calls `handlePress` makes: the capability check of the platform
      URL, then opening it when supported and an alert naming it when not;
      a throw from either call ends in the generic alert. The check always
      comes first; three calls are made only when a supported open throws. */
  function PressCalls(to: string, capability: Capability, openFails: bool): (calls: seq<PlatformCall>)
    ensures |calls| == (if capability == Supported && openFails then 3 else 2)
    ensures calls[0] == CanOpen(PlatformUrl(to))
  {
    var url := PlatformUrl(to);
    match capability
    case CheckFailed => [CanOpen(url), Alert("Error", "Failed to open authentication page")]
    case Unsupported => [CanOpen(url), Alert("Error", "Cannot open URL: " + url)]
    case Supported =>
      if openFails then [CanOpen(url), Open(url), Alert("Error", "Failed to open authentication page")]
      else [CanOpen(url), Open(url)]
  }

  /** The target is opened exactly when the check says it is supported, and
      only ever at the platform URL; an alert names the URL exactly when it
      is unsupported. */
  lemma PressOpensOnlyWhenSupported(to: string, capability: Capability, openFails: bool)
    ensures var calls := PressCalls(to, capability, openFails);
      && calls[0] == CanOpen(PlatformUrl(to))
      && (Open(PlatformUrl(to)) in calls <==> capability == Supported)
      && (forall i :: 0 <= i < |calls| && calls[i].Open? ==> calls[i].url == PlatformUrl(to))
      && (Alert("Error", "Cannot open URL: " + PlatformUrl(to)) in calls <==> capability == Unsupported)
      && (capability == Supported && !openFails <==> forall i :: 0 <= i < |calls| ==> !calls[i].Alert?)
  {
    var calls := PressCalls(to, capability, openFails);
    var url := PlatformUrl(to);
    assert "Cannot open URL: " + url != "Failed to open authentication page" by {
      assert ("Cannot open URL: " + url)[0] == 'C';
    }
    if !(capability == Supported && !openFails) {
      assert calls[|calls| - 1].Alert?;
    }
  }

  /** The component: its event subscription, the values handed to the
      callback, and the platform calls. */
  class LinkBridge {
    /** Whether an `onCallback` prop was given. */
    const hasCallback: bool
    const percentDecode: string -> string
    const parseJson: string -> Option<Json>
    var listening: bool
    /** The arguments of every callback call, in order. */
    var delivered: seq<Json>
    var calls: seq<PlatformCall>

    constructor (hasCallback: bool, percentDecode: string -> string, parseJson: string -> Option<Json>)
      ensures this.hasCallback == hasCallback && this.percentDecode == percentDecode && this.parseJson == parseJson
      ensures !listening && delivered == [] && calls == []
    {
      this.hasCallback := hasCallback;
      this.percentDecode := percentDecode;
      this.parseJson := parseJson;
      listening := false;
      delivered := [];
      calls := [];
    }

    /** `handleUrl`: at most one callback call, with the parsed payload. */
    method HandleUrl(url: string)
      modifies this`delivered
      ensures var arg := CallbackArgument(url, percentDecode, parseJson);
        delivered == old(delivered) + (if arg.Some? then [arg.value] else [])
    {
      var arg := CallbackArgument(url, percentDecode, parseJson);
      if arg.Some? {
        delivered := delivered + [arg.value];
      }
    }

    /** The effect: nothing without a callback; otherwise the subscription is
        made and the initial URL, when there is one with the callback prefix,
        is handled. */
    method Mount(initial: InitialUrl)
      modifies this`listening, this`delivered
      ensures !hasCallback ==> listening == old(listening) && delivered == old(delivered)
      ensures hasCallback ==> listening
      ensures hasCallback && initial.InitialUrl? && StartsWith(initial.url, CallbackPrefix) ==>
        var arg := CallbackArgument(initial.url, percentDecode, parseJson);
        delivered == old(delivered) + (if arg.Some? then [arg.value] else [])
      ensures !(hasCallback && initial.InitialUrl? && StartsWith(initial.url, CallbackPrefix)) ==>
        delivered == old(delivered)
    {
      if !hasCallback {
        return;
      }
      listening := true;
      if initial.InitialUrl? && initial.url != "" && StartsWith(initial.url, CallbackPrefix) {
        HandleUrl(initial.url);
      }
    }

    /** A `url` event: handled only while subscribed. */
    method Receive(url: string)
      modifies this`delivered
      ensures !listening ==> delivered == old(delivered)
      ensures listening ==>
        var arg := CallbackArgument(url, percentDecode, parseJson);
        delivered == old(delivered) + (if arg.Some? then [arg.value] else [])
    {
      if listening {
        HandleUrl(url);
      }
    }

    /** The effect's cleanup removes the subscription. */
    method Unmount()
      modifies this`listening
      ensures hasCallback ==> !listening
      ensures !hasCallback ==> listening == old(listening)
    {
      if hasCallback {
        listening := false;
      }
    }

    /** `handlePress` */
    method Press(to: string, capability: Capability, openFails: bool)
      modifies this`calls
      ensures calls == old(calls) + PressCalls(to, capability, openFails)
    {
      var url := PlatformUrl(to);
      calls := calls + [CanOpen(url)];
      if capability == CheckFailed {
        calls := calls + [Alert("Error", "Failed to open authentication page")];
      } else if capability == Supported {
        calls := calls + [Open(url)];
        if openFails {
          calls := calls + [Alert("Error", "Failed to open authentication page")];
        }
      } else {
        calls := calls + [Alert("Error", "Cannot open URL: " + url)];
      }
    }
  }
}
