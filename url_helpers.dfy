/** The URL helpers: building a query string onto an endpoint and parsing
    the query of a deep-link URL into a key/value record. A record's entries
    are given in their iteration order as a sequence of pairs. */
module UrlHelpers {
  import opened JsValues
  import opened Strings
  import opened UriCoding

  /** `&` when the endpoint already has a query, `?` otherwise. */
  function QueryChar(endpoint: string): char
  {
    if '?' in endpoint then '&' else '?'
  }

  /** `${encodeURIComponent(key)}=${encodeURIComponent(value)}` */
  function PairText(entry: (string, string)): string
  {
    Encode(entry.0) + "=" + Encode(entry.1)
  }

  function PairTexts(params: seq<(string, string)>): (texts: seq<string>)
    ensures |texts| == |params|
    ensures forall i :: 0 <= i < |params| ==> texts[i] == PairText(params[i])
  {
    if params == [] then [] else [PairText(params[0])] + PairTexts(params[1..])
  }

  /** `fromEndpointAndParams`: the endpoint unchanged, the separator, then the
      encoded pairs in order, joined by `&`. */
  function FromEndpointAndParams(endpoint: string, params: seq<(string, string)>): (url: string)
    ensures StartsWith(url, endpoint)
    ensures |url| > |endpoint| && url[|endpoint|] == QueryChar(endpoint)
    ensures params == [] ==> url == endpoint + [QueryChar(endpoint)]
  {
    endpoint + [QueryChar(endpoint)] + Join(PairTexts(params), '&')
  }

  /** No parameters leave the bare separator: `"e"` gives `"e?"`; a space
      in a value is written `%20`. */
  lemma BuildQueryScenarios()
    ensures FromEndpointAndParams("e", []) == "e?"
    ensures FromEndpointAndParams("e?a=1", []) == "e?a=1&"
    ensures Encode("a b") == "a%20b"
  {
    assert Utf8(' ') == [32];
    assert EncodeChar(' ') == Escape(32) == "%20";
    assert Encode("b") == "b";
    assert Encode(" b") == "%20" + "b";
  }

  /** Encoded pairs never contain `&`, and a key and a value never contain `=`,
      so the query splits back into exactly the pairs given, each into its
      encoded key and value. */
  lemma {:induction false} QuerySplitsIntoPairs(endpoint: string, params: seq<(string, string)>)
    requires params != []
    ensures var url := FromEndpointAndParams(endpoint, params);
      && Split(url[|endpoint| + 1..], '&') == PairTexts(params)
      && forall i :: 0 <= i < |params| ==>
           Split(PairTexts(params)[i], '=') == [Encode(params[i].0), Encode(params[i].1)]
  {
    var url := FromEndpointAndParams(endpoint, params);
    var texts := PairTexts(params);
    assert url[|endpoint| + 1..] == Join(texts, '&');
    forall p | p in texts
      ensures '&' !in p
    {
      var i :| 0 <= i < |texts| && texts[i] == p;
      PairHasNoAmpersand(params[i]);
    }
    SplitJoin(texts, '&');
    forall i | 0 <= i < |params|
      ensures Split(texts[i], '=') == [Encode(params[i].0), Encode(params[i].1)]
    {
      PairSplitsAtEquals(params[i]);
    }
  }

  lemma PairHasNoAmpersand(entry: (string, string))
    ensures '&' !in PairText(entry)
  {
    EncodedLacks(entry.0, '&');
    EncodedLacks(entry.1, '&');
  }

  lemma PairSplitsAtEquals(entry: (string, string))
    ensures Split(PairText(entry), '=') == [Encode(entry.0), Encode(entry.1)]
  {
    var k, v := Encode(entry.0), Encode(entry.1);
    EncodedLacks(entry.0, '=');
    EncodedLacks(entry.1, '=');
    assert Join([k, v], '=') == PairText(entry);
    SplitJoin([k, v], '=');
  }

  /** Encoded text holds no character outside the unreserved set but `%`. */
  lemma EncodedLacks(s: string, c: char)
    requires !Unreserved(c) && c != '%'
    ensures c !in Encode(s)
  {
  }

  /** The key and value of one `&`-separated segment: the first `=` piece is
      the key, the second the value, any further pieces are dropped; with no
      `=` the value is `undefined`, which decodes to the text "undefined".
      None when either fails to decode. */
  function SegmentEntry(segment: string): Option<(string, string)>
  {
    var pieces := Split(segment, '=');
    var rawValue := if |pieces| >= 2 then pieces[1] else "undefined";
    match Decode(pieces[0])
    case None => None
    case Some(key) =>
      match Decode(rawValue)
      case None => None
      case Some(value) => Some((key, value))
  }

  /** The key a plain object does not store: `acc['__proto__'] = value`
      goes to the inherited prototype setter, which ignores a string. */
  const ProtoKey: string := "__proto__"

  /** `acc[key] = value` on a plain object. */
  function Write(acc: map<string, string>, entry: (string, string)): map<string, string>
  {
    if entry.0 == ProtoKey then acc else acc[entry.0 := entry.1]
  }

  /** The `reduce` over the segments: each entry is written into the
      accumulated record; any decode failure aborts the whole parse. The
      record only gains keys, and never `__proto__`. */
  function ParseSegments(segments: seq<string>, acc: map<string, string>): (r: Option<map<string, string>>)
    ensures r.Some? ==> acc.Keys <= r.value.Keys
    ensures r.Some? && ProtoKey in r.value ==> ProtoKey in acc
    decreases |segments|
  {
    if segments == [] then Some(acc)
    else
      match SegmentEntry(segments[0])
      case None => None
      case Some(entry) => ParseSegments(segments[1..], Write(acc, entry))
  }

  /** `parseDeepLinkURL`; None is `null`. The record never holds an own
      `__proto__` key. */
  function ParseDeepLinkURL(url: string): (r: Option<map<string, string>>)
    ensures '?' !in url ==> r == None
    ensures r.Some? ==> ProtoKey !in r.value
  {
    if '?' !in url then None
    else ParseSegments(Split(url[IndexOf(url, '?') + 1..], '&'), map[])
  }

  /** Reference semantics of writing entries into a record in order: a later
      entry for a key overwrites an earlier one, and `__proto__` is never
      written. */
  function Assign(acc: map<string, string>, entries: seq<(string, string)>): map<string, string>
    decreases |entries|
  {
    if entries == [] then acc else Assign(Write(acc, entries[0]), entries[1..])
  }

  /** Entry `i` is the last entry for `key`. */
  predicate LastFor(entries: seq<(string, string)>, key: string, i: nat)
  {
    i < |entries| && entries[i].0 == key && forall j :: i < j < |entries| ==> entries[j].0 != key
  }

  /** No entry is for `key`. */
  predicate NoneFor(entries: seq<(string, string)>, key: string)
  {
    forall i :: 0 <= i < |entries| ==> entries[i].0 != key
  }

  /** The record built from entries holds, for every key but `__proto__`,
      the value of the last entry with that key, and keeps the other keys
      (and `__proto__`) as it started with them. */
  lemma AssignLastWins(acc: map<string, string>, entries: seq<(string, string)>, key: string)
    ensures var m := Assign(acc, entries);
      && (forall i: nat :: LastFor(entries, key, i) && key != ProtoKey ==> key in m && m[key] == entries[i].1)
      && (NoneFor(entries, key) || key == ProtoKey ==> (key in m <==> key in acc) && (key in acc ==> m[key] == acc[key]))
  {
    var m := Assign(acc, entries);
    forall i: nat | LastFor(entries, key, i) && key != ProtoKey
      ensures key in m && m[key] == entries[i].1
    {
      AssignLast(acc, entries, key, i);
    }
    if NoneFor(entries, key) || key == ProtoKey {
      AssignKeeps(acc, entries, key);
    }
  }

  /** The entry at `i` is the last one for its key: its value is the one kept. */
  lemma {:induction false} AssignLast(acc: map<string, string>, entries: seq<(string, string)>, key: string, i: nat)
    requires LastFor(entries, key, i) && key != ProtoKey
    ensures key in Assign(acc, entries) && Assign(acc, entries)[key] == entries[i].1
    decreases i
  {
    var acc', rest := Write(acc, entries[0]), entries[1..];
    if i == 0 {
      assert NoneFor(rest, key) by {
        forall j | 0 <= j < |rest| ensures rest[j].0 != key {
          assert rest[j] == entries[j + 1];
        }
      }
      AssignKeeps(acc', rest, key);
    } else {
      assert LastFor(rest, key, i - 1) by {
        assert rest[i - 1] == entries[i];
        forall j | i - 1 < j < |rest| ensures rest[j].0 != key {
          assert rest[j] == entries[j + 1];
        }
      }
      AssignLast(acc', rest, key, i - 1);
    }
  }

  /** Entries for other keys leave a key as it was. */
  lemma {:induction false} AssignKeeps(acc: map<string, string>, entries: seq<(string, string)>, key: string)
    requires NoneFor(entries, key) || key == ProtoKey
    ensures var m := Assign(acc, entries);
      (key in m <==> key in acc) && (key in acc ==> m[key] == acc[key])
    decreases |entries|
  {
    if entries != [] {
      var rest := entries[1..];
      assert NoneFor(rest, key) || key == ProtoKey by {
        if key != ProtoKey {
          forall i | 0 <= i < |rest| ensures rest[i].0 != key {
            assert rest[i] == entries[i + 1];
          }
        }
      }
      AssignKeeps(Write(acc, entries[0]), rest, key);
    }
  }

  /** The parse is the reference semantics over the decoded entries: it
      succeeds exactly when every segment decodes, and then it is Assign. */
  lemma {:induction false} ParseSegmentsIsAssign(segments: seq<string>, acc: map<string, string>)
    ensures (exists i :: 0 <= i < |segments| && SegmentEntry(segments[i]).None?)
            ==> ParseSegments(segments, acc) == None
    ensures (forall i :: 0 <= i < |segments| ==> SegmentEntry(segments[i]).Some?)
            ==> ParseSegments(segments, acc)
                == Some(Assign(acc, seq(|segments|, i requires 0 <= i < |segments| => SegmentEntry(segments[i]).value)))
    decreases |segments|
  {
    if segments != [] {
      var rest := segments[1..];
      match SegmentEntry(segments[0])
      case None =>
      case Some(entry) =>
        ParseSegmentsIsAssign(rest, Write(acc, entry));
        if exists i :: 0 <= i < |segments| && SegmentEntry(segments[i]).None? {
          var i :| 0 <= i < |segments| && SegmentEntry(segments[i]).None?;
          assert i > 0 && rest[i - 1] == segments[i];
        }
        if forall i :: 0 <= i < |segments| ==> SegmentEntry(segments[i]).Some? {
          var all := seq(|segments|, i requires 0 <= i < |segments| => SegmentEntry(segments[i]).value);
          assert forall i :: 0 <= i < |rest| ==> SegmentEntry(rest[i]).Some? by {
            forall i | 0 <= i < |rest| ensures SegmentEntry(rest[i]).Some? {
              assert rest[i] == segments[i + 1];
            }
          }
          assert all[0] == entry;
          assert all[1..] == seq(|rest|, i requires 0 <= i < |rest| => SegmentEntry(rest[i]).value);
        }
    }
  }

  /** Parsing a URL built from an endpoint without a query gives back the
      parameters as a record (a later duplicate key overwriting an earlier
      one). */
  lemma {:induction false} ParseBuiltURL(endpoint: string, params: seq<(string, string)>)
    requires '?' !in endpoint
    requires params != []
    ensures ParseDeepLinkURL(FromEndpointAndParams(endpoint, params)) == Some(Assign(map[], params))
  {
    var url := FromEndpointAndParams(endpoint, params);
    assert url[..|endpoint|] == endpoint;
    IndexOfUnique(url, '?', |endpoint|);
    QuerySplitsIntoPairs(endpoint, params);
    ParsePairTexts(params, map[]);
  }

  lemma {:induction false} ParsePairTexts(params: seq<(string, string)>, acc: map<string, string>)
    ensures ParseSegments(PairTexts(params), acc) == Some(Assign(acc, params))
    decreases |params|
  {
    if params != [] {
      var p := params[0];
      SegmentEntryOfPair(p);
      assert PairTexts(params)[1..] == PairTexts(params[1..]);
      ParsePairTexts(params[1..], Write(acc, p));
    }
  }

  /** A segment written by `fromEndpointAndParams` reads back as its entry. */
  lemma SegmentEntryOfPair(entry: (string, string))
    ensures SegmentEntry(PairText(entry)) == Some(entry)
  {
    PairSplitsAtEquals(entry);
    DecodeEncode(entry.0);
    DecodeEncode(entry.1);
  }

  /** A segment without `=` is a key whose value is the text "undefined";
      it fails only when the key does not decode. */
  lemma SegmentWithoutEquals(segment: string)
    requires '=' !in segment
    ensures SegmentEntry(segment) ==
      match Decode(segment)
      case None => None
      case Some(key) => Some((key, "undefined"))
  {
    assert Split(segment, '=') == [segment];
    DecodeWithoutEscapes("undefined");
  }

  /** An endpoint followed by a bare `?` parses to the single entry
      `"" -> "undefined"`: the empty segment has no `=`. */
  lemma EmptyQueryParse(endpoint: string)
    requires '?' !in endpoint
    ensures ParseDeepLinkURL(endpoint + "?") == Some(map["" := "undefined"])
  {
    var url := endpoint + "?";
    assert url[..|endpoint|] == endpoint;
    IndexOfUnique(url, '?', |endpoint|);
    assert url[|endpoint| + 1..] == "";
    assert Split("", '&') == [""];
    assert Split("", '=') == [""];
    DecodeWithoutEscapes("undefined");
    assert SegmentEntry("") == Some(("", "undefined"));
  }

  /** Only the first two `=` pieces of a segment count: `k=v=w` is `k -> v`. */
  lemma ExtraEqualsDropped(key: string, value: string, tail: string)
    requires '=' !in key && '=' !in value && '%' !in key && '%' !in value
    ensures SegmentEntry(key + "=" + value + "=" + tail) == Some((key, value))
  {
    assert Split(key + "=" + value + "=" + tail, '=') == [key] + ([value] + Split(tail, '=')) by {
      assert key + "=" + value + "=" + tail == key + ['='] + (value + ['='] + tail);
      SplitAt(key, '=', value + ['='] + tail);
      SplitAt(value, '=', tail);
    }
    DecodeWithoutEscapes(key);
    DecodeWithoutEscapes(value);
  }

  /** `e?__proto__=x` parses to the empty record: the write is ignored. */
  lemma ProtoKeyIgnored()
    ensures ParseDeepLinkURL("e?__proto__=x") == Some(map[])
  {
    ProtoQuery();
    ProtoSegment();
    assert ParseSegments([ProtoKey + ['='] + "x"], map[]) == ParseSegments([], map[]);
  }

  lemma ProtoQuery()
    ensures ParseDeepLinkURL("e?__proto__=x") == ParseSegments([ProtoKey + ['='] + "x"], map[])
  {
    var segment := ProtoKey + ['='] + "x";
    var url := "e?" + segment;
    assert url == "e?__proto__=x";
    IndexOfUnique(url, '?', 1);
    assert url[2..] == segment;
    assert '&' !in segment;
    assert Split(segment, '&') == [segment];
  }

  lemma ProtoSegment()
    ensures SegmentEntry(ProtoKey + ['='] + "x") == Some((ProtoKey, "x"))
  {
    assert Split(ProtoKey + ['='] + "x", '=') == [ProtoKey, "x"] by {
      SplitAt(ProtoKey, '=', "x");
    }
    DecodeWithoutEscapes(ProtoKey);
    DecodeWithoutEscapes("x");
  }
}
