/** Percent-encoding as the JavaScript runtime performs it: the
    `encodeURIComponent` / `decodeURIComponent` pair (section 2.1 of RFC 3986,
    over the UTF-8 bytes of each character) and the
    `application/x-www-form-urlencoded` serialiser `URLSearchParams` uses.
    Strings are sequences of Unicode scalar values. */
module UriCoding {
  import opened JsValues

  type Byte = b: int | 0 <= b < 256

  /** The characters `encodeURIComponent` leaves as they are. */
  predicate Unreserved(c: char)
  {
    ('A' <= c <= 'Z') || ('a' <= c <= 'z') || ('0' <= c <= '9') || c in "-_.!~*'()"
  }

  predicate IsHexDigit(c: char)
  {
    ('0' <= c <= '9') || ('A' <= c <= 'F') || ('a' <= c <= 'f')
  }

  function HexValue(c: char): (v: nat)
    requires IsHexDigit(c)
    ensures v < 16
  {
    if '0' <= c <= '9' then c as int - '0' as int
    else if 'A' <= c <= 'F' then c as int - 'A' as int + 10
    else c as int - 'a' as int + 10
  }

  /** Upper-case hexadecimal digit, as the encoder writes it. */
  function HexDigit(d: nat): (c: char)
    requires d < 16
    ensures IsHexDigit(c) && Unreserved(c) && HexValue(c) == d
  {
    if d < 10 then ('0' as int + d) as char else ('A' as int + d - 10) as char
  }

  /** The UTF-8 encoding of one Unicode scalar value. */
  function Utf8(c: char): (bytes: seq<Byte>)
    ensures 1 <= |bytes| <= 4
  {
    var v := c as int;
    if v < 0x80 then [v]
    else if v < 0x800 then [0xC0 + v / 64, 0x80 + v % 64]
    else if v < 0x10000 then [0xE0 + v / 4096, 0x80 + v / 64 % 64, 0x80 + v % 64]
    else [0xF0 + v / 0x40000, 0x80 + v / 4096 % 64, 0x80 + v / 64 % 64, 0x80 + v % 64]
  }

  /** The UTF-8 bytes of a text, as `Buffer.from(text)` produces them. */
  function Utf8Text(s: string): (bytes: seq<Byte>)
    ensures |s| <= |bytes| <= 4 * |s|
  {
    if s == [] then [] else Utf8(s[0]) + Utf8Text(s[1..])
  }

  /** `%XY` for one byte. */
  function Escape(b: Byte): string
  {
    ['%', HexDigit(b / 16), HexDigit(b % 16)]
  }

  function EscapeAll(bytes: seq<Byte>): (r: string)
    ensures |r| == 3 * |bytes|
    ensures forall i :: 0 <= i < |r| ==> Unreserved(r[i]) || r[i] == '%'
  {
    if bytes == [] then "" else Escape(bytes[0]) + EscapeAll(bytes[1..])
  }

  /** `encodeURIComponent` */
  function Encode(s: string): (r: string)
    ensures forall i :: 0 <= i < |r| ==> Unreserved(r[i]) || r[i] == '%'
  {
    if s == [] then "" else EncodeChar(s[0]) + Encode(s[1..])
  }

  function EncodeChar(c: char): (r: string)
    ensures forall i :: 0 <= i < |r| ==> Unreserved(r[i]) || r[i] == '%'
  {
    if Unreserved(c) then [c] else EscapeAll(Utf8(c))
  }

  /** Characters the form serialiser leaves as they are. */
  predicate FormSafe(c: char)
  {
    ('A' <= c <= 'Z') || ('a' <= c <= 'z') || ('0' <= c <= '9') || c in "*-._"
  }

  /** The `application/x-www-form-urlencoded` serialisation of a name or a
      value: a space becomes `+`, other unsafe characters are percent-encoded. */
  function FormEncode(s: string): (r: string)
    ensures forall i :: 0 <= i < |r| ==> Unreserved(r[i]) || r[i] == '%' || r[i] == '+'
  {
    if s == [] then "" else FormEncodeChar(s[0]) + FormEncode(s[1..])
  }

  function FormEncodeChar(c: char): (r: string)
    ensures forall i :: 0 <= i < |r| ==> Unreserved(r[i]) || r[i] == '%' || r[i] == '+'
  {
    if FormSafe(c) then [c] else if c == ' ' then "+" else EscapeAll(Utf8(c))
  }

  /** `+` read as a space, as form decoding does before percent-decoding. */
  function PlusToSpace(s: string): (r: string)
    ensures |r| == |s|
    ensures forall i :: 0 <= i < |s| ==> r[i] == (if s[i] == '+' then ' ' else s[i])
  {
    if s == [] then "" else [if s[0] == '+' then ' ' else s[0]] + PlusToSpace(s[1..])
  }

  /** Reading a form-encoded name or value back, as `URLSearchParams` does:
      `+` is a space, then the escapes are decoded. None stands for a
      malformed escape. */
  function FormDecode(s: string): Option<string>
  {
    Decode(PlusToSpace(s))
  }

  /** The byte written as `%XY` at the start of `s`, if one is written there. */
  function ByteAt(s: string): (r: Option<Byte>)
    ensures r.Some? ==> |s| >= 3
  {
    if 3 <= |s| && s[0] == '%' && IsHexDigit(s[1]) && IsHexDigit(s[2])
    then Some(HexValue(s[1]) * 16 + HexValue(s[2]))
    else None
  }

  /** How many bytes a UTF-8 sequence starting with `lead` has; 0 when no
      sequence can start with it. */
  function SequenceLength(lead: Byte): nat
  {
    if lead < 0x80 then 1
    else if lead < 0xC0 then 0
    else if lead < 0xE0 then 2
    else if lead < 0xF0 then 3
    else if lead < 0xF8 then 4
    else 0
  }

  predicate IsContinuation(b: Byte)
  {
    0x80 <= b < 0xC0
  }

  /** Every byte is a continuation byte. */
  predicate AllContinuations(bytes: seq<Byte>)
    decreases |bytes|
  {
    bytes == [] || (IsContinuation(bytes[0]) && AllContinuations(bytes[1..]))
  }

  /** `count` escaped continuation bytes at the start of `s`. */
  function ContinuationBytes(s: string, count: nat): (r: Option<seq<Byte>>)
    ensures r.Some? ==> |r.value| == count && 3 * count <= |s|
    decreases count
  {
    if count == 0 then Some([])
    else
      match ByteAt(s)
      case None => None
      case Some(b) =>
        if !IsContinuation(b) then None
        else
          match ContinuationBytes(s[3..], count - 1)
          case None => None
          case Some(rest) => Some([b] + rest)
  }

  /** The scalar value a multi-byte sequence denotes. */
  function CodePoint(lead: Byte, cont: seq<Byte>): int
    requires 1 <= |cont| <= 3
  {
    if |cont| == 1 then (lead as int - 0xC0) * 64 + (cont[0] as int - 0x80)
    else if |cont| == 2 then (lead as int - 0xE0) * 4096 + (cont[0] as int - 0x80) * 64 + (cont[1] as int - 0x80)
    else (lead as int - 0xF0) * 0x40000 + (cont[0] as int - 0x80) * 4096 + (cont[1] as int - 0x80) * 64
         + (cont[2] as int - 0x80)
  }

  /** A sequence of `n` bytes is valid UTF-8 only in its shortest form, and
      never for a surrogate or a value above 0x10FFFF. */
  predicate ShortestForm(v: int, n: nat)
  {
    || (n == 2 && 0x80 <= v < 0x800)
    || (n == 3 && 0x800 <= v < 0x10000 && !(0xD800 <= v < 0xE000))
    || (n == 4 && 0x10000 <= v < 0x110000)
  }

  /** One escaped character at the start of `s` (which starts with `%`): the
      character and the number of characters it spans. None is a URIError. */
  function DecodeEscape(s: string): (r: Option<(char, nat)>)
    ensures r.Some? ==> 3 <= r.value.1 <= |s|
  {
    match ByteAt(s)
    case None => None
    case Some(lead) =>
      var n := SequenceLength(lead);
      if n == 0 then None
      else if n == 1 then Some((lead as char, 3))
      else
        match ContinuationBytes(s[3..], n - 1)
        case None => None
        case Some(cont) =>
          var v := CodePoint(lead, cont);
          if ShortestForm(v, n) then Some((v as char, 3 * n)) else None
  }

  function Prepend(c: char, rest: Option<string>): Option<string>
  {
    match rest
    case None => None
    case Some(t) => Some([c] + t)
  }

  /** `decodeURIComponent`; None stands for the URIError it throws. */
  function Decode(s: string): (r: Option<string>)
    ensures r.Some? ==> |r.value| <= |s|
    decreases |s|
  {
    if s == [] then Some("")
    else if s[0] != '%' then Prepend(s[0], Decode(s[1..]))
    else
      match DecodeEscape(s)
      case None => None
      case Some((c, k)) => Prepend(c, Decode(s[k..]))
  }

  /** Text without `%` decodes to itself. */
  lemma {:induction false} DecodeWithoutEscapes(s: string)
    requires '%' !in s
    ensures Decode(s) == Some(s)
  {
    if s != [] {
      assert s[0] != '%';
      assert '%' !in s[1..] by { assert forall c :: c in s[1..] ==> c in s; }
      DecodeWithoutEscapes(s[1..]);
      assert s == [s[0]] + s[1..];
    }
  }

  /** An escape is read back as the byte it writes. */
  lemma ByteAtEscape(b: Byte, rest: string)
    ensures ByteAt(Escape(b) + rest) == Some(b)
  {
    var s := Escape(b) + rest;
    assert s[0] == '%' && s[1] == HexDigit(b / 16) && s[2] == HexDigit(b % 16);
    assert HexValue(s[1]) * 16 + HexValue(s[2]) == b / 16 * 16 + b % 16;
  }

  /** Escaped continuation bytes are read back as they were. */
  lemma {:induction false} ContinuationsOfEscapes(cont: seq<Byte>, t: string)
    requires AllContinuations(cont)
    ensures ContinuationBytes(EscapeAll(cont) + t, |cont|) == Some(cont)
    decreases |cont|
  {
    if cont != [] {
      var tail := cont[1..];
      var rest := EscapeAll(tail) + t;
      var s := Escape(cont[0]) + rest;
      assert EscapeAll(cont) + t == s;
      assert ByteAt(s) == Some(cont[0]) by {
        ByteAtEscape(cont[0], rest);
      }
      assert ContinuationBytes(s[3..], |tail|) == Some(tail) by {
        assert s[3..] == rest;
        ContinuationsOfEscapes(tail, t);
      }
      assert cont == [cont[0]] + tail;
    }
  }

  lemma Utf8Two(v: int)
    requires 0x80 <= v < 0x800
    ensures var lead, cont := 0xC0 + v / 64, [0x80 + v % 64];
      SequenceLength(lead) == 2 && AllContinuations(cont) && CodePoint(lead, cont) == v
  {
    var cont: seq<Byte> := [0x80 + v % 64];
    assert AllContinuations(cont[1..]);
  }

  lemma Utf8Three(v: int)
    requires 0x800 <= v < 0x10000
    ensures var lead, cont := 0xE0 + v / 4096, [0x80 + v / 64 % 64, 0x80 + v % 64];
      SequenceLength(lead) == 3 && AllContinuations(cont) && CodePoint(lead, cont) == v
  {
    var cont: seq<Byte> := [0x80 + v / 64 % 64, 0x80 + v % 64];
    assert AllContinuations(cont[1..]) by {
      assert AllContinuations(cont[1..][1..]);
    }
    assert v / 64 == v / 4096 * 64 + v / 64 % 64;
  }

  lemma Utf8Four(v: int)
    requires 0x10000 <= v < 0x110000
    ensures var lead, cont := 0xF0 + v / 0x40000, [0x80 + v / 4096 % 64, 0x80 + v / 64 % 64, 0x80 + v % 64];
      SequenceLength(lead) == 4 && AllContinuations(cont) && CodePoint(lead, cont) == v
  {
    var cont: seq<Byte> := [0x80 + v / 4096 % 64, 0x80 + v / 64 % 64, 0x80 + v % 64];
    assert AllContinuations(cont[1..]) by {
      assert AllContinuations(cont[1..][1..]) by {
        assert AllContinuations(cont[1..][1..][1..]);
      }
    }
    assert v / 4096 == v / 0x40000 * 64 + v / 4096 % 64;
    assert v / 64 == v / 4096 * 64 + v / 64 % 64;
  }

  /** The UTF-8 bytes of a character lead with the right length marker,
      continue with continuation bytes and denote the character again. */
  lemma Utf8Decodes(c: char)
    ensures var bytes := Utf8(c);
      && SequenceLength(bytes[0]) == |bytes|
      && AllContinuations(bytes[1..])
      && (|bytes| == 1 ==> bytes[0] == c as int)
      && (|bytes| > 1 ==> CodePoint(bytes[0], bytes[1..]) == c as int && ShortestForm(c as int, |bytes|))
  {
    var v := c as int;
    var bytes := Utf8(c);
    if v < 0x80 {
      assert bytes[1..] == [];
    } else if v < 0x800 {
      Utf8Two(v);
      assert bytes[1..] == [0x80 + v % 64];
    } else if v < 0x10000 {
      Utf8Three(v);
      assert bytes[1..] == [0x80 + v / 64 % 64, 0x80 + v % 64];
    } else {
      Utf8Four(v);
      assert bytes[1..] == [0x80 + v / 4096 % 64, 0x80 + v / 64 % 64, 0x80 + v % 64];
    }
  }

  /** What `DecodeEscape` reads from a text starting with the escapes of
      a well-formed sequence. */
  lemma DecodeEscapeOf(s: string, bytes: seq<Byte>, c: char)
    requires 1 <= |bytes| <= 4 && SequenceLength(bytes[0]) == |bytes|
    requires ByteAt(s) == Some(bytes[0])
    requires |bytes| == 1 ==> bytes[0] == c as int
    requires |bytes| > 1 ==> && ContinuationBytes(s[3..], |bytes| - 1) == Some(bytes[1..])
                             && CodePoint(bytes[0], bytes[1..]) == c as int && ShortestForm(c as int, |bytes|)
    ensures DecodeEscape(s) == Some((c, 3 * |bytes|))
  {
  }

  /** The escapes of a well-formed UTF-8 sequence decode to the character
      it denotes. */
  lemma DecodeEscapeOfBytes(bytes: seq<Byte>, c: char, t: string)
    requires 1 <= |bytes| <= 4 && SequenceLength(bytes[0]) == |bytes|
    requires AllContinuations(bytes[1..])
    requires |bytes| == 1 ==> bytes[0] == c as int
    requires |bytes| > 1 ==> CodePoint(bytes[0], bytes[1..]) == c as int && ShortestForm(c as int, |bytes|)
    ensures DecodeEscape(EscapeAll(bytes) + t) == Some((c, 3 * |bytes|))
  {
    var rest := EscapeAll(bytes[1..]) + t;
    var s := Escape(bytes[0]) + rest;
    assert EscapeAll(bytes) + t == s;
    assert ByteAt(s) == Some(bytes[0]) by {
      ByteAtEscape(bytes[0], rest);
    }
    assert ContinuationBytes(s[3..], |bytes| - 1) == Some(bytes[1..]) by {
      assert s[3..] == rest;
      ContinuationsOfEscapes(bytes[1..], t);
    }
    DecodeEscapeOf(s, bytes, c);
  }

  lemma DecodeEscapeOfEncoded(c: char, t: string)
    requires !Unreserved(c)
    ensures DecodeEscape(EncodeChar(c) + t) == Some((c, |EncodeChar(c)|))
  {
    Utf8Decodes(c);
    DecodeEscapeOfBytes(Utf8(c), c, t);
  }

  /** `decodeURIComponent(encodeURIComponent(s)) == s` */
  lemma {:induction false} DecodeEncode(s: string)
    ensures Decode(Encode(s)) == Some(s)
  {
    if s != [] {
      var e := EncodeChar(s[0]);
      var t := Encode(s[1..]);
      DecodeEncode(s[1..]);
      assert Encode(s) == e + t;
      if Unreserved(s[0]) {
        assert (e + t)[0] == s[0] && (e + t)[1..] == t;
      } else {
        DecodeEscapeOfEncoded(s[0], t);
        assert (e + t)[0] == '%';
        assert (e + t)[|e|..] == t;
      }
      assert s == [s[0]] + s[1..];
    }
  }

  lemma PlusToSpaceAppend(a: string, b: string)
    ensures PlusToSpace(a + b) == PlusToSpace(a) + PlusToSpace(b)
  {
    var l, r := PlusToSpace(a + b), PlusToSpace(a) + PlusToSpace(b);
    forall i | 0 <= i < |l| ensures l[i] == r[i] {
      if i < |a| {
        assert (a + b)[i] == a[i];
      } else {
        assert (a + b)[i] == b[i - |a|];
      }
    }
  }

  lemma PlusToSpaceWithoutPlus(s: string)
    requires '+' !in s
    ensures PlusToSpace(s) == s
  {
    var r := PlusToSpace(s);
    forall i | 0 <= i < |s| ensures r[i] == s[i] {
      assert s[i] in s;
    }
  }

  /** One form-encoded character is read back ahead of what follows it. */
  lemma FormDecodeChar(c: char, t: string)
    ensures Decode(PlusToSpace(FormEncodeChar(c)) + t) == Prepend(c, Decode(t))
  {
    var e := FormEncodeChar(c);
    if FormSafe(c) || c == ' ' {
      assert PlusToSpace(e) == [c];
      assert ([c] + t)[1..] == t;
    } else {
      var bytes := Utf8(c);
      assert '+' !in e by {
        forall i | 0 <= i < |e| ensures e[i] != '+' {
          assert Unreserved(e[i]) || e[i] == '%';
        }
      }
      PlusToSpaceWithoutPlus(e);
      Utf8Decodes(c);
      DecodeEscapeOfBytes(bytes, c, t);
      assert (e + t)[0] == '%';
      assert (e + t)[|e|..] == t;
    }
  }

  /** Form decoding inverts the form encoding `searchParams.append` writes. */
  lemma {:induction false} FormDecodeEncode(s: string)
    ensures FormDecode(FormEncode(s)) == Some(s)
  {
    if s != [] {
      var e := FormEncodeChar(s[0]);
      var t := FormEncode(s[1..]);
      FormDecodeEncode(s[1..]);
      assert FormEncode(s) == e + t;
      PlusToSpaceAppend(e, t);
      FormDecodeChar(s[0], PlusToSpace(t));
      assert s == [s[0]] + s[1..];
    }
  }
}
