/** Base 64 encoding with padding (section 4 of RFC 4648), as
    `Buffer.toString('base64')` writes it, and the decoding a server applies
    to it. */
module Base64 {
  import opened JsValues
  import opened UriCoding

  /** The digit for a six-bit value: `A`-`Z`, `a`-`z`, `0`-`9`, `+`, `/`. */
  function Digit(d: nat): (c: char)
    requires d < 64
    ensures c != '='
  {
    if d < 26 then ('A' as int + d) as char
    else if d < 52 then ('a' as int + d - 26) as char
    else if d < 62 then ('0' as int + d - 52) as char
    else if d == 62 then '+'
    else '/'
  }

  /** The value of a digit; None for any other character. */
  function DigitValue(c: char): (v: Option<nat>)
    ensures v.Some? ==> v.value < 64 && Digit(v.value) == c
  {
    if 'A' <= c <= 'Z' then Some(c as int - 'A' as int)
    else if 'a' <= c <= 'z' then Some(c as int - 'a' as int + 26)
    else if '0' <= c <= '9' then Some(c as int - '0' as int + 52)
    else if c == '+' then Some(62)
    else if c == '/' then Some(63)
    else None
  }

  lemma DigitValueOfDigit(d: nat)
    requires d < 64
    ensures DigitValue(Digit(d)) == Some(d)
  {
  }

  /** Three bytes as four digits. */
  function Full(b0: Byte, b1: Byte, b2: Byte): (q: string)
    ensures |q| == 4
  {
    [Digit(b0 / 4), Digit(b0 % 4 * 16 + b1 / 16), Digit(b1 % 16 * 4 + b2 / 64), Digit(b2 % 64)]
  }

  /** Two final bytes as three digits and one `=`. */
  function PaddedTwo(b0: Byte, b1: Byte): (q: string)
    ensures |q| == 4
  {
    [Digit(b0 / 4), Digit(b0 % 4 * 16 + b1 / 16), Digit(b1 % 16 * 4), '=']
  }

  /** One final byte as two digits and two `=`. */
  function PaddedOne(b0: Byte): (q: string)
    ensures |q| == 4
  {
    [Digit(b0 / 4), Digit(b0 % 4 * 16), '=', '=']
  }

  /** Every three bytes become four digits; a final one or two bytes become
      two or three digits padded with `=` to four. */
  function Encode(bytes: seq<Byte>): (s: string)
    ensures |s| == (|bytes| + 2) / 3 * 4
    decreases |bytes|
  {
    if |bytes| == 0 then ""
    else if |bytes| == 1 then PaddedOne(bytes[0])
    else if |bytes| == 2 then PaddedTwo(bytes[0], bytes[1])
    else
      assert (|bytes| + 2) / 3 == (|bytes| - 1) / 3 + 1;
      Full(bytes[0], bytes[1], bytes[2]) + Encode(bytes[3..])
  }

  /** One group of four characters: the bytes it stands for, and whether it
      was padded (only the last group may be). None when a character is not a
      digit or padding is misplaced. */
  function DecodeGroup(c0: char, c1: char, c2: char, c3: char): Option<(seq<Byte>, bool)>
  {
    if DigitValue(c0).None? || DigitValue(c1).None? then None
    else
      var v0, v1 := DigitValue(c0).value, DigitValue(c1).value;
      var b0 := v0 * 4 + v1 / 16;
      if c2 == '=' && c3 == '=' then Some(([b0], true))
      else
        match DigitValue(c2)
        case None => None
        case Some(v2) =>
          var b1 := v1 % 16 * 16 + v2 / 4;
          if c3 == '=' then Some(([b0, b1], true))
          else
            match DigitValue(c3)
            case None => None
            case Some(v3) => Some(([b0, b1, v2 % 4 * 64 + v3], false))
  }

  /** Decoding: groups of four, padding only in the last. */
  function Decode(s: string): Option<seq<Byte>>
    decreases |s|
  {
    if |s| == 0 then Some([])
    else if |s| < 4 then None
    else
      match DecodeGroup(s[0], s[1], s[2], s[3])
      case None => None
      case Some((group, padded)) =>
        if padded then (if |s| == 4 then Some(group) else None)
        else
          match Decode(s[4..])
          case None => None
          case Some(rest) => Some(group + rest)
  }

  lemma GroupOfThree(b0: Byte, b1: Byte, b2: Byte)
    ensures var q := Full(b0, b1, b2);
      DecodeGroup(q[0], q[1], q[2], q[3]) == Some(([b0, b1, b2], false))
  {
    DigitValueOfDigit(b0 / 4);
    DigitValueOfDigit(b0 % 4 * 16 + b1 / 16);
    DigitValueOfDigit(b1 % 16 * 4 + b2 / 64);
    DigitValueOfDigit(b2 % 64);
    assert (b0 % 4 * 16 + b1 / 16) / 16 == b0 % 4;
    assert (b0 % 4 * 16 + b1 / 16) % 16 == b1 / 16;
    assert (b1 % 16 * 4 + b2 / 64) / 4 == b1 % 16;
    assert (b1 % 16 * 4 + b2 / 64) % 4 == b2 / 64;
  }

  lemma GroupOfTwo(b0: Byte, b1: Byte)
    ensures var q := PaddedTwo(b0, b1);
      DecodeGroup(q[0], q[1], q[2], q[3]) == Some(([b0, b1], true))
  {
    DigitValueOfDigit(b0 / 4);
    DigitValueOfDigit(b0 % 4 * 16 + b1 / 16);
    DigitValueOfDigit(b1 % 16 * 4);
    assert (b0 % 4 * 16 + b1 / 16) / 16 == b0 % 4;
    assert (b0 % 4 * 16 + b1 / 16) % 16 == b1 / 16;
    assert (b1 % 16 * 4) / 4 == b1 % 16;
  }

  lemma GroupOfOne(b0: Byte)
    ensures var q := PaddedOne(b0);
      DecodeGroup(q[0], q[1], q[2], q[3]) == Some(([b0], true))
  {
    DigitValueOfDigit(b0 / 4);
    DigitValueOfDigit(b0 % 4 * 16);
    assert (b0 % 4 * 16) / 16 == b0 % 4;
  }

  lemma DecodeOne(bytes: seq<Byte>)
    requires |bytes| == 1
    ensures Decode(Encode(bytes)) == Some(bytes)
  {
    var q := PaddedOne(bytes[0]);
    assert DecodeGroup(q[0], q[1], q[2], q[3]) == Some(([bytes[0]], true)) by {
      GroupOfOne(bytes[0]);
    }
    assert Encode(bytes) == q;
    assert bytes == [bytes[0]];
  }

  lemma DecodeTwo(bytes: seq<Byte>)
    requires |bytes| == 2
    ensures Decode(Encode(bytes)) == Some(bytes)
  {
    var q := PaddedTwo(bytes[0], bytes[1]);
    assert DecodeGroup(q[0], q[1], q[2], q[3]) == Some(([bytes[0], bytes[1]], true)) by {
      GroupOfTwo(bytes[0], bytes[1]);
    }
    assert Encode(bytes) == q;
    assert bytes == [bytes[0], bytes[1]];
  }

  /** A full group in front of a text that decodes. */
  lemma DecodeFullGroup(q: string, group: seq<Byte>, rest: string, tail: seq<Byte>)
    requires |q| == 4 && DecodeGroup(q[0], q[1], q[2], q[3]) == Some((group, false))
    requires Decode(rest) == Some(tail)
    ensures Decode(q + rest) == Some(group + tail)
  {
    var s := q + rest;
    assert s[0] == q[0] && s[1] == q[1] && s[2] == q[2] && s[3] == q[3];
    assert s[4..] == rest;
  }

  lemma DecodeThreeMore(b0: Byte, b1: Byte, b2: Byte, rest: seq<Byte>)
    requires Decode(Encode(rest)) == Some(rest)
    ensures Decode(Encode([b0, b1, b2] + rest)) == Some([b0, b1, b2] + rest)
  {
    var bytes := [b0, b1, b2] + rest;
    var q := Full(b0, b1, b2);
    assert Encode(bytes) == q + Encode(rest) by {
      assert bytes[0] == b0 && bytes[1] == b1 && bytes[2] == b2;
      assert bytes[3..] == rest;
    }
    assert DecodeGroup(q[0], q[1], q[2], q[3]) == Some(([b0, b1, b2], false)) by {
      GroupOfThree(b0, b1, b2);
    }
    DecodeFullGroup(q, [b0, b1, b2], Encode(rest), rest);
  }

  /** Decoding gives back the bytes that were encoded. */
  lemma {:induction false} DecodeEncode(bytes: seq<Byte>)
    ensures Decode(Encode(bytes)) == Some(bytes)
    decreases |bytes|
  {
    if |bytes| == 1 {
      DecodeOne(bytes);
    } else if |bytes| == 2 {
      DecodeTwo(bytes);
    } else if |bytes| > 2 {
      var rest := bytes[3..];
      DecodeEncode(rest);
      ThreeAndRest(bytes);
    }
  }

  lemma ThreeAndRest(bytes: seq<Byte>)
    requires |bytes| > 2 && Decode(Encode(bytes[3..])) == Some(bytes[3..])
    ensures Decode(Encode(bytes)) == Some(bytes)
  {
    DecodeThreeMore(bytes[0], bytes[1], bytes[2], bytes[3..]);
    SplitThree(bytes);
  }

  lemma SplitThree(bytes: seq<Byte>)
    requires |bytes| > 2
    ensures bytes == [bytes[0], bytes[1], bytes[2]] + bytes[3..]
  {
  }

  /** The encoding uses only the alphabet and the padding character, and
      pads at the end only. */
  lemma {:induction false} EncodeAlphabet(bytes: seq<Byte>)
    ensures var s := Encode(bytes);
      forall i :: 0 <= i < |s| ==> (DigitValue(s[i]).Some? || (s[i] == '=' && i >= |s| - 2))
    decreases |bytes|
  {
    if |bytes| > 2 {
      EncodeAlphabet(bytes[3..]);
      var s := Encode(bytes);
      forall i | 4 <= i < |s|
        ensures DigitValue(s[i]).Some? || (s[i] == '=' && i >= |s| - 2)
      {
        assert s[i] == Encode(bytes[3..])[i - 4];
      }
    }
  }
}
