/** Lower-case hexadecimal rendering of bytes, as Go's `fmt.Sprintf("%x", b)`
    writes a byte slice, together with its inverse. */
module Hex {
  import opened Wrappers

  /** An octet, as Go's `byte`. */
  type byte = x: int | 0 <= x < 256

  /** A four-bit value: the weight of one hexadecimal digit. */
  type nibble = x: int | 0 <= x < 16

  predicate IsLowerHexDigit(c: char) {
    '0' <= c <= '9' || 'a' <= c <= 'f'
  }

  predicate IsLowerHex(s: string) {
    forall i :: 0 <= i < |s| ==> IsLowerHexDigit(s[i])
  }

  /** The weight of a lower-case hexadecimal digit. */
  function DigitValue(c: char): nibble
    requires IsLowerHexDigit(c)
  {
    if c <= '9' then c as int - '0' as int else c as int - 'a' as int + 10
  }

  /** The lower-case digit `%x` writes for a nibble; `DigitValue` reads it back. */
  function DigitChar(n: nibble): (c: char)
    ensures IsLowerHexDigit(c)
    ensures DigitValue(c) == n
  {
    if n < 10 then ('0' as int + n) as char else ('a' as int + (n - 10)) as char
  }

  /** Every lower-case digit is the rendering of its own weight. */
  lemma DigitCharOfValue(c: char)
    requires IsLowerHexDigit(c)
    ensures DigitChar(DigitValue(c)) == c
  {
  }

  /** Two digits per byte, most significant nibble first. */
  function Encode(bs: seq<byte>): (s: string)
    ensures |s| == 2 * |bs|
    ensures IsLowerHex(s)
    ensures forall i :: 0 <= i < |bs| ==>
      s[2 * i] == DigitChar(bs[i] / 16) && s[2 * i + 1] == DigitChar(bs[i] % 16)
  {
    if |bs| == 0 then ""
    else
      var rest := Encode(bs[1..]);
      var s := [DigitChar(bs[0] / 16), DigitChar(bs[0] % 16)] + rest;
      assert forall i :: 1 <= i < |bs| ==> bs[i] == bs[1..][i - 1];
      s
  }

  /** Reads back exactly the strings `Encode` can produce: an even number of
      lower-case hexadecimal digits. */
  function Decode(s: string): (r: Option<seq<byte>>)
    ensures r.Some? <==> |s| % 2 == 0 && IsLowerHex(s)
    ensures r.Some? ==> 2 * |r.value| == |s|
    decreases |s|
  {
    if |s| == 0 then Some([])
    else if |s| == 1 || !IsLowerHexDigit(s[0]) || !IsLowerHexDigit(s[1]) then None
    else
      match Decode(s[2..])
      case None => None
      case Some(rest) => Some([DigitValue(s[0]) * 16 + DigitValue(s[1])] + rest)
  }

  /** Decoding an encoding gives back the bytes. */
  lemma {:induction false} DecodeEncode(bs: seq<byte>)
    ensures Decode(Encode(bs)) == Some(bs)
  {
    if |bs| > 0 {
      var s := Encode(bs);
      var rest := Encode(bs[1..]);
      assert s == [DigitChar(bs[0] / 16), DigitChar(bs[0] % 16)] + rest;
      assert s[2..] == rest;
      DecodeEncode(bs[1..]);
      var b := DigitValue(s[0]) * 16 + DigitValue(s[1]);
      assert b == bs[0];
      assert Decode(s) == Some([b] + bs[1..]);
      assert [bs[0]] + bs[1..] == bs;
    }
  }

  /** Encoding a byte in front of others writes its two digits in front. */
  lemma EncodeCons(b: byte, rest: seq<byte>)
    ensures Encode([b] + rest) == [DigitChar(b / 16), DigitChar(b % 16)] + Encode(rest)
  {
    assert ([b] + rest)[1..] == rest;
  }

  /** Encoding is the only way to produce a decodable string: the rendering is
      canonical, so no upper-case or otherwise different spelling decodes. */
  lemma {:induction false} EncodeDecode(s: string)
    requires Decode(s).Some?
    ensures Encode(Decode(s).value) == s
    decreases |s|
  {
    if |s| > 0 {
      var rest := Decode(s[2..]).value;
      EncodeDecode(s[2..]);
      var b: byte := DigitValue(s[0]) * 16 + DigitValue(s[1]);
      assert Decode(s).value == [b] + rest;
      assert b / 16 == DigitValue(s[0]) && b % 16 == DigitValue(s[1]);
      DigitCharOfValue(s[0]);
      DigitCharOfValue(s[1]);
      EncodeCons(b, rest);
      assert s == [s[0], s[1]] + s[2..];
    }
  }
}
