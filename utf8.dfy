/**
 * UTF-8 (RFC 3629), as the browser applies it inside `encodeURIComponent`
 * and `decodeURIComponent`: a code point becomes one to four bytes, and
 * a byte sequence decodes only when it is the shortest form of a Unicode
 * scalar value.
 */
module Utf8 {
  import opened Optional

  type Byte = b: int | 0 <= b < 256

  /** A byte of the form 10xxxxxx. */
  predicate Continuation(b: int)
  {
    0x80 <= b < 0xC0
  }

  /**
   * The length of the sequence a leading byte starts, or 0 when no valid
   * sequence starts with it (a continuation byte, 0xC0, 0xC1 or 0xF5 and
   * above).
   */
  function Width(b0: int): (n: nat)
    ensures n <= 4
  {
    if 0 <= b0 < 0x80 then 1
    else if 0xC2 <= b0 < 0xE0 then 2
    else if 0xE0 <= b0 < 0xF0 then 3
    else if 0xF0 <= b0 < 0xF5 then 4
    else 0
  }

  /** The bytes of one code point. */
  function EncodeChar(c: char): (r: seq<Byte>)
    ensures 1 <= |r| <= 4 && Width(r[0]) == |r|
    ensures forall k :: 1 <= k < |r| ==> Continuation(r[k])
    ensures |r| == 1 <==> c as int < 0x80
  {
    var n := c as int;
    if n < 0x80 then [n]
    else if n < 0x800 then [0xC0 + n / 64, 0x80 + n % 64]
    else if n < 0x10000 then [0xE0 + n / 4096, 0x80 + (n / 64) % 64, 0x80 + n % 64]
    else [0xF0 + n / 262144, 0x80 + (n / 4096) % 64, 0x80 + (n / 64) % 64, 0x80 + n % 64]
  }

  /** A Unicode scalar value: a code point that is not a surrogate. */
  predicate Scalar(n: int)
  {
    (0 <= n < 0xD800) || (0xE000 <= n < 0x110000)
  }

  /** The code point `n` as a character, when it is one and `n` is at least `least` (no overlong form). */
  function CharAtLeast(n: int, least: int): Option<char>
  {
    if Scalar(n) && least <= n then Some(n as char) else None
  }

  /** The code point a whole sequence encodes, or `None` when it is no valid shortest form. */
  function DecodeChar(b: seq<int>): Option<char>
  {
    if |b| == 0 || Width(b[0]) != |b| || exists k :: 1 <= k < |b| && !Continuation(b[k]) then None
    else if |b| == 1 then Some(b[0] as char)
    else if |b| == 2 then CharAtLeast((b[0] - 0xC0) * 64 + (b[1] - 0x80), 0x80)
    else if |b| == 3 then CharAtLeast((b[0] - 0xE0) * 4096 + (b[1] - 0x80) * 64 + (b[2] - 0x80), 0x800)
    else CharAtLeast((b[0] - 0xF0) * 262144 + (b[1] - 0x80) * 4096 + (b[2] - 0x80) * 64 + (b[3] - 0x80), 0x10000)
  }

  lemma DecodeEncodeChar(c: char)
    ensures DecodeChar(EncodeChar(c)) == Some(c)
  {
    var n := c as int;
    var b: seq<int> := EncodeChar(c);
    assert !exists k :: 1 <= k < |b| && !Continuation(b[k]);
    if n < 0x80 {
    } else if n < 0x800 {
      TwoBytes(n);
    } else if n < 0x10000 {
      ThreeBytes(n);
    } else {
      FourBytes(n);
    }
  }

  lemma TwoBytes(n: int)
    requires 0x80 <= n < 0x800
    ensures ((0xC0 + n / 64) - 0xC0) * 64 + ((0x80 + n % 64) - 0x80) == n
  {
  }

  lemma ThreeBytes(n: int)
    requires 0x800 <= n < 0x10000
    ensures ((0xE0 + n / 4096) - 0xE0) * 4096 + ((0x80 + (n / 64) % 64) - 0x80) * 64 + ((0x80 + n % 64) - 0x80) == n
  {
    assert n / 4096 == (n / 64) / 64;
  }

  lemma FourBytes(n: int)
    requires 0x10000 <= n < 0x110000
    ensures ((0xF0 + n / 262144) - 0xF0) * 262144 + ((0x80 + (n / 4096) % 64) - 0x80) * 4096
      + ((0x80 + (n / 64) % 64) - 0x80) * 64 + ((0x80 + n % 64) - 0x80) == n
  {
    assert n / 4096 == (n / 64) / 64;
    assert n / 262144 == (n / 4096) / 64;
  }

  /** The bytes of a text. */
  function Encode(s: string): (r: seq<Byte>)
    ensures |r| >= |s|
  {
    if s == [] then [] else EncodeChar(s[0]) + Encode(s[1..])
  }

  /** The text a byte sequence encodes, or `None` when it is not valid UTF-8. */
  function Decode(b: seq<int>): (r: Option<string>)
    decreases |b|
  {
    if b == [] then Some("")
    else
      var n := Width(b[0]);
      if n == 0 || |b| < n then None
      else match DecodeChar(b[..n])
        case None => None
        case Some(c) =>
          match Decode(b[n..])
          case None => None
          case Some(rest) => Some([c] + rest)
  }

  /** Decoding undoes encoding. */
  lemma {:induction false} DecodeEncode(s: string)
    ensures Decode(Encode(s)) == Some(s)
  {
    if s != [] {
      var head := EncodeChar(s[0]);
      var b := Encode(s);
      assert b == head + Encode(s[1..]);
      assert b[..|head|] == head && b[|head|..] == Encode(s[1..]);
      DecodeEncodeChar(s[0]);
      DecodeEncode(s[1..]);
      assert [s[0]] + s[1..] == s;
    }
  }

  /** The text is seven-bit exactly when its bytes are the characters' own codes. */
  lemma {:induction false} AsciiBytes(s: string)
    requires forall k :: 0 <= k < |s| ==> s[k] as int < 0x80
    ensures |Encode(s)| == |s| && forall k :: 0 <= k < |s| ==> Encode(s)[k] == s[k] as int
  {
    if s != [] {
      AsciiBytes(s[1..]);
      assert Encode(s) == [s[0] as int] + Encode(s[1..]);
    }
  }
}
