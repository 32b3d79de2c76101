/**
 * `encodeURIComponent` and `decodeURIComponent` (section 19.2.6 of the
 * ECMAScript Language Specification): every character outside the
 * unreserved set becomes the `%XX` escapes of its UTF-8 bytes, with
 * upper-case hex digits; decoding reads escapes in either case and
 * fails (a `URIError`) on a broken escape or an invalid byte sequence.
 */
module UriComponent {
  import opened Optional
  import Utf8

  /** Letters, digits and `-_.!~*'()`: the characters `encodeURIComponent` keeps. */
  predicate Unreserved(c: char)
  {
    ('A' <= c <= 'Z') || ('a' <= c <= 'z') || ('0' <= c <= '9') || c in "-_.!~*'()"
  }

  /** The upper-case hex digit of `d`. */
  function HexDigit(d: int): (c: char)
    requires 0 <= d < 16
    ensures Unreserved(c)
  {
    if d < 10 then ('0' as int + d) as char else ('A' as int + d - 10) as char
  }

  /** The value of a hex digit of either case. */
  function HexValue(c: char): (r: Option<int>)
    ensures r.Some? ==> 0 <= r.value < 16
  {
    if '0' <= c <= '9' then Some(c as int - '0' as int)
    else if 'A' <= c <= 'F' then Some(c as int - 'A' as int + 10)
    else if 'a' <= c <= 'f' then Some(c as int - 'a' as int + 10)
    else None
  }

  lemma HexRoundTrip(d: int)
    requires 0 <= d < 16
    ensures HexValue(HexDigit(d)) == Some(d)
  {
  }

  /** The escapes `%XX` of some bytes. */
  function Escapes(bytes: seq<Utf8.Byte>): (r: string)
    ensures |r| == 3 * |bytes|
  {
    if bytes == [] then ""
    else ['%', HexDigit(bytes[0] / 16), HexDigit(bytes[0] % 16)] + Escapes(bytes[1..])
  }

  /** One character as `encodeURIComponent` writes it. */
  function EncodeChar(c: char): string
  {
    if Unreserved(c) then [c] else Escapes(Utf8.EncodeChar(c))
  }

  /** `encodeURIComponent(s)`. */
  function Encode(s: string): string
  {
    if s == [] then "" else EncodeChar(s[0]) + Encode(s[1..])
  }

  /** A text every character of which is a `%` or unreserved. */
  predicate Safe(r: string)
  {
    forall k :: 0 <= k < |r| ==> r[k] == '%' || Unreserved(r[k])
  }

  lemma {:induction false} EscapesSafe(bytes: seq<Utf8.Byte>)
    ensures Safe(Escapes(bytes))
  {
    if bytes != [] {
      EscapesSafe(bytes[1..]);
      assert Escapes(bytes) == ['%', HexDigit(bytes[0] / 16), HexDigit(bytes[0] % 16)] + Escapes(bytes[1..]);
    }
  }

  /** The component holds only unreserved characters and `%` escapes: nothing that could end it inside a URL. */
  lemma {:induction false} EncodeSafe(s: string)
    ensures Safe(Encode(s))
  {
    if s != [] {
      EncodeSafe(s[1..]);
      if !Unreserved(s[0]) {
        EscapesSafe(Utf8.EncodeChar(s[0]));
      }
      assert Encode(s) == EncodeChar(s[0]) + Encode(s[1..]);
    }
  }

  /** `prefix` in front of a decoded rest, when there is one. */
  function Prepend(prefix: string, r: Option<string>): Option<string>
  {
    if r.Some? then Some(prefix + r.value) else None
  }

  /** `n` bytes written as escapes at the start of `s`. */
  function EscapedBytes(s: string, n: nat): (r: Option<seq<int>>)
    ensures r.Some? ==> |r.value| == n && |s| >= 3 * n
  {
    if n == 0 then Some([])
    else if |s| < 3 || s[0] != '%' || HexValue(s[1]).None? || HexValue(s[2]).None? then None
    else
      var rest := EscapedBytes(s[3..], n - 1);
      if rest.None? then None else Some([HexValue(s[1]).value * 16 + HexValue(s[2]).value] + rest.value)
  }

  /**
   * The number of bytes a leading byte announces by its leading one bits:
   * 1 for a seven-bit byte, 0 where the standard throws at once (a
   * continuation byte, or more than four).
   */
  function Announced(b0: int): nat
  {
    if b0 < 0x80 then 1
    else if b0 < 0xC0 then 0
    else if b0 < 0xE0 then 2
    else if b0 < 0xF0 then 3
    else if b0 < 0xF8 then 4
    else 0
  }

  /** `decodeURIComponent(s)`, or `None` where it throws a `URIError`. */
  function Decode(s: string): Option<string>
    decreases |s|
  {
    if s == [] then Some("")
    else if s[0] != '%' then Prepend([s[0]], Decode(s[1..]))
    else
      var first := EscapedBytes(s, 1);
      if first.None? then None
      else
        var n := Announced(first.value[0]);
        var bytes := EscapedBytes(s, n);
        if n == 0 || bytes.None? then None
        else
          var c := Utf8.DecodeChar(bytes.value);
          if c.None? then None else Prepend([c.value], Decode(s[3 * n..]))
  }

  /** The escapes of some bytes, followed by anything, read back as those bytes. */
  lemma {:induction false} EscapedBytesOf(bytes: seq<Utf8.Byte>, t: string, n: nat)
    requires n <= |bytes|
    ensures EscapedBytes(Escapes(bytes) + t, n) == Some(bytes[..n])
  {
    if n > 0 {
      var b := bytes[0];
      var s := Escapes(bytes) + t;
      EscapesHead(bytes, t);
      HexPair(b);
      var rest := Escapes(bytes[1..]) + t;
      assert s[0] == '%' && s[1] == HexDigit(b / 16) && s[2] == HexDigit(b % 16) && s[3..] == rest;
      EscapedBytesOf(bytes[1..], t, n - 1);
      assert [b] + bytes[1..][..n - 1] == bytes[..n];
    }
  }

  /** The first escape of some bytes comes first, and the escapes of the rest follow it. */
  lemma EscapesHead(bytes: seq<Utf8.Byte>, t: string)
    requires bytes != []
    ensures Escapes(bytes) + t == ['%', HexDigit(bytes[0] / 16), HexDigit(bytes[0] % 16)] + (Escapes(bytes[1..]) + t)
  {
  }

  /** The two hex digits of a byte read back as that byte. */
  lemma HexPair(b: Utf8.Byte)
    ensures HexValue(HexDigit(b / 16)).Some? && HexValue(HexDigit(b % 16)).Some?
    ensures HexValue(HexDigit(b / 16)).value * 16 + HexValue(HexDigit(b % 16)).value == b
  {
    HexRoundTrip(b / 16);
    HexRoundTrip(b % 16);
  }

  /** A leading byte UTF-8 writes announces the length UTF-8 gave it. */
  lemma AnnouncedWidth(c: char)
    ensures Announced(Utf8.EncodeChar(c)[0]) == |Utf8.EncodeChar(c)|
  {
  }

  /** Decoding one encoded character and then the rest. */
  lemma DecodeEncodeChar(c: char, t: string)
    ensures Decode(EncodeChar(c) + t) == Prepend([c], Decode(t))
  {
    if !Unreserved(c) {
      var bytes := Utf8.EncodeChar(c);
      var s := Escapes(bytes) + t;
      var n := |bytes|;
      EscapedBytesOf(bytes, t, 1);
      EscapedBytesOf(bytes, t, n);
      assert bytes[..n] == bytes;
      AnnouncedWidth(c);
      Utf8.DecodeEncodeChar(c);
      assert s[3 * n..] == t;
    } else {
      assert (EncodeChar(c) + t)[1..] == t;
    }
  }

  /** `decodeURIComponent(encodeURIComponent(s)) == s`. */
  lemma {:induction false} DecodeEncode(s: string)
    ensures Decode(Encode(s)) == Some(s)
  {
    if s != [] {
      DecodeEncode(s[1..]);
      DecodeEncodeChar(s[0], Encode(s[1..]));
      assert [s[0]] + s[1..] == s;
    }
  }
}
