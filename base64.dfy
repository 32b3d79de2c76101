/**
 * Base 64 (section 4 of RFC 4648) as the browser's `btoa` and `atob` apply
 * it: `btoa` writes each character of a text as one byte and fails on a
 * character above U+00FF; `atob` is the "forgiving-base64 decode" of the
 * HTML Standard, which drops ASCII white space, accepts the text with or
 * without its `=` padding and ignores the bits left over at the end.
 */
module Base64 {
  import opened Optional
  import Utf8

  /** The character of a six-bit value: `A`-`Z`, `a`-`z`, `0`-`9`, `+` and `/`, in that order. */
  function CharOf(d: int): (c: char)
    requires 0 <= d < 64
    ensures c != '='
  {
    if d < 26 then ('A' as int + d) as char
    else if d < 52 then ('a' as int + d - 26) as char
    else if d < 62 then ('0' as int + d - 52) as char
    else if d == 62 then '+' else '/'
  }

  /** The value of a character of the alphabet. */
  function ValueOf(c: char): (r: Option<int>)
    ensures r.Some? ==> 0 <= r.value < 64
  {
    if 'A' <= c <= 'Z' then Some(c as int - 'A' as int)
    else if 'a' <= c <= 'z' then Some(c as int - 'a' as int + 26)
    else if '0' <= c <= '9' then Some(c as int - '0' as int + 52)
    else if c == '+' then Some(62)
    else if c == '/' then Some(63)
    else None
  }

  /** The alphabet and the values agree, both ways. */
  lemma CharValue(d: int)
    requires 0 <= d < 64
    ensures ValueOf(CharOf(d)) == Some(d)
  {
  }

  lemma ValueChar(c: char)
    requires ValueOf(c).Some?
    ensures CharOf(ValueOf(c).value) == c
  {
  }

  predicate InAlphabet(c: char)
  {
    ValueOf(c).Some?
  }

  /** Six-bit values. */
  predicate Sextets(v: seq<int>)
  {
    forall k :: 0 <= k < |v| ==> 0 <= v[k] < 64
  }

  // ---------------------------------------------------------------------
  // Encoding

  /**
   * The six-bit values of some bytes: four for each three bytes, then two
   * for a last single byte and three for a last pair, the missing low bits
   * being zero.
   */
  function Split(b: seq<Utf8.Byte>): (v: seq<int>)
    ensures Sextets(v)
    ensures |v| == 4 * (|b| / 3) + (if |b| % 3 == 0 then 0 else |b| % 3 + 1)
    decreases |b|
  {
    if |b| >= 3 then
      [b[0] / 4, (b[0] % 4) * 16 + b[1] / 16, (b[1] % 16) * 4 + b[2] / 64, b[2] % 64] + Split(b[3..])
    else if |b| == 2 then
      [b[0] / 4, (b[0] % 4) * 16 + b[1] / 16, (b[1] % 16) * 4]
    else if |b| == 1 then
      [b[0] / 4, (b[0] % 4) * 16]
    else []
  }

  /** The characters of some six-bit values. */
  function Letters(v: seq<int>): (r: string)
    requires Sextets(v)
    ensures |r| == |v| && forall k :: 0 <= k < |v| ==> r[k] == CharOf(v[k])
  {
    seq(|v|, k requires 0 <= k < |v| => CharOf(v[k]))
  }

  /** The encoding without its padding. */
  function Unpadded(b: seq<Utf8.Byte>): (r: string)
    ensures '=' !in r
    ensures |r| % 4 != 1
  {
    PaddedLength(|b|);
    Letters(Split(b))
  }

  /** The `=` characters that fill the last group to four. */
  function Padding(n: nat): string
  {
    if n % 3 == 1 then "==" else if n % 3 == 2 then "=" else ""
  }

  /** The base 64 encoding of some bytes, padded to a multiple of four characters. */
  function Encode(b: seq<Utf8.Byte>): (r: string)
    ensures |r| % 4 == 0
  {
    PaddedLength(|b|);
    Unpadded(b) + Padding(|b|)
  }

  lemma PaddedLength(n: nat)
    ensures (4 * (n / 3) + (if n % 3 == 0 then 0 else n % 3 + 1) + |Padding(n)|) % 4 == 0
    ensures (4 * (n / 3) + (if n % 3 == 0 then 0 else n % 3 + 1)) % 4 != 1
  {
  }

  /** A text every character of which is at most U+00FF, so that it is one byte each. */
  predicate Latin1(s: string)
  {
    forall k :: 0 <= k < |s| ==> s[k] as int < 256
  }

  /** The bytes of a text that is `Latin1`. */
  function Bytes(s: string): (r: seq<Utf8.Byte>)
    requires Latin1(s)
    ensures |r| == |s| && forall k :: 0 <= k < |s| ==> r[k] == s[k] as int
  {
    seq(|s|, k requires 0 <= k < |s| => s[k] as int)
  }

  /** The text of some bytes, one character each. */
  function Chars(b: seq<Utf8.Byte>): (r: string)
    ensures |r| == |b| && forall k :: 0 <= k < |b| ==> r[k] as int == b[k]
  {
    seq(|b|, k requires 0 <= k < |b| => b[k] as char)
  }

  lemma CharsBytes(s: string)
    requires Latin1(s)
    ensures Chars(Bytes(s)) == s
  {
  }

  /** `btoa(s)`, or `None` where it throws an `InvalidCharacterError`. */
  function Btoa(s: string): (r: Option<string>)
    ensures r.Some? <==> Latin1(s)
  {
    if Latin1(s) then Some(Encode(Bytes(s))) else None
  }

  // ---------------------------------------------------------------------
  // Decoding

  /** TAB, LF, FF, CR and SPACE. */
  predicate AsciiSpace(c: char)
  {
    c == '\t' || c == '\n' || c as int == 0x0C || c == '\r' || c == ' '
  }

  function WithoutSpace(s: string): (r: string)
    ensures |r| <= |s|
  {
    if s == [] then "" else if AsciiSpace(s[0]) then WithoutSpace(s[1..]) else [s[0]] + WithoutSpace(s[1..])
  }

  /** One or two trailing `=` removed when the length is a multiple of four. */
  function WithoutPadding(s: string): string
  {
    if |s| % 4 != 0 then s
    else if |s| >= 2 && s[|s| - 2..] == "==" then s[..|s| - 2]
    else if |s| >= 1 && s[|s| - 1] == '=' then s[..|s| - 1]
    else s
  }

  /** The value of a character of the alphabet. */
  function ValueIn(c: char): (d: int)
    requires InAlphabet(c)
    ensures 0 <= d < 64 && Some(d) == ValueOf(c)
  {
    ValueOf(c).value
  }

  /** The values of some characters of the alphabet. */
  function Values(s: string): (v: seq<int>)
    requires forall k :: 0 <= k < |s| ==> InAlphabet(s[k])
    ensures |v| == |s| && Sextets(v) && forall k :: 0 <= k < |s| ==> Some(v[k]) == ValueOf(s[k])
  {
    seq(|s|, k requires 0 <= k < |s| => ValueIn(s[k]))
  }

  /**
   * The bytes of six-bit values: three for each four, then one for a last
   * two and two for a last three, the bits left over being dropped.
   */
  function Join(v: seq<int>): (b: seq<Utf8.Byte>)
    requires Sextets(v) && |v| % 4 != 1
    decreases |v|
  {
    if |v| >= 4 then [v[0] * 4 + v[1] / 16, (v[1] % 16) * 16 + v[2] / 4, (v[2] % 4) * 64 + v[3]] + Join(v[4..])
    else if |v| == 3 then [v[0] * 4 + v[1] / 16, (v[1] % 16) * 16 + v[2] / 4]
    else if |v| == 2 then [v[0] * 4 + v[1] / 16]
    else []
  }

  /** The forgiving decode, or `None` where it fails. */
  function Decode(s: string): (r: Option<seq<Utf8.Byte>>)
  {
    var t := WithoutPadding(WithoutSpace(s));
    if |t| % 4 == 1 then None
    else if exists k :: 0 <= k < |t| && !InAlphabet(t[k]) then None
    else Some(Join(Values(t)))
  }

  /** `atob(s)`, or `None` where it throws an `InvalidCharacterError`. */
  function Atob(s: string): (r: Option<string>)
    ensures r.Some? ==> Latin1(r.value)
  {
    var b := Decode(s);
    if b.None? then None else Some(Chars(b.value))
  }

  // ---------------------------------------------------------------------
  // Padding cut off at the first `=`

  /** The index of the first `c` in `s`, or `|s|` when there is none. */
  function IndexOf(s: string, c: char): (i: nat)
    ensures i <= |s| && c !in s[..i] && (i < |s| ==> s[i] == c)
  {
    if s == [] then 0 else if s[0] == c then 0 else 1 + IndexOf(s[1..], c)
  }

  /** `if (t.indexOf("=") > 0) t = t.split("=")[0]`. */
  function CutAtPadding(t: string): string
  {
    var i := IndexOf(t, '=');
    if 0 < i < |t| then t[..i] else t
  }

  /** The text left after the cut holds no `=` unless it started with one. */
  lemma CutHasNoPadding(t: string)
    requires t == [] || t[0] != '='
    ensures '=' !in CutAtPadding(t)
  {
    assert t[..|t|] == t;
  }

  /** The first `c` found at `j` when there is none before it. */
  lemma {:induction false} IndexOfAt(s: string, c: char, j: nat)
    requires j < |s| && s[j] == c && c !in s[..j]
    ensures IndexOf(s, c) == j
  {
    if j > 0 {
      assert s[1..][..j - 1] == s[1..j];
      assert s[0] == s[..j][0];
      IndexOfAt(s[1..], c, j - 1);
    }
  }

  /** Cutting an encoding at its first `=` leaves the encoding without padding. */
  lemma CutEncode(b: seq<Utf8.Byte>)
    ensures CutAtPadding(Encode(b)) == Unpadded(b)
  {
    var u := Unpadded(b);
    var e := Encode(b);
    assert e[..|u|] == u;
    if |b| % 3 == 0 {
      assert e == u;
      assert e[..|e|] == e;
    } else {
      IndexOfAt(e, '=', |u|);
    }
  }

  // ---------------------------------------------------------------------
  // Round trip

  /** The characters of some values read back as the values. */
  lemma ValuesLetters(v: seq<int>)
    requires Sextets(v)
    ensures forall k :: 0 <= k < |v| ==> InAlphabet(Letters(v)[k])
    ensures Values(Letters(v)) == v
  {
    forall k | 0 <= k < |v|
      ensures ValueOf(Letters(v)[k]) == Some(v[k])
    {
      CharValue(v[k]);
    }
  }

  lemma FirstOfGroup(x: Utf8.Byte, y: Utf8.Byte, a: int, b: int)
    requires a == x / 4 && b == (x % 4) * 16 + y / 16
    ensures a * 4 + b / 16 == x
  {
  }

  lemma SecondOfGroup(x: Utf8.Byte, y: Utf8.Byte, z: Utf8.Byte, b: int, c: int)
    requires b == (x % 4) * 16 + y / 16 && c == (y % 16) * 4 + z / 64
    ensures (b % 16) * 16 + c / 4 == y
  {
  }

  lemma ThirdOfGroup(y: Utf8.Byte, z: Utf8.Byte, c: int, d: int)
    requires c == (y % 16) * 4 + z / 64 && d == z % 64
    ensures (c % 4) * 64 + d == z
  {
  }

  /** Four values join into three bytes, and the rest after them. */
  lemma JoinHead(v: seq<int>)
    requires Sextets(v) && |v| >= 4 && |v| % 4 != 1
    ensures Join(v) == [v[0] * 4 + v[1] / 16, (v[1] % 16) * 16 + v[2] / 4, (v[2] % 4) * 64 + v[3]] + Join(v[4..])
  {
  }

  /** Joining the values of some bytes gives the bytes back. */
  lemma {:induction false} JoinSplit(b: seq<Utf8.Byte>)
    ensures Join(Split(b)) == b
    decreases |b|
  {
    var v := Split(b);
    if |b| >= 3 {
      var x, y, z := b[0], b[1], b[2];
      FirstOfGroup(x, y, v[0], v[1]);
      SecondOfGroup(x, y, z, v[1], v[2]);
      ThirdOfGroup(y, z, v[2], v[3]);
      JoinHead(v);
      assert v[4..] == Split(b[3..]);
      JoinSplit(b[3..]);
      assert b == [x, y, z] + b[3..];
    } else if |b| == 2 {
      var x, y := b[0], b[1];
      FirstOfGroup(x, y, v[0], v[1]);
      SecondOfGroup(x, y, 0, v[1], v[2]);
    } else if |b| == 1 {
      var x := b[0];
      FirstOfGroup(x, 0, v[0], v[1]);
    }
  }

  /** A text of alphabet characters has no white space to drop. */
  lemma {:induction false} NoSpace(s: string)
    requires forall k :: 0 <= k < |s| ==> InAlphabet(s[k])
    ensures WithoutSpace(s) == s
  {
    if s != [] {
      NoSpace(s[1..]);
      assert [s[0]] + s[1..] == s;
    }
  }

  /** The forgiving decode reads the encoding without padding back as the bytes. */
  lemma DecodeUnpadded(b: seq<Utf8.Byte>)
    ensures Decode(Unpadded(b)) == Some(b)
  {
    var u := Unpadded(b);
    ValuesLetters(Split(b));
    NoSpace(u);
    assert WithoutPadding(u) == u by {
      if |u| >= 1 {
        assert u[|u| - 1] in u;
      }
    }
    JoinSplit(b);
  }

  /** The padding is dropped and nothing else. */
  lemma WithoutPaddingEncode(b: seq<Utf8.Byte>)
    ensures WithoutPadding(Encode(b)) == Unpadded(b)
  {
    var u := Unpadded(b);
    var e := Encode(b);
    if |b| % 3 == 1 {
      assert e[|e| - 2..] == "==" && e[..|e| - 2] == u;
    } else if |b| % 3 == 2 {
      assert u[|u| - 1] in u;
      assert e[|e| - 2..] != "==" by {
        assert e[|e| - 2..][0] == u[|u| - 1];
      }
      assert e[..|e| - 1] == u;
    } else {
      assert e == u;
      if |e| >= 1 {
        assert e[|e| - 1] in u;
        assert e[|e| - 2..] != "==" by {
          if |e| >= 2 {
            assert e[|e| - 2..][1] == e[|e| - 1];
          }
        }
      }
    }
  }

  /** The padded encoding decodes as well. */
  lemma DecodeEncode(b: seq<Utf8.Byte>)
    ensures Decode(Encode(b)) == Some(b)
  {
    var u := Unpadded(b);
    ValuesLetters(Split(b));
    NoSpace(u);
    WithoutSpaceAppend(u, Padding(|b|));
    WithoutPaddingEncode(b);
    JoinSplit(b);
  }

  lemma {:induction false} WithoutSpaceAppend(s: string, p: string)
    requires forall k :: 0 <= k < |s| ==> InAlphabet(s[k])
    requires p == "" || p == "=" || p == "=="
    ensures WithoutSpace(s + p) == WithoutSpace(s) + p
  {
    if s == [] {
      if p == "=" {
        assert WithoutSpace(p[1..]) == "";
      } else if p == "==" {
        assert WithoutSpace(p[1..][1..]) == "";
        assert WithoutSpace(p[1..]) == p[1..];
      }
    } else {
      WithoutSpaceAppend(s[1..], p);
      assert (s + p)[1..] == s[1..] + p;
    }
  }

  /** `atob` of a `btoa` result cut at its first `=` gives the text back. */
  lemma AtobBtoa(s: string)
    requires Latin1(s)
    ensures Btoa(s).Some?
    ensures Atob(CutAtPadding(Btoa(s).value)) == Some(s)
  {
    CutEncode(Bytes(s));
    DecodeUnpadded(Bytes(s));
    CharsBytes(s);
  }

  /** The cut encoding never holds a `=`. */
  lemma UnpaddedHasNoPadding(b: seq<Utf8.Byte>)
    ensures '=' !in CutAtPadding(Encode(b))
  {
    CutEncode(b);
  }
}
