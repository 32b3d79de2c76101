/**
 * PHP values as request data and records deliver them, and the PHP
 * built-ins the plugin applies to them: `empty()`, `is_string`,
 * `is_array`, `is_numeric`, array access and the text shapes those rely on.
 */
module PhpValues {

  /** An array key: PHP keeps integer and string keys apart. */
  datatype Key = IntKey(n: int) | StrKey(name: string)

  /**
   * A PHP value. An array is its entries in insertion order; a list is
   * the array whose keys are 0, 1, 2, ...
   */
  datatype Value =
    | Null
    | Bool(b: bool)
    | Int(i: int)
    | Num(r: real)
    | Str(s: string)
    | Arr(entries: seq<(Key, Value)>)

  /** The list `[v0, v1, ...]`. */
  function List(items: seq<Value>): (r: Value)
    ensures r.Arr? && |r.entries| == |items|
    ensures forall k :: 0 <= k < |items| ==> r.entries[k] == (IntKey(k), items[k])
  {
    Arr(seq(|items|, k requires 0 <= k < |items| => (IntKey(k), items[k])))
  }

  /** The values of an array in order, as `foreach` visits them. */
  function Items(v: Value): (r: seq<Value>)
    requires v.Arr?
    ensures |r| == |v.entries|
    ensures forall k :: 0 <= k < |r| ==> r[k] == v.entries[k].1
  {
    seq(|v.entries|, k requires 0 <= k < |v.entries| => v.entries[k].1)
  }

  /** `$array[$key]` read without a notice: the entry's value, or `null` when the key is absent. */
  function At(v: Value, key: Key): (r: Value)
    requires v.Arr?
    ensures r != Null ==> exists k :: 0 <= k < |v.entries| && v.entries[k] == (key, r)
    ensures (forall k :: 0 <= k < |v.entries| ==> v.entries[k].0 != key) ==> r == Null
  {
    AtFrom(v.entries, key)
  }

  function AtFrom(entries: seq<(Key, Value)>, key: Key): (r: Value)
    ensures r != Null ==> exists k :: 0 <= k < |entries| && entries[k] == (key, r)
    ensures (forall k :: 0 <= k < |entries| ==> entries[k].0 != key) ==> r == Null
  {
    if entries == [] then Null
    else if entries[0].0 == key then entries[0].1
    else
      var r := AtFrom(entries[1..], key);
      assert r != Null ==> exists k :: 0 <= k < |entries[1..]| && entries[1..][k] == (key, r);
      assert r != Null ==> exists k :: 0 <= k < |entries| && entries[k] == (key, r) by {
        if r != Null {
          var k :| 0 <= k < |entries[1..]| && entries[1..][k] == (key, r);
          assert entries[k + 1] == (key, r);
        }
      }
      r
  }

  /** PHP `empty()`: null, false, 0, 0.0, "", "0" and the empty array. */
  predicate PhpEmpty(v: Value)
  {
    match v
    case Null => true
    case Bool(b) => !b
    case Int(i) => i == 0
    case Num(r) => r == 0.0
    case Str(s) => s == "" || s == "0"
    case Arr(entries) => entries == []
  }

  // ---------------------------------------------------------------------
  // Numeric text

  predicate IsDigit(c: char) { '0' <= c <= '9' }

  /** One or more decimal digits. */
  predicate Digits(s: string)
  {
    |s| > 0 && forall i :: 0 <= i < |s| ==> IsDigit(s[i])
  }

  /** Zero or more decimal digits. */
  predicate AllDigits(s: string)
  {
    forall i :: 0 <= i < |s| ==> IsDigit(s[i])
  }

  /** The white space PCRE's `\s` and PHP's numeric strings allow. */
  predicate IsSpace(c: char)
  {
    c == ' ' || c == '\t' || c == '\n' || c == '\r' || c == '\U{0B}' || c == '\U{0C}'
  }

  /** Drops leading and trailing white space. */
  function TrimSpace(s: string): (r: string)
    ensures |r| <= |s|
    ensures r != [] ==> !IsSpace(r[0]) && !IsSpace(r[|r| - 1])
    decreases |s|
  {
    if s == [] then s
    else if IsSpace(s[0]) then TrimSpace(s[1..])
    else if IsSpace(s[|s| - 1]) then TrimSpace(s[..|s| - 1])
    else s
  }

  /** Drops one leading sign character. */
  function Unsigned(s: string): string
  {
    if |s| > 0 && (s[0] == '+' || s[0] == '-') then s[1..] else s
  }

  /** An exponent `[eE][-+]?[0-9]+`. */
  predicate Exponent(e: string)
  {
    |e| > 1 && (e[0] == 'e' || e[0] == 'E') && Digits(Unsigned(e[1..]))
  }

  /** The position of the first character satisfying `p`, or `|s|` when there is none. */
  function FirstWhere(s: string, p: char -> bool): (r: nat)
    ensures r <= |s|
    ensures r < |s| ==> p(s[r])
    ensures forall i :: 0 <= i < r ==> !p(s[i])
  {
    if s == [] then 0
    else if p(s[0]) then 0
    else 1 + FirstWhere(s[1..], p)
  }

  /** A PHP decimal number without sign or exponent: `[0-9]+`, `[0-9]*.[0-9]+` or `[0-9]+.[0-9]*`. */
  predicate DecimalText(m: string)
  {
    var dot := FirstWhere(m, c => c == '.');
    && AllDigits(m[..dot])
    && (dot == |m| || AllDigits(m[dot + 1..]))
    && exists i :: 0 <= i < |m| && IsDigit(m[i])
  }

  /**
   * A PHP numeric string: optional surrounding white space, an optional
   * sign, a decimal number and an optional exponent.
   */
  predicate NumericText(s: string)
  {
    var t := Unsigned(TrimSpace(s));
    var e := FirstWhere(t, c => c == 'e' || c == 'E');
    DecimalText(t[..e]) && (e == |t| || Exponent(t[e..]))
  }

  /** PHP `is_numeric`. */
  predicate IsNumeric(v: Value)
  {
    match v
    case Int(_) => true
    case Num(_) => true
    case Str(s) => NumericText(s)
    case _ => false
  }

  // ---------------------------------------------------------------------
  // Integers as text

  /** The decimal digit for `0 <= d < 10`. */
  function DigitChar(d: int): (c: char)
    requires 0 <= d < 10
    ensures IsDigit(c) && c as int - '0' as int == d
  {
    ('0' as int + d) as char
  }

  /** A natural number in decimal, as PHP prints it. */
  function NatText(n: nat): (r: string)
    ensures |r| >= 1 && Digits(r)
    ensures n < 10 <==> |r| == 1
  {
    if n < 10 then [DigitChar(n)] else NatText(n / 10) + [DigitChar(n % 10)]
  }

  /** `(string)$n` for an integer: a minus sign before a negative number's digits. */
  function IntText(n: int): string
  {
    if n < 0 then "-" + NatText(-n) else NatText(n)
  }

  /** Different numbers print differently. */
  lemma {:induction false} NatTextInjective(a: nat, b: nat)
    requires NatText(a) == NatText(b)
    ensures a == b
  {
    if a >= 10 && b >= 10 {
      var ra, rb := NatText(a), NatText(b);
      assert DigitChar(a % 10) == ra[|ra| - 1] == rb[|rb| - 1] == DigitChar(b % 10);
      assert NatText(a / 10) == ra[..|ra| - 1] == rb[..|rb| - 1] == NatText(b / 10);
      NatTextInjective(a / 10, b / 10);
    }
  }

  /** A printed integer starts with a minus sign exactly when it is negative. */
  lemma IntTextSign(n: int)
    ensures |IntText(n)| > 0 && (IntText(n)[0] == '-' <==> n < 0)
  {
    if n >= 0 {
      assert IsDigit(NatText(n)[0]);
    }
  }

  lemma IntTextInjective(a: int, b: int)
    requires IntText(a) == IntText(b)
    ensures a == b
  {
    IntTextSign(a);
    IntTextSign(b);
    if a < 0 {
      assert NatText(-a) == IntText(a)[1..] == IntText(b)[1..] == NatText(-b);
      NatTextInjective(-a, -b);
    } else {
      NatTextInjective(a, b);
    }
  }

  // ---------------------------------------------------------------------
  // Integers read from values

  /** The value of a run of decimal digits; the empty run is 0. */
  function DigitsValue(d: string): (n: nat)
    requires AllDigits(d)
    decreases |d|
  {
    if d == [] then 0 else DigitsValue(d[..|d| - 1]) * 10 + (d[|d| - 1] as int - '0' as int)
  }

  /**
   * The integer a string starts with, as C's `strtol` reads it: leading
   * white space, an optional sign and the digits up to the first other
   * character; 0 when there are none.
   */
  function LeadingInt(s: string): int
  {
    var t := s[FirstWhere(s, c => !IsSpace(c))..];
    var negative := |t| > 0 && t[0] == '-';
    var u := Unsigned(t);
    var d := u[..FirstWhere(u, c => !IsDigit(c))];
    var n: int := DigitsValue(d);
    if negative then -n else n
  }

  /**
   * PHP `intval`: booleans as 0 and 1, floats truncated toward zero,
   * strings by their leading integer, arrays as 0 when empty and 1
   * otherwise.
   */
  function IntVal(v: Value): int
  {
    match v
    case Null => 0
    case Bool(b) => if b then 1 else 0
    case Int(i) => i
    case Num(r) => if r >= 0.0 then r.Floor else -((-r).Floor)
    case Str(s) => LeadingInt(s)
    case Arr(entries) => if entries == [] then 0 else 1
  }

  /** The digits of a number read back give the number. */
  lemma {:induction false} NatTextValue(n: nat)
    ensures DigitsValue(NatText(n)) == n
  {
    if n >= 10 {
      var r := NatText(n);
      assert r[..|r| - 1] == NatText(n / 10);
      NatTextValue(n / 10);
    }
  }

  /** `intval((string)$n) == $n`: an integer printed and read back is unchanged. */
  lemma IntValOfText(n: int)
    ensures IntVal(Str(IntText(n))) == n
  {
    var s := IntText(n);
    var m: nat := if n < 0 then -n else n;
    var digits := NatText(m);
    IntTextSign(n);
    assert !IsSpace(s[0]);
    assert s[FirstWhere(s, c => !IsSpace(c))..] == s;
    assert Unsigned(s) == digits;
    assert FirstWhere(digits, c => !IsDigit(c)) == |digits|;
    assert digits[..|digits|] == digits;
    NatTextValue(m);
  }

}
