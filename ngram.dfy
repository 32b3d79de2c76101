/**
 * Text normalisation and 3-gram slicing used by the indexer
 * (`Search::buildNgram` in src/helpers/Search.php).
 *
 * The PHP and ICU primitives the pipeline calls (tag stripping, HTML entity
 * decoding, NFKC folding, lower-casing, and the Unicode general-category
 * tests) are parameters, bundled in a `TextLib` value.
 */
module Ngram {

  /** The library routines the normaliser relies on. */
  datatype TextLib = TextLib(
    stripTags: string -> string,       // strip_tags
    decodeEntities: string -> string,  // html_entity_decode(…, ENT_HTML5, 'UTF-8')
    nfkcLower: string -> string,       // transliterator 'NFKC; Lower;'
    lower: string -> string,           // mb_strtolower
    isSeparator: char -> bool,         // general category P, S or Z
    isControlOrMark: char -> bool      // general category C or M
  )

  /**
   * What the Unicode Standard guarantees about the two character classes:
   * U+0020 is a space separator (Zs), and the categories P/S/Z and C/M are
   * disjoint.
   */
  predicate WellFormed(lib: TextLib)
  {
    && lib.isSeparator(' ')
    && !lib.isControlOrMark(' ')
    && forall c: char :: lib.isSeparator(c) ==> !lib.isControlOrMark(c)
  }

  /** A character that survives cleaning as itself: a letter, digit, and so on. */
  predicate Survives(lib: TextLib, c: char)
  {
    !lib.isSeparator(c) && !lib.isControlOrMark(c)
  }

  /** The longest suffix of `s` that does not start with a separator. */
  function DropSeparators(lib: TextLib, s: string): (r: string)
    ensures |r| <= |s| && r == s[|s| - |r|..]
    ensures r == [] || !lib.isSeparator(r[0])
    ensures forall i :: 0 <= i < |s| - |r| ==> lib.isSeparator(s[i])
  {
    if s == [] || !lib.isSeparator(s[0]) then s else DropSeparators(lib, s[1..])
  }

  /** `preg_replace('/[\p{P}\p{S}\p{Z}]+/u', ' ', s)`: every maximal run of separators becomes one space. */
  function CollapseSeparators(lib: TextLib, s: string): string
    decreases |s|
  {
    if s == [] then []
    else if lib.isSeparator(s[0]) then [' '] + CollapseSeparators(lib, DropSeparators(lib, s))
    else [s[0]] + CollapseSeparators(lib, s[1..])
  }

  /** `preg_replace('/[\p{C}\p{M}]/u', '', s)`: every control or mark character is deleted. */
  function DeleteControlMarks(lib: TextLib, s: string): string
  {
    if s == [] then []
    else if lib.isControlOrMark(s[0]) then DeleteControlMarks(lib, s[1..])
    else [s[0]] + DeleteControlMarks(lib, s[1..])
  }

  /** The two regular-expression passes, in the order the source applies them. */
  function Clean(lib: TextLib, s: string): string
  {
    DeleteControlMarks(lib, CollapseSeparators(lib, s))
  }

  /** Case folding: NFKC plus lower case when intl is loaded, plain lower case otherwise. */
  function Fold(lib: TextLib, intl: bool, s: string): string
  {
    if intl then lib.nfkcLower(s) else lib.lower(s)
  }

  /** The whole normalisation pipeline of `buildNgram`, before slicing. */
  function Normalize(lib: TextLib, intl: bool, value: string): string
  {
    Clean(lib, Fold(lib, intl, lib.decodeEntities(lib.stripTags(value))))
  }

  /** The overlapping 3-character windows of `s`, from left to right. */
  function Grams(s: string): seq<string>
  {
    if |s| < 3 then [] else [s[..3]] + Grams(s[1..])
  }

  /** The characters of `s` that are not separators, in order. */
  function Words(lib: TextLib, s: string): string
  {
    if s == [] then []
    else if lib.isSeparator(s[0]) then Words(lib, s[1..])
    else [s[0]] + Words(lib, s[1..])
  }

  // ---------------------------------------------------------------------
  // Slicing

  /**
   * A string of L >= 3 characters has exactly L - 2 grams, gram k being the
   * three characters starting at k; a shorter string has none.
   */
  lemma {:induction false} GramsShape(s: string)
    ensures |Grams(s)| == if |s| >= 3 then |s| - 2 else 0
    ensures forall k :: 0 <= k < |Grams(s)| ==> Grams(s)[k] == s[k..k + 3]
  {
    if |s| >= 3 {
      GramsShape(s[1..]);
      forall k | 0 <= k < |Grams(s)|
        ensures Grams(s)[k] == s[k..k + 3]
      {
        if k > 0 {
          assert Grams(s)[k] == Grams(s[1..])[k - 1];
          assert s[1..][k - 1..k + 2] == s[k..k + 3];
        }
      }
    }
  }

  /** `buildNgram`: normalise, then take every 3-character window (src/helpers/Search.php:24-88). */
  method BuildNgram(lib: TextLib, intl: bool, value: string) returns (values: seq<string>)
    ensures values == Grams(Normalize(lib, intl, value))
    ensures var n := |Normalize(lib, intl, value)|; |values| == if n >= 3 then n - 2 else 0
    ensures forall k :: 0 <= k < |values| ==> |values[k]| == 3
  {
    var v := lib.stripTags(value);
    v := lib.decodeEntities(v);
    if intl {
      v := lib.nfkcLower(v);
    } else {
      v := lib.lower(v);
    }
    v := CollapseSeparators(lib, v);
    v := DeleteControlMarks(lib, v);

    values := [];
    var cap := |v| - 3;
    var index := 0;
    while index <= cap
      invariant 0 <= index <= if cap >= 0 then cap + 1 else 0
      invariant |values| == index
      invariant forall k :: 0 <= k < index ==> values[k] == v[k..k + 3]
    {
      values := values + [v[index..index + 3]];
      index := index + 1;
    }
    GramsShape(v);
  }

  // ---------------------------------------------------------------------
  // Separator collapsing

  lemma {:induction false} DropSeparatorsWords(lib: TextLib, s: string)
    ensures Words(lib, DropSeparators(lib, s)) == Words(lib, s)
  {
    if s != [] && lib.isSeparator(s[0]) {
      DropSeparatorsWords(lib, s[1..]);
    }
  }

  /**
   * Collapsing keeps the non-separator text unchanged, writes every
   * separator as U+0020, and never leaves two separators side by side.
   */
  lemma {:induction false} CollapseSeparatorsSpec(lib: TextLib, s: string)
    requires lib.isSeparator(' ')
    ensures var r := CollapseSeparators(lib, s);
      && Words(lib, r) == Words(lib, s)
      && (forall i :: 0 <= i < |r| && lib.isSeparator(r[i]) ==> r[i] == ' ')
      && (forall i :: 0 <= i < |r| - 1 ==> !(lib.isSeparator(r[i]) && lib.isSeparator(r[i + 1])))
      && (s != [] ==> r != [] && (lib.isSeparator(r[0]) <==> lib.isSeparator(s[0])))
      && (s != [] && !lib.isSeparator(s[0]) ==> r[0] == s[0])
    decreases |s|
  {
    if s == [] {
    } else if lib.isSeparator(s[0]) {
      var t := DropSeparators(lib, s);
      CollapseSeparatorsSpec(lib, t);
      DropSeparatorsWords(lib, s);
      var r := CollapseSeparators(lib, s);
      assert r == [' '] + CollapseSeparators(lib, t);
      assert Words(lib, r) == Words(lib, CollapseSeparators(lib, t)) by {
        assert r[1..] == CollapseSeparators(lib, t);
      }
    } else {
      CollapseSeparatorsSpec(lib, s[1..]);
      var r := CollapseSeparators(lib, s);
      assert r[1..] == CollapseSeparators(lib, s[1..]);
    }
  }

  /** A string that ends in a separator collapses to one that ends in a space. */
  lemma {:induction false} CollapseKeepsTrailingSpace(lib: TextLib, s: string)
    requires s != [] && lib.isSeparator(s[|s| - 1])
    ensures var r := CollapseSeparators(lib, s); r != [] && r[|r| - 1] == ' '
    decreases |s|
  {
    if lib.isSeparator(s[0]) {
      var t := DropSeparators(lib, s);
      if t != [] {
        CollapseKeepsTrailingSpace(lib, t);
      }
    } else {
      CollapseKeepsTrailingSpace(lib, s[1..]);
    }
  }

  // ---------------------------------------------------------------------
  // Control and mark deletion

  /**
   * Deletion keeps exactly the characters that are not controls or marks:
   * each of those as often as the input has it, and none of the others.
   * `DeleteControlMarksAppend` gives the order.
   */
  lemma {:induction false} DeleteControlMarksSpec(lib: TextLib, s: string)
    ensures var r := DeleteControlMarks(lib, s);
      && |r| <= |s|
      && (forall i :: 0 <= i < |r| ==> !lib.isControlOrMark(r[i]) && r[i] in s)
      && (forall c :: !lib.isControlOrMark(c) ==> multiset(r)[c] == multiset(s)[c])
      && (forall c :: lib.isControlOrMark(c) ==> multiset(r)[c] == 0)
  {
    if s != [] {
      DeleteControlMarksSpec(lib, s[1..]);
      assert s == [s[0]] + s[1..];
      assert multiset(s) == multiset{s[0]} + multiset(s[1..]);
    }
  }

  /** Deletion distributes over concatenation. */
  lemma {:induction false} DeleteControlMarksAppend(lib: TextLib, a: string, b: string)
    ensures DeleteControlMarks(lib, a + b) == DeleteControlMarks(lib, a) + DeleteControlMarks(lib, b)
  {
    if a != [] {
      DeleteControlMarksAppend(lib, a[1..], b);
      assert (a + b)[1..] == a[1..] + b;
    } else {
      assert a + b == b;
    }
  }

  lemma DeleteControlMarksSplit(lib: TextLib, s: string, i: nat)
    requires i <= |s|
    ensures DeleteControlMarks(lib, s) == DeleteControlMarks(lib, s[..i]) + DeleteControlMarks(lib, s[i..])
  {
    assert s == s[..i] + s[i..];
    DeleteControlMarksAppend(lib, s[..i], s[i..]);
  }

  // ---------------------------------------------------------------------
  // Properties of the whole pipeline

  /**
   * The normalised text holds no control or mark character, and the only
   * separator it can hold is U+0020.
   */
  lemma CleanCharacters(lib: TextLib, s: string)
    requires WellFormed(lib)
    ensures forall i :: 0 <= i < |Clean(lib, s)| ==>
      !lib.isControlOrMark(Clean(lib, s)[i]) && (lib.isSeparator(Clean(lib, s)[i]) ==> Clean(lib, s)[i] == ' ')
  {
    var c := CollapseSeparators(lib, s);
    CollapseSeparatorsSpec(lib, c);
    CollapseSeparatorsSpec(lib, s);
    DeleteControlMarksSpec(lib, c);
    forall i | 0 <= i < |Clean(lib, s)|
      ensures lib.isSeparator(Clean(lib, s)[i]) ==> Clean(lib, s)[i] == ' '
    {
      var ch := Clean(lib, s)[i];
      assert ch in c;
      var j :| 0 <= j < |c| && c[j] == ch;
    }
  }

  /** A non-separator character of `s` survives collapsing. */
  lemma {:induction false} WordsMembership(lib: TextLib, s: string, c: char)
    requires c in s && !lib.isSeparator(c)
    ensures c in Words(lib, s)
  {
    if s[0] != c {
      WordsMembership(lib, s[1..], c);
    }
  }

  lemma {:induction false} WordsSubset(lib: TextLib, s: string, c: char)
    requires c in Words(lib, s)
    ensures c in s
  {
    if s != [] && !(lib.isSeparator(s[0]) == false && s[0] == c) {
      WordsSubset(lib, s[1..], c);
    }
  }

  /** A string whose first, last and some middle character are kept loses at most the rest. */
  lemma DeleteKeepsThree(lib: TextLib, x: string, j: nat)
    requires 0 < j < |x| - 1
    requires !lib.isControlOrMark(x[0]) && !lib.isControlOrMark(x[j]) && !lib.isControlOrMark(x[|x| - 1])
    ensures |DeleteControlMarks(lib, x)| >= 3
  {
    var tail := x[j..];
    assert DeleteControlMarks(lib, tail) == [x[j]] + DeleteControlMarks(lib, tail[1..]);
    var last := tail[1..];
    DeleteControlMarksSplit(lib, last, |last| - 1);
    assert last[|last| - 1..] == [x[|x| - 1]];
    assert |DeleteControlMarks(lib, last)| >= 1;
    DeleteControlMarksSplit(lib, x, j);
    DeleteControlMarksSplit(lib, x[..j], 1);
    assert x[..j][..1] == [x[0]];
    assert |DeleteControlMarks(lib, x[..j])| >= 1;
  }

  /** Collapsing a space-wrapped string with a surviving character keeps the spaces outside it. */
  lemma CollapseWrapped(lib: TextLib, folded: string, c: char) returns (j: nat)
    requires WellFormed(lib)
    requires |folded| >= 2 && folded[0] == ' ' && folded[|folded| - 1] == ' '
    requires c in folded && Survives(lib, c)
    ensures var col := CollapseSeparators(lib, folded);
      0 < j < |col| - 1 && col[0] == ' ' && col[j] == c && col[|col| - 1] == ' '
  {
    var col := CollapseSeparators(lib, folded);
    CollapseSeparatorsSpec(lib, folded);
    assert lib.isSeparator(col[0]);
    CollapseKeepsTrailingSpace(lib, folded);
    WordsMembership(lib, folded, c);
    assert c in Words(lib, col);
    WordsSubset(lib, col, c);
    j :| 0 <= j < |col| && col[j] == c;
    assert j != 0 && j != |col| - 1 by {
      assert !lib.isSeparator(c);
    }
  }

  /**
   * The indexer wraps each value in one leading and one trailing space
   * before slicing (src/helpers/Search.php:229-232): once case folding has
   * kept those spaces, a value with at least one surviving character, such
   * as a letter or digit, yields at least one gram.
   */
  lemma WrappedValueYieldsGram(lib: TextLib, folded: string, c: char)
    requires WellFormed(lib)
    requires |folded| >= 2 && folded[0] == ' ' && folded[|folded| - 1] == ' '
    requires c in folded && Survives(lib, c)
    ensures |Grams(Clean(lib, folded))| >= 1
  {
    var j := CollapseWrapped(lib, folded, c);
    DeleteKeepsThree(lib, CollapseSeparators(lib, folded), j);
    GramsShape(Clean(lib, folded));
  }
}
