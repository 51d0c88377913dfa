/**
 * The parts of Rust's `str`/`char` API the task tracker relies on, as functions
 * on `seq<char>`: `char::is_whitespace`, `to_lowercase` (ASCII case mapping only),
 * `contains`, `starts_with`, `split_whitespace`, `join` and the `{}` formatting of
 * an unsigned integer.
 */
module Strings {

  /** `char::is_whitespace`: the characters with the Unicode White_Space property. */
  predicate IsWhitespace(c: char) {
    ('\t' <= c <= '\r') || c == ' ' || c == '\U{0085}' || c == '\U{00A0}' || c == '\U{1680}'
    || ('\U{2000}' <= c <= '\U{200A}') || c == '\U{2028}' || c == '\U{2029}'
    || c == '\U{202F}' || c == '\U{205F}' || c == '\U{3000}'
  }

  /** What `split_whitespace` yields: a non-empty run of non-whitespace characters. */
  predicate IsWord(w: string) {
    |w| > 0 && forall i :: 0 <= i < |w| ==> !IsWhitespace(w[i])
  }

  // ---------------------------------------------------------------------------
  // Case mapping

  /** Lower-case mapping of one character, restricted to ASCII letters. */
  function LowerChar(c: char): char {
    if 'A' <= c <= 'Z' then (c as int + 32) as char else c
  }

  /** `s.to_lowercase()`, restricted to ASCII letters: character by character. */
  function Lowercase(s: string): (r: string)
    ensures |r| == |s|
    ensures forall i :: 0 <= i < |s| ==> r[i] == LowerChar(s[i])
  {
    if s == [] then [] else [LowerChar(s[0])] + Lowercase(s[1..])
  }

  /** Lower-casing twice is lower-casing once. */
  lemma LowercaseIdempotent(s: string)
    ensures Lowercase(Lowercase(s)) == Lowercase(s)
  {
    var once := Lowercase(s);
    assert forall i :: 0 <= i < |s| ==> Lowercase(once)[i] == once[i];
  }

  /** A string without ASCII capitals is its own lower-case form. */
  lemma LowercaseWithoutCapitals(s: string)
    requires forall i :: 0 <= i < |s| ==> !('A' <= s[i] <= 'Z')
    ensures Lowercase(s) == s
  {
  }

  // ---------------------------------------------------------------------------
  // Substrings

  /** `s.starts_with(p)`. */
  predicate StartsWith(s: string, p: string) {
    |p| <= |s| && s[..|p|] == p
  }

  /** `hay.contains(needle)` for a string needle: some suffix of `hay` starts with `needle`. */
  predicate Contains(hay: string, needle: string)
    decreases |hay|
  {
    StartsWith(hay, needle) || (hay != [] && Contains(hay[1..], needle))
  }

  /** `Contains` holds exactly when `needle` occurs at some position of `hay`. */
  lemma {:induction false} ContainsIffOccurs(hay: string, needle: string)
    ensures Contains(hay, needle) <==> exists i :: 0 <= i <= |hay| && StartsWith(hay[i..], needle)
    decreases |hay|
  {
    if hay == [] {
      assert hay[0..] == hay;
    } else {
      ContainsIffOccurs(hay[1..], needle);
      if Contains(hay, needle) {
        if StartsWith(hay, needle) {
          assert hay[0..] == hay;
        } else {
          var i :| 0 <= i <= |hay[1..]| && StartsWith(hay[1..][i..], needle);
          assert hay[1..][i..] == hay[i + 1..];
        }
      }
      if exists i :: 0 <= i <= |hay| && StartsWith(hay[i..], needle) {
        var i :| 0 <= i <= |hay| && StartsWith(hay[i..], needle);
        if i == 0 {
          assert hay[0..] == hay;
        } else {
          assert hay[1..][i - 1..] == hay[i..];
        }
      }
    }
  }

  /** Every character of a contained needle occurs in the haystack. */
  lemma ContainsOnlyItsCharacters(hay: string, needle: string, c: char)
    requires Contains(hay, needle) && c in needle
    ensures c in hay
  {
    ContainsIffOccurs(hay, needle);
    var i :| 0 <= i <= |hay| && StartsWith(hay[i..], needle);
    var j :| 0 <= j < |needle| && needle[j] == c;
    assert hay[i..][j] == c;
  }

  // ---------------------------------------------------------------------------
  // Splitting on whitespace and joining

  /** Length of the run of non-whitespace characters at the start of `s`. */
  function WordSpan(s: string): (n: nat)
    ensures n <= |s|
    ensures forall i :: 0 <= i < n ==> !IsWhitespace(s[i])
    ensures n < |s| ==> IsWhitespace(s[n])
  {
    if s == [] || IsWhitespace(s[0]) then 0 else 1 + WordSpan(s[1..])
  }

  /** `s.split_whitespace()`: the maximal runs of non-whitespace characters, in order. */
  function SplitWhitespace(s: string): (r: seq<string>)
    ensures forall k :: 0 <= k < |r| ==> IsWord(r[k])
    decreases |s|
  {
    if s == [] then []
    else if IsWhitespace(s[0]) then SplitWhitespace(s[1..])
    else
      var n := WordSpan(s);
      [s[..n]] + SplitWhitespace(s[n..])
  }

  /** The characters of `s` that are not whitespace, in order. */
  function WithoutWhitespace(s: string): string {
    if s == [] then []
    else if IsWhitespace(s[0]) then WithoutWhitespace(s[1..])
    else [s[0]] + WithoutWhitespace(s[1..])
  }

  /** The words laid end to end. */
  function Concat(words: seq<string>): string {
    if words == [] then [] else words[0] + Concat(words[1..])
  }

  lemma {:induction false} WithoutWhitespaceAppend(a: string, b: string)
    ensures WithoutWhitespace(a + b) == WithoutWhitespace(a) + WithoutWhitespace(b)
    decreases |a|
  {
    if a == [] {
      assert a + b == b;
    } else {
      assert (a + b)[1..] == a[1..] + b;
      WithoutWhitespaceAppend(a[1..], b);
    }
  }

  lemma {:induction false} WithoutWhitespaceOfWord(w: string)
    requires forall i :: 0 <= i < |w| ==> !IsWhitespace(w[i])
    ensures WithoutWhitespace(w) == w
    decreases |w|
  {
    if w != [] {
      WithoutWhitespaceOfWord(w[1..]);
    }
  }

  /** Splitting loses exactly the whitespace: the words hold every other character, in order. */
  lemma {:induction false} SplitKeepsEveryOtherCharacter(s: string)
    ensures Concat(SplitWhitespace(s)) == WithoutWhitespace(s)
    decreases |s|
  {
    if s != [] {
      if IsWhitespace(s[0]) {
        SplitKeepsEveryOtherCharacter(s[1..]);
      } else {
        var n := WordSpan(s);
        SplitKeepsEveryOtherCharacter(s[n..]);
        assert s == s[..n] + s[n..];
        WithoutWhitespaceAppend(s[..n], s[n..]);
        WithoutWhitespaceOfWord(s[..n]);
        assert SplitWhitespace(s) == [s[..n]] + SplitWhitespace(s[n..]);
        assert ([s[..n]] + SplitWhitespace(s[n..]))[1..] == SplitWhitespace(s[n..]);
      }
    }
  }

  /** A whitespace character ends the first run of `a + t` no later than the end of `a`. */
  lemma {:induction false} WordSpanStopsAtWhitespace(a: string, t: string)
    requires t != [] && IsWhitespace(t[0])
    ensures WordSpan(a + t) == WordSpan(a)
    decreases |a|
  {
    if a == [] {
      assert a + t == t;
    } else if !IsWhitespace(a[0]) {
      assert (a + t)[1..] == a[1..] + t;
      WordSpanStopsAtWhitespace(a[1..], t);
    }
  }

  /** A whitespace character separates the words before it from the words after it. */
  lemma {:induction false} SplitAtWhitespace(a: string, c: char, b: string)
    requires IsWhitespace(c)
    ensures SplitWhitespace(a + [c] + b) == SplitWhitespace(a) + SplitWhitespace(b)
    decreases |a|
  {
    var s := a + [c] + b;
    if a == [] {
      assert s == [c] + b;
      assert s[1..] == b;
    } else if IsWhitespace(a[0]) {
      assert s[1..] == a[1..] + [c] + b;
      SplitAtWhitespace(a[1..], c, b);
    } else {
      assert s == a + ([c] + b);
      WordSpanStopsAtWhitespace(a, [c] + b);
      var n := WordSpan(a);
      assert s[..n] == a[..n];
      assert s[n..] == a[n..] + [c] + b;
      SplitAtWhitespace(a[n..], c, b);
    }
  }

  /** `words.join(sep)`. */
  function Join(words: seq<string>, sep: string): string {
    if |words| == 0 then ""
    else if |words| == 1 then words[0]
    else words[0] + sep + Join(words[1..], sep)
  }

  /** Splitting the words joined by single spaces gives the words back. */
  lemma {:induction false} SplitJoinRoundTrip(words: seq<string>)
    requires forall k :: 0 <= k < |words| ==> IsWord(words[k])
    ensures SplitWhitespace(Join(words, " ")) == words
  {
    if |words| == 1 {
      var w := words[0];
      assert WordSpan(w) == |w|;
      assert w[..|w|] == w && w[|w|..] == [];
    } else if |words| > 1 {
      var w, rest := words[0], Join(words[1..], " ");
      assert Join(words, " ") == w + [' '] + rest;
      SplitAtWhitespace(w, ' ', rest);
      SplitJoinRoundTrip(words[1..]);
      assert WordSpan(w) == |w|;
      assert w[..|w|] == w && w[|w|..] == [];
      assert words == [w] + words[1..];
    }
  }

  // ---------------------------------------------------------------------------
  // Decimal formatting

  predicate IsDigit(c: char) {
    '0' <= c <= '9'
  }

  function DigitChar(d: nat): (c: char)
    requires d < 10
    ensures IsDigit(c)
  {
    ('0' as int + d) as char
  }

  /** The `{}` formatting of an unsigned integer: decimal digits with no leading zero. */
  function Decimal(n: nat): (r: string)
    ensures |r| >= 1
    ensures forall i :: 0 <= i < |r| ==> IsDigit(r[i])
    ensures r[0] == '0' ==> n == 0 && r == "0"
    decreases n
  {
    if n < 10 then [DigitChar(n)] else Decimal(n / 10) + [DigitChar(n % 10)]
  }

  /** The number a string of decimal digits denotes. */
  function DecimalValue(s: string): nat
    requires forall i :: 0 <= i < |s| ==> IsDigit(s[i])
  {
    if s == [] then 0
    else
      assert IsDigit(s[|s| - 1]);
      DecimalValue(s[..|s| - 1]) * 10 + (s[|s| - 1] as int - '0' as int)
  }

  /** Reading back the formatted number gives the number. */
  lemma {:induction false} DecimalRoundTrip(n: nat)
    ensures DecimalValue(Decimal(n)) == n
    decreases n
  {
    var r := Decimal(n);
    if n < 10 {
      assert r[..0] == [];
    } else {
      DecimalRoundTrip(n / 10);
      assert r[..|r| - 1] == Decimal(n / 10);
    }
  }
}
