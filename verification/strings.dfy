/**
 * The JavaScript string operations the order records and the lookup page
 * use: `split`/`join` on a one-character separator, `trim`, and
 * `toUpperCase` (on the ASCII letters that order codes are made of).
 */
module Strings {

  // ---------------------------------------------------------------------
  // split / join
  // ---------------------------------------------------------------------

  /** `parts.join(d)`: the parts with `d` between neighbours (`[].join(d) == ""`). */
  function Join(parts: seq<string>, d: char): string
    decreases |parts|
  {
    if |parts| == 0 then ""
    else if |parts| == 1 then parts[0]
    else parts[0] + [d] + Join(parts[1..], d)
  }

  /**
   * `s.split(d)`: the maximal runs of non-`d` characters, including the
   * empty runs before, between and after separators. There is always at
   * least one part, no part contains the separator, and joining the parts
   * back gives `s`.
   */
  function Split(s: string, d: char): (parts: seq<string>)
    ensures |parts| >= 1
    ensures forall i :: 0 <= i < |parts| ==> d !in parts[i]
    ensures Join(parts, d) == s
    decreases |s|
  {
    if |s| == 0 then [""]
    else
      var rest := Split(s[1..], d);
      if s[0] == d then
        assert ([""] + rest)[1..] == rest;
        [""] + rest
      else
        var parts := [[s[0]] + rest[0]] + rest[1..];
        assert parts[1..] == rest[1..];
        assert |rest| > 1 ==> Join(rest, d) == rest[0] + [d] + Join(rest[1..], d);
        assert s == [s[0]] + s[1..];
        parts
  }

  /** Text without the separator splits into itself alone. */
  lemma {:induction false} SplitWithoutSeparator(a: string, d: char)
    requires d !in a
    ensures Split(a, d) == [a]
    decreases |a|
  {
    if |a| > 0 {
      SplitWithoutSeparator(a[1..], d);
      assert a == [a[0]] + a[1..];
    }
  }

  /** Splitting at the first separator: the part before it comes first, then the split of the rest. */
  lemma {:induction false} SplitAtFirst(a: string, b: string, d: char)
    requires d !in a
    ensures Split(a + [d] + b, d) == [a] + Split(b, d)
    decreases |a|
  {
    var s := a + [d] + b;
    if |a| == 0 {
      assert s == [d] + b;
      assert s[1..] == b;
    } else {
      assert s[1..] == a[1..] + [d] + b;
      SplitAtFirst(a[1..], b, d);
      assert a == [a[0]] + a[1..];
    }
  }

  /** Joining parts that do not contain the separator and splitting again gives the parts back. */
  lemma {:induction false} SplitJoin(parts: seq<string>, d: char)
    requires |parts| >= 1
    requires forall i :: 0 <= i < |parts| ==> d !in parts[i]
    ensures Split(Join(parts, d), d) == parts
    decreases |parts|
  {
    if |parts| == 1 {
      SplitWithoutSeparator(parts[0], d);
    } else {
      SplitAtFirst(parts[0], Join(parts[1..], d), d);
      SplitJoin(parts[1..], d);
      assert parts == [parts[0]] + parts[1..];
    }
  }

  // ---------------------------------------------------------------------
  // trim
  // ---------------------------------------------------------------------

  /**
   * The characters `String.prototype.trim` removes: ECMAScript WhiteSpace
   * (tab, vertical tab, form feed, the byte-order mark and every Unicode
   * space separator) and LineTerminator (line feed, carriage return, line
   * and paragraph separator).
   */
  const JsWhitespace: set<char> := {
    '\t', '\n', '\U{000B}', '\U{000C}', '\r', ' ', '\U{00A0}', '\U{1680}',
    '\U{2000}', '\U{2001}', '\U{2002}', '\U{2003}', '\U{2004}', '\U{2005}',
    '\U{2006}', '\U{2007}', '\U{2008}', '\U{2009}', '\U{200A}',
    '\U{2028}', '\U{2029}', '\U{202F}', '\U{205F}', '\U{3000}', '\U{FEFF}'
  }

  predicate IsJsWhitespace(c: char) {
    c in JsWhitespace
  }

  /** Neither end is whitespace (the empty string counts as trimmed). */
  predicate IsTrimmed(t: string) {
    |t| == 0 || (!IsJsWhitespace(t[0]) && !IsJsWhitespace(t[|t| - 1]))
  }

  /** How many whitespace characters `trim` removes from the front: the index of the first other character. */
  function Leading(s: string): (n: nat)
    ensures n <= |s|
    ensures forall i :: 0 <= i < n ==> IsJsWhitespace(s[i])
    ensures n < |s| ==> !IsJsWhitespace(s[n])
    decreases |s|
  {
    if |s| > 0 && IsJsWhitespace(s[0]) then
      assert forall i :: 1 <= i < |s| ==> s[i] == s[1..][i - 1];
      1 + Leading(s[1..])
    else 0
  }

  /** Where the text ends once `trim` has removed the trailing whitespace. */
  function End(s: string): (e: nat)
    ensures e <= |s|
    ensures forall i :: e <= i < |s| ==> IsJsWhitespace(s[i])
    ensures e > 0 ==> !IsJsWhitespace(s[e - 1])
    decreases |s|
  {
    if |s| > 0 && IsJsWhitespace(s[|s| - 1]) then End(s[..|s| - 1]) else |s|
  }

  /**
   * `s.trim()`: the result is a slice of `s` with no whitespace at either
   * end, and everything cut away on either side is whitespace.
   */
  function Trim(s: string): (r: string)
    ensures IsTrimmed(r)
    ensures Leading(s) + |r| <= |s|
    ensures r == s[Leading(s)..Leading(s) + |r|]
    ensures forall k :: 0 <= k < Leading(s) ==> IsJsWhitespace(s[k])
    ensures forall k :: Leading(s) + |r| <= k < |s| ==> IsJsWhitespace(s[k])
  {
    if Leading(s) == |s| then "" else s[Leading(s)..End(s)]
  }

  /** The trim is empty exactly when the whole string is whitespace. */
  lemma TrimEmpty(s: string)
    ensures |Trim(s)| == 0 <==> forall k :: 0 <= k < |s| ==> IsJsWhitespace(s[k])
  {
    if Leading(s) < |s| {
      assert !IsJsWhitespace(s[Leading(s)]);
    }
  }

  /** A trimmed string is its own trim. */
  lemma TrimTrimmed(t: string)
    requires IsTrimmed(t)
    ensures Trim(t) == t
  {
    if |t| > 0 {
      assert Leading(t) == 0 && End(t) == |t|;
    }
  }

  /** Trimming twice is trimming once. */
  lemma TrimIdempotent(s: string)
    ensures Trim(Trim(s)) == Trim(s)
  {
    TrimTrimmed(Trim(s));
  }

  predicate AllWhitespace(s: string) {
    forall i :: 0 <= i < |s| ==> IsJsWhitespace(s[i])
  }

  /** A string is all whitespace exactly when both of its parts are. */
  lemma AllWhitespaceConcat(a: string, b: string)
    ensures AllWhitespace(a + b) <==> AllWhitespace(a) && AllWhitespace(b)
  {
    if AllWhitespace(a + b) {
      assert forall i :: 0 <= i < |a| ==> a[i] == (a + b)[i];
      assert forall i :: 0 <= i < |b| ==> b[i] == (a + b)[|a| + i];
    }
  }

  /** A trimmed text between two runs of whitespace is exactly what `trim` returns. */
  lemma TrimBetweenWhitespace(w1: string, t: string, w2: string)
    requires AllWhitespace(w1) && AllWhitespace(w2) && IsTrimmed(t)
    ensures Trim(w1 + t + w2) == t
  {
    var s := w1 + t + w2;
    AllWhitespaceConcat(w1 + t, w2);
    AllWhitespaceConcat(w1, t);
    if |t| == 0 {
      assert s == w1 + w2;
      AllWhitespaceConcat(w1, w2);
      TrimEmpty(s);
    } else {
      assert forall i :: 0 <= i < |w1| ==> s[i] == w1[i];
      assert s[|w1|] == t[0];
      assert Leading(s) == |w1|;
      assert forall i :: |w1| + |t| <= i < |s| ==> s[i] == w2[i - |w1| - |t|];
      assert s[|w1| + |t| - 1] == t[|t| - 1];
      assert End(s) == |w1| + |t|;
      assert s[|w1|..|w1| + |t|] == t;
    }
  }

  /** Whitespace added on either side does not change the trim. */
  lemma TrimIgnoresPadding(p: string, s: string, q: string)
    requires AllWhitespace(p) && AllWhitespace(q)
    ensures Trim(p + s + q) == Trim(s)
  {
    var n := Leading(s);
    var t := Trim(s);
    TrimDecompose(s);
    var before, after := s[..n], s[n + |t|..];
    AllWhitespaceConcat(p, before);
    AllWhitespaceConcat(after, q);
    Regroup(p, before, t, after, q);
    TrimBetweenWhitespace(p + before, t, after + q);
  }

  /** A string is its leading whitespace, its trim and its trailing whitespace. */
  lemma TrimDecompose(s: string)
    ensures var n, t := Leading(s), Trim(s);
      && s == s[..n] + t + s[n + |t|..]
      && AllWhitespace(s[..n]) && AllWhitespace(s[n + |t|..])
  {
    var n, t := Leading(s), Trim(s);
    assert s == s[..n] + s[n..n + |t|] + s[n + |t|..];
  }

  lemma Regroup(p: string, a: string, t: string, b: string, q: string)
    ensures p + (a + t + b) + q == (p + a) + t + (b + q)
  {
  }

  // ---------------------------------------------------------------------
  // toUpperCase
  // ---------------------------------------------------------------------

  /** Upper-case of one character, for the ASCII letters. */
  function UpperChar(c: char): (u: char)
    ensures 'a' <= c <= 'z' ==> u as int == c as int - 32
    ensures !('a' <= c <= 'z') ==> u == c
  {
    if 'a' <= c <= 'z' then (c as int - 'a' as int + 'A' as int) as char else c
  }

  /** `s.toUpperCase()` on ASCII letters: same length, each lower-case letter mapped to its capital, others kept. */
  function ToUpper(s: string): (u: string)
    ensures |u| == |s|
    ensures forall i :: 0 <= i < |s| ==> u[i] == UpperChar(s[i])
  {
    seq(|s|, i requires 0 <= i < |s| => UpperChar(s[i]))
  }

  /** The two strings differ at most in the case of ASCII letters. */
  predicate SameUpToCase(a: string, b: string) {
    |a| == |b| && forall i :: 0 <= i < |a| ==> UpperChar(a[i]) == UpperChar(b[i])
  }

  /** Upper-casing makes two strings equal exactly when they differ only in letter case. */
  lemma ToUpperEqual(a: string, b: string)
    ensures ToUpper(a) == ToUpper(b) <==> SameUpToCase(a, b)
  {
    if ToUpper(a) == ToUpper(b) {
      forall i | 0 <= i < |a| ensures UpperChar(a[i]) == UpperChar(b[i]) {
        assert ToUpper(a)[i] == ToUpper(b)[i];
      }
    }
  }

  /** No lower-case ASCII letter. */
  predicate NoLowerCase(s: string) {
    forall i :: 0 <= i < |s| ==> !('a' <= s[i] <= 'z')
  }

  /** Upper-casing leaves no lower-case letter, so doing it twice is doing it once. */
  lemma ToUpperIdempotent(s: string)
    ensures NoLowerCase(ToUpper(s))
    ensures ToUpper(ToUpper(s)) == ToUpper(s)
  {
  }

  /** A string without lower-case letters is its own upper-case. */
  lemma ToUpperNoLowerCase(s: string)
    requires NoLowerCase(s)
    ensures ToUpper(s) == s
  {
  }

  /** Upper-casing never turns a character into whitespace or back, so a trimmed string stays trimmed. */
  lemma ToUpperKeepsTrimmed(t: string)
    requires IsTrimmed(t)
    ensures IsTrimmed(ToUpper(t))
  {
  }
}
