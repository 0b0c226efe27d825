/**
 * The JavaScript string operations the pipeline is built from: literal
 * `replace(/x/g, y)` chains, `join`, ASCII case mapping and the `\s` class.
 */
module Strings {

  /** The characters of the JavaScript regular-expression class `\s`. */
  predicate IsSpace(c: char) {
    c == ' ' || c == '\t' || c == '\n' || c == '\r' || c == '\U{000B}' || c == '\U{000C}'
    || c == '\U{00A0}' || c == '\U{1680}' || ('\U{2000}' <= c <= '\U{200A}')
    || c == '\U{2028}' || c == '\U{2029}' || c == '\U{202F}' || c == '\U{205F}'
    || c == '\U{3000}' || c == '\U{FEFF}'
  }

  /** The characters the regular-expression `.` does not match. */
  predicate IsLineTerminator(c: char) {
    c == '\n' || c == '\r' || c == '\U{2028}' || c == '\U{2029}'
  }

  predicate IsDigit(c: char) {
    '0' <= c <= '9'
  }

  function LowerChar(c: char): char {
    if 'A' <= c <= 'Z' then (c as int + 32) as char else c
  }

  function UpperChar(c: char): char {
    if 'a' <= c <= 'z' then (c as int - 32) as char else c
  }

  /** `toLowerCase()`, on ASCII letters. */
  function ToLower(s: string): string {
    seq(|s|, i requires 0 <= i < |s| => LowerChar(s[i]))
  }

  predicate StartsWith(s: string, prefix: string) {
    |prefix| <= |s| && s[..|prefix|] == prefix
  }

  /** `xs.join(sep)`. */
  function Join(sep: string, xs: seq<string>): string {
    if |xs| == 0 then ""
    else if |xs| == 1 then xs[0]
    else xs[0] + sep + Join(sep, xs[1..])
  }

  /** `s.replace(/c/g, r)` for a single literal character `c`. */
  function ReplaceChar(s: string, c: char, r: string): string {
    if s == [] then []
    else (if s[0] == c then r else [s[0]]) + ReplaceChar(s[1..], c, r)
  }

  /**
   * `s.replace(/p/g, r)` for a literal pattern `p`: the leftmost occurrence
   * is replaced first and the scan resumes after it, so occurrences never overlap.
   */
  function ReplaceAll(s: string, p: string, r: string): string
    requires |p| > 0
    decreases |s|
  {
    if |s| < |p| then s
    else if s[..|p|] == p then r + ReplaceAll(s[|p|..], p, r)
    else [s[0]] + ReplaceAll(s[1..], p, r)
  }

  /** `xs.indexOf(x)`: the first position holding `x`, or -1. */
  function IndexOf<T(==)>(xs: seq<T>, x: T): (r: int)
    ensures -1 <= r < |xs|
    ensures r >= 0 ==> xs[r] == x && forall j :: 0 <= j < r ==> xs[j] != x
    ensures r == -1 <==> x !in xs
  {
    if |xs| == 0 then -1
    else if xs[0] == x then 0
    else var t := IndexOf(xs[1..], x); if t == -1 then -1 else t + 1
  }

  function DigitChar(d: nat): char
    requires d < 10
  {
    ('0' as int + d) as char
  }

  /** The decimal text JavaScript gives a non-negative integer in a template. */
  function NatToString(n: nat): string
    decreases n
  {
    if n < 10 then [DigitChar(n)] else NatToString(n / 10) + [DigitChar(n % 10)]
  }

  /** Joining one more element adds the separator and the element at the end. */
  lemma {:induction false} JoinAppend(sep: string, xs: seq<string>, x: string)
    requires |xs| >= 1
    ensures Join(sep, xs + [x]) == Join(sep, xs) + sep + x
    decreases |xs|
  {
    if |xs| == 1 {
      assert (xs + [x])[1..] == [x];
    } else {
      assert (xs + [x])[1..] == xs[1..] + [x];
      JoinAppend(sep, xs[1..], x);
    }
  }

  /** Joining one more element of a sequence adds a separator and that element. */
  lemma JoinPrefix(sep: string, xs: seq<string>, k: nat)
    requires 1 <= k < |xs|
    ensures Join(sep, xs[..k + 1]) == Join(sep, xs[..k]) + sep + xs[k]
  {
    assert xs[..k + 1] == xs[..k] + [xs[k]];
    JoinAppend(sep, xs[..k], xs[k]);
  }

  lemma {:induction false} ReplaceCharAppend(a: string, b: string, c: char, r: string)
    ensures ReplaceChar(a + b, c, r) == ReplaceChar(a, c, r) + ReplaceChar(b, c, r)
  {
    if a != [] {
      assert (a + b)[1..] == a[1..] + b;
      ReplaceCharAppend(a[1..], b, c, r);
    } else {
      assert a + b == b;
    }
  }

  /** A replacement never leaves the replaced character behind, unless `r` reintroduces it. */
  lemma {:induction false} ReplaceCharRemoves(s: string, c: char, r: string, d: char)
    requires d !in r
    requires d == c || d !in s
    ensures d !in ReplaceChar(s, c, r)
  {
    if s != [] {
      ReplaceCharRemoves(s[1..], c, r, d);
    }
  }

  /** Scanning past a prefix that cannot start the pattern leaves that prefix unchanged. */
  lemma {:induction false} ReplaceAllSkip(u: string, rest: string, p: string, r: string)
    requires |p| > 0
    requires forall i :: 0 <= i < |u| ==> u[i] != p[0]
    ensures ReplaceAll(u + rest, p, r) == u + ReplaceAll(rest, p, r)
    decreases |u|
  {
    if u == [] {
      assert u + rest == rest;
    } else {
      var s := u + rest;
      if |s| < |p| {
        assert |rest| < |p|;
      } else {
        assert s[..|p|][0] == u[0];
        assert s[1..] == u[1..] + rest;
        ReplaceAllSkip(u[1..], rest, p, r);
      }
    }
  }

  /** An occurrence of the pattern at the front is replaced and the scan resumes after it. */
  lemma ReplaceAllHit(rest: string, p: string, r: string)
    requires |p| > 0
    ensures ReplaceAll(p + rest, p, r) == r + ReplaceAll(rest, p, r)
  {
    var s := p + rest;
    assert s[..|p|] == p;
    assert s[|p|..] == rest;
  }

  /** A front that is not the pattern is copied one character and the scan moves on. */
  lemma ReplaceAllStep(s: string, p: string, r: string)
    requires |p| > 0 && |s| >= |p| && s[..|p|] != p
    ensures ReplaceAll(s, p, r) == [s[0]] + ReplaceAll(s[1..], p, r)
  {
  }

  /**
   * A piece that starts like the pattern but differs from it at position `i`,
   * and has no further pattern start, is copied unchanged.
   */
  lemma ReplaceAllMiss(e: string, rest: string, p: string, r: string, i: nat)
    requires |p| > 0 && 0 < |e|
    requires i < |e| && i < |p| && e[i] != p[i]
    requires forall j :: 1 <= j < |e| ==> e[j] != p[0]
    ensures ReplaceAll(e + rest, p, r) == e + ReplaceAll(rest, p, r)
  {
    var s := e + rest;
    if |s| < |p| {
      assert ReplaceAll(rest, p, r) == rest;
      assert ReplaceAll(s, p, r) == s;
    } else {
      assert s[..|p|][i] != p[i];
      ReplaceAllStep(s, p, r);
      assert s[1..] == e[1..] + rest;
      ReplaceAllSkip(e[1..], rest, p, r);
      ConsSplit(e, ReplaceAll(rest, p, r));
    }
  }

  /** Putting the first element back in front of the rest. */
  lemma ConsSplit<T>(e: seq<T>, tail: seq<T>)
    requires |e| > 0
    ensures [e[0]] + (e[1..] + tail) == e + tail
  {
  }
}
