/**
  String.prototype.trim as the to-do form uses it on the title being typed.
  ECMAScript's trim removes, from both ends, every code point of the
  WhiteSpace and LineTerminator productions.
 */
module JsText {

  /** WhiteSpace (TAB, VT, FF, ZWNBSP and the Unicode Zs category) or LineTerminator (LF, CR, LS, PS). */
  predicate IsWhiteSpace(c: char) {
    || c == '\t' || c == '\n' || c == '\U{000B}' || c == '\U{000C}' || c == '\r'
    || c == ' ' || c == '\U{00A0}' || c == '\U{1680}'
    || ('\U{2000}' <= c <= '\U{200A}')
    || c == '\U{2028}' || c == '\U{2029}' || c == '\U{202F}' || c == '\U{205F}'
    || c == '\U{3000}' || c == '\U{FEFF}'
  }

  /** Every character of `s` is white space (the empty string included). */
  predicate IsBlank(s: string) {
    forall i :: 0 <= i < |s| ==> IsWhiteSpace(s[i])
  }

  /** Neither the first nor the last character of `s` is white space. */
  predicate IsTrimmed(s: string) {
    s == [] || (!IsWhiteSpace(s[0]) && !IsWhiteSpace(s[|s| - 1]))
  }

  /** Drops the leading white space: what is left is a suffix of `s`, what went is blank. */
  function TrimStart(s: string): (r: string)
    ensures |r| <= |s| && r == s[|s| - |r|..]
    ensures IsBlank(s[..|s| - |r|])
    ensures r != [] ==> !IsWhiteSpace(r[0])
  {
    if s != [] && IsWhiteSpace(s[0]) then
      var r := TrimStart(s[1..]);
      assert s[..|s| - |r|] == [s[0]] + s[1..][..|s| - 1 - |r|];
      r
    else
      s
  }

  /** Drops the trailing white space: what is left is a prefix of `s`, what went is blank. */
  function TrimEnd(s: string): (r: string)
    ensures |r| <= |s| && r == s[..|r|]
    ensures IsBlank(s[|r|..])
    ensures r != [] ==> !IsWhiteSpace(r[|r| - 1])
  {
    if s != [] && IsWhiteSpace(s[|s| - 1]) then
      var r := TrimEnd(s[..|s| - 1]);
      assert s[|r|..] == s[..|s| - 1][|r|..] + [s[|s| - 1]];
      r
    else
      s
  }

  /** `s` is `m` with the blank prefix `p` and the blank suffix `q` around it. */
  predicate Surrounds(s: string, p: string, m: string, q: string) {
    s == p + m + q && IsBlank(p) && IsBlank(q)
  }

  /** Blankness of a concatenation is blankness of both parts. */
  lemma BlankConcat(p: string, q: string)
    ensures IsBlank(p + q) <==> IsBlank(p) && IsBlank(q)
  {
    if IsBlank(p + q) {
      forall i | 0 <= i < |p| ensures IsWhiteSpace(p[i]) { assert p[i] == (p + q)[i]; }
      forall i | 0 <= i < |q| ensures IsWhiteSpace(q[i]) { assert q[i] == (p + q)[|p| + i]; }
    }
    if IsBlank(p) && IsBlank(q) {
      forall i | 0 <= i < |p + q| ensures IsWhiteSpace((p + q)[i]) {
        if i >= |p| { assert (p + q)[i] == q[i - |p|]; }
      }
    }
  }

  /** `s.trim()`: leading, then trailing white space dropped. */
  function Trim(s: string): (r: string)
    ensures |r| <= |s|
    ensures IsTrimmed(r)
  {
    TrimEnd(TrimStart(s))
  }

  /** TrimStart drops exactly a blank prefix that is followed by a non-blank character (or nothing). */
  lemma {:induction false} TrimStartAfterBlank(p: string, x: string)
    requires IsBlank(p)
    requires x == [] || !IsWhiteSpace(x[0])
    ensures TrimStart(p + x) == x
  {
    if p != [] {
      assert (p + x)[1..] == p[1..] + x;
      TrimStartAfterBlank(p[1..], x);
    }
  }

  /** TrimEnd drops exactly a blank suffix that is preceded by a non-blank character (or nothing). */
  lemma {:induction false} TrimEndBeforeBlank(x: string, q: string)
    requires IsBlank(q)
    requires x == [] || !IsWhiteSpace(x[|x| - 1])
    ensures TrimEnd(x + q) == x
  {
    if q != [] {
      assert (x + q)[..|x + q| - 1] == x + q[..|q| - 1];
      TrimEndBeforeBlank(x, q[..|q| - 1]);
    }
  }

  /** A string is its prefix followed by its suffix. */
  lemma SplitAt(s: string, k: nat)
    requires k <= |s|
    ensures s == s[..k] + s[k..]
  {
  }

  /** A blank prefix cut off first and a blank suffix cut off next leave a decomposition. */
  lemma SurroundsOfParts(s: string, p: string, t: string, r: string, q: string)
    requires s == p + t && t == r + q && IsBlank(p) && IsBlank(q)
    ensures Surrounds(s, p, r, q)
  {
  }

  /** The result of Trim is what is left of `s` once a blank prefix and a blank suffix are cut off. */
  lemma TrimSurrounds(s: string)
    ensures exists p, q :: Surrounds(s, p, Trim(s), q)
  {
    var t := TrimStart(s);
    var r := TrimEnd(t);
    SplitAt(s, |s| - |t|);
    SplitAt(t, |r|);
    SurroundsOfParts(s, s[..|s| - |t|], t, r, t[|r|..]);
    assert Surrounds(s, s[..|s| - |t|], Trim(s), t[|r|..]);
  }

  /**
    Any split of `s` into a blank prefix, a trimmed middle and a blank suffix
    has Trim(s) as its middle, so Trim is fully determined by that description.
   */
  lemma TrimUnique(s: string, p: string, m: string, q: string)
    requires Surrounds(s, p, m, q) && IsTrimmed(m)
    ensures Trim(s) == m
  {
    if m == [] {
      BlankConcat(p, q);
      assert s == p + q + [];
      TrimStartAfterBlank(p + q, []);
    } else {
      assert s == p + (m + q);
      TrimStartAfterBlank(p, m + q);
      TrimEndBeforeBlank(m, q);
    }
  }

  /** The trimmed title is empty exactly when the title is all white space. */
  lemma TrimEmptyIffBlank(s: string)
    ensures Trim(s) == [] <==> IsBlank(s)
  {
    if IsBlank(s) {
      assert Surrounds(s, s, [], []) by { assert s == s + [] + []; }
      TrimUnique(s, s, [], []);
    }
    if Trim(s) == [] {
      TrimSurrounds(s);
      var p, q :| Surrounds(s, p, [], q);
      BlankConcat(p, q);
      assert s == p + q;
    }
  }

  /** Trimming twice is trimming once. */
  lemma TrimIdempotent(s: string)
    ensures Trim(Trim(s)) == Trim(s)
  {
    var r := Trim(s);
    assert Surrounds(r, [], r, []) by { assert r == [] + r + []; }
    TrimUnique(r, [], r, []);
  }
}
