/**
 * The JavaScript string operations the handlers rely on:
 * `String.prototype.trim`, `indexOf` (substring search),
 * `toLowerCase` and `startsWith`.
 */
module JsText {

  /**
   * The characters `trim` removes: ECMAScript WhiteSpace (tab, vertical tab,
   * form feed, space, no-break space, byte order mark and every other
   * Unicode space separator) and LineTerminator (LF, CR, U+2028, U+2029).
   */
  predicate IsJsSpace(c: char) {
    || c in {'\t', '\n', '\U{000B}', '\U{000C}', '\r', ' ', '\U{00A0}', '\U{1680}'}
    || ('\U{2000}' <= c <= '\U{200A}')
    || c in {'\U{2028}', '\U{2029}', '\U{202F}', '\U{205F}', '\U{3000}', '\U{FEFF}'}
  }

  predicate AllSpace(s: string) {
    forall i :: 0 <= i < |s| ==> IsJsSpace(s[i])
  }

  /** Drops leading white space; what is left is a suffix of `s`. */
  function TrimStart(s: string): (r: string)
    ensures |r| <= |s| && r == s[|s| - |r|..]
    ensures AllSpace(s[..|s| - |r|])
    ensures r == [] || !IsJsSpace(r[0])
  {
    if s != [] && IsJsSpace(s[0]) then TrimStart(s[1..]) else s
  }

  /** Drops trailing white space; what is left is a prefix of `s`. */
  function TrimEnd(s: string): (r: string)
    ensures |r| <= |s| && r == s[..|r|]
    ensures AllSpace(s[|r|..])
    ensures r == [] || !IsJsSpace(r[|r| - 1])
  {
    if s != [] && IsJsSpace(s[|s| - 1]) then TrimEnd(s[..|s| - 1]) else s
  }

  /**
   * `r` is `s` with white space only cut off both ends, and no white space
   * left at either end of `r`.
   */
  ghost predicate IsTrimOf(r: string, s: string) {
    && (r == [] || (!IsJsSpace(r[0]) && !IsJsSpace(r[|r| - 1])))
    && exists p :: 0 <= p <= |s| - |r| && Trimmed(r, s, p)
  }

  /** `s` splits as white space of length `p`, then `r`, then white space. */
  ghost predicate Trimmed(r: string, s: string, p: int)
    requires 0 <= p <= |s| - |r|
  {
    s[p..p + |r|] == r && AllSpace(s[..p]) && AllSpace(s[p + |r|..])
  }

  /** `s.trim()`. */
  function Trim(s: string): (r: string)
    ensures IsTrimOf(r, s)
  {
    var t := TrimStart(s);
    var r := TrimEnd(t);
    var p := |s| - |t|;
    assert s[p..p + |r|] == r;
    assert s[p + |r|..] == t[|r|..];
    assert Trimmed(r, s, p);
    r
  }

  /**
   * The trim of a string is unique: any way of cutting white space off both
   * ends of `s` that leaves no white space at either end gives `Trim(s)`.
   */
  lemma TrimUnique(r: string, s: string)
    requires IsTrimOf(r, s)
    ensures r == Trim(s)
  {
    var t := Trim(s);
    var p :| 0 <= p <= |s| - |r| && Trimmed(r, s, p);
    var q :| 0 <= q <= |s| - |t| && Trimmed(t, s, q);
    CutsAgree(s, r, p, t, q);
  }

  /** Two cuts of `s` that both leave no white space at either end are the same cut. */
  lemma CutsAgree(s: string, r: string, p: int, t: string, q: int)
    requires 0 <= p <= |s| - |r| && Trimmed(r, s, p)
    requires 0 <= q <= |s| - |t| && Trimmed(t, s, q)
    requires r == [] || (!IsJsSpace(r[0]) && !IsJsSpace(r[|r| - 1]))
    requires t == [] || (!IsJsSpace(t[0]) && !IsJsSpace(t[|t| - 1]))
    ensures r == t
  {
    if r == [] {
      NothingLeft(s, p, t, q);
    } else if t == [] {
      NothingLeft(s, q, r, p);
    } else {
      // both cuts start at the first non-space character and end after the
      // last one
      assert s[p] == r[0] && s[q] == t[0];
      SameStart(s, p, q);
      assert s[p + |r| - 1] == r[|r| - 1] && s[q + |t| - 1] == t[|t| - 1];
      SameEnd(s, p + |r|, q + |t|);
    }
  }

  /** When one cut leaves nothing, `s` is all white space and so any other cut leaves nothing. */
  lemma NothingLeft(s: string, p: int, u: string, q: int)
    requires 0 <= p <= |s| && Trimmed([], s, p)
    requires 0 <= q <= |s| - |u| && Trimmed(u, s, q)
    requires u == [] || !IsJsSpace(u[0])
    ensures u == []
  {
    assert u == [] || s[q] == u[0];
    assert forall i :: 0 <= i < p ==> s[..p][i] == s[i];
    assert forall i :: p <= i < |s| ==> s[p..][i - p] == s[i];
  }

  lemma SameStart(s: string, p: int, q: int)
    requires 0 <= p < |s| && 0 <= q < |s|
    requires AllSpace(s[..p]) && AllSpace(s[..q])
    requires !IsJsSpace(s[p]) && !IsJsSpace(s[q])
    ensures p == q
  {
    assert forall i :: 0 <= i < q ==> s[..q][i] == s[i];
    assert forall i :: 0 <= i < p ==> s[..p][i] == s[i];
  }

  lemma SameEnd(s: string, e: int, f: int)
    requires 0 < e <= |s| && 0 < f <= |s|
    requires AllSpace(s[e..]) && AllSpace(s[f..])
    requires !IsJsSpace(s[e - 1]) && !IsJsSpace(s[f - 1])
    ensures e == f
  {
    assert forall i :: e <= i < |s| ==> s[e..][i - e] == s[i];
    assert forall i :: f <= i < |s| ==> s[f..][i - f] == s[i];
  }

  /** Trimming twice is trimming once. */
  lemma TrimIdempotent(s: string)
    ensures Trim(Trim(s)) == Trim(s)
  {
    var t := Trim(s);
    assert t == t[..0] + t[0..|t|] + t[|t|..];
    assert Trimmed(t, t, 0);
    TrimUnique(t, t);
  }

  /** `s.startsWith(prefix)`. */
  function StartsWith(s: string, prefix: string): (b: bool)
    ensures b <==> |prefix| <= |s| && forall i :: 0 <= i < |prefix| ==> s[i] == prefix[i]
  {
    |prefix| <= |s| && s[..|prefix|] == prefix
  }

  /** `t` occurs in `s` starting at index `i`. */
  predicate OccursAt(s: string, t: string, i: int) {
    0 <= i && i + |t| <= |s| && s[i..i + |t|] == t
  }

  /** `t` occurs somewhere in `s`. */
  predicate ContainsWord(s: string, t: string) {
    exists i :: 0 <= i <= |s| && OccursAt(s, t, i)
  }

  /** `s.indexOf(t, from)`: the first occurrence at or after `from`, or -1. */
  function IndexOfFrom(s: string, t: string, from: nat): (r: int)
    ensures r == -1 || (from <= r && OccursAt(s, t, r))
    ensures forall j :: from <= j && (r == -1 || j < r) ==> !OccursAt(s, t, j)
    decreases |s| - from
  {
    if from + |t| > |s| then -1
    else if s[from..from + |t|] == t then from
    else IndexOfFrom(s, t, from + 1)
  }

  /** `s.indexOf(t)`. */
  function IndexOf(s: string, t: string): (r: int)
    ensures r == -1 || OccursAt(s, t, r)
    ensures forall j :: 0 <= j && (r == -1 || j < r) ==> !OccursAt(s, t, j)
  {
    IndexOfFrom(s, t, 0)
  }

  /** `s.indexOf(t) >= 0` holds exactly when `t` occurs somewhere in `s`. */
  lemma IndexOfFinds(s: string, t: string)
    ensures IndexOf(s, t) >= 0 <==> ContainsWord(s, t)
  {
    var r := IndexOf(s, t);
    if r < 0 {
      forall i ensures !OccursAt(s, t, i) {
        if 0 <= i { assert !OccursAt(s, t, i); }
      }
    }
  }

  /**
   * `toLowerCase` on one character, for the characters whose lower-case
   * form contains an ASCII letter: A-Z, the Kelvin sign (to `k`) and the
   * capital I with dot above (to `i` followed by a combining dot). Every
   * other character is kept; its real lower-case form holds no ASCII
   * letter, so keeping it changes no search for an ASCII word.
   */
  function LowerChar(c: char): (r: string)
    ensures |r| >= 1
  {
    if 'A' <= c <= 'Z' then [(c as int + 32) as char]
    else if c == '\U{212A}' then "k"
    else if c == '\U{0130}' then "i\U{0307}"
    else [c]
  }

  /** `s.toLowerCase()`, up to the characters LowerChar keeps. */
  function ToLower(s: string): (r: string)
    ensures |r| >= |s|
    ensures forall i :: 0 <= i < |r| ==> !('A' <= r[i] <= 'Z')
  {
    if s == [] then [] else LowerChar(s[0]) + ToLower(s[1..])
  }

  /** On ASCII letters and digits, `toLowerCase` maps character by character. */
  lemma ToLowerAscii(s: string)
    requires forall i :: 0 <= i < |s| ==> s[i] < '\U{0080}'
    ensures |ToLower(s)| == |s|
    ensures forall i :: 0 <= i < |s| ==>
      ToLower(s)[i] == if 'A' <= s[i] <= 'Z' then (s[i] as int + 32) as char else s[i]
  {
    if s != [] {
      ToLowerAscii(s[1..]);
    }
  }
}
