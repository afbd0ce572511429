/**
 * Whitespace and trimming, as the page's validators use them.
 *
 * Both the regular-expression class `\S` and `String.prototype.trim` work on
 * one character set: the ECMAScript WhiteSpace and LineTerminator productions
 * (sections 12.2 and 12.3 of ECMA-262). `IsWs` is that set, and `Trim` is
 * `trim()` over it. Lengths are counted in UTF-16 code units, as
 * JavaScript's `length` counts them (`Utf16Length`).
 */
module Text {

  /** WhiteSpace (TAB, VT, FF, SP, NBSP, ZWNBSP and the Zs category) or LineTerminator (LF, CR, LS, PS). */
  predicate IsWs(c: char) {
    || c == '\t' || c == '\U{000B}' || c == '\U{000C}' || c == ' '
    || c == '\U{00A0}' || c == '\U{FEFF}'
    || c == '\U{1680}' || ('\U{2000}' <= c <= '\U{200A}')
    || c == '\U{202F}' || c == '\U{205F}' || c == '\U{3000}'
    || c == '\n' || c == '\r' || c == '\U{2028}' || c == '\U{2029}'
  }

  /** A character outside the Basic Multilingual Plane, which JavaScript stores as a surrogate pair. */
  predicate IsAstral(c: char) {
    c > '\U{FFFF}'
  }

  /** `s.length` in JavaScript: the number of UTF-16 code units, two for each astral character. */
  function Utf16Length(s: string): (n: nat)
    ensures |s| <= n <= 2 * |s|
    ensures |s| == 1 ==> (n == 2 <==> IsAstral(s[0]))
  {
    if s == [] then 0 else (if IsAstral(s[0]) then 2 else 1) + Utf16Length(s[1..])
  }

  /** Every character of `s` is matched by `\S`. */
  predicate NoWs(s: string) {
    forall k | 0 <= k < |s| :: !IsWs(s[k])
  }

  /** `s` with its leading whitespace removed (see `TrimStartSpec`). */
  function TrimStart(s: string): (r: string)
    ensures |r| <= |s|
  {
    if s != [] && IsWs(s[0]) then TrimStart(s[1..]) else s
  }

  /** `s` with its trailing whitespace removed (see `TrimEndSpec`). */
  function TrimEnd(s: string): (r: string)
    ensures |r| <= |s|
  {
    if s != [] && IsWs(s[|s| - 1]) then TrimEnd(s[..|s| - 1]) else s
  }

  /** `s.trim()` (see `TrimSpec`). */
  function Trim(s: string): (r: string)
    ensures |r| <= |s|
  {
    TrimEnd(TrimStart(s))
  }

  /** `TrimStart` drops exactly the longest all-whitespace prefix. */
  lemma {:induction false} TrimStartSpec(s: string)
    ensures TrimStart(s) == s[|s| - |TrimStart(s)|..]
    ensures forall k | 0 <= k < |s| - |TrimStart(s)| :: IsWs(s[k])
    ensures TrimStart(s) == [] || !IsWs(TrimStart(s)[0])
  {
    if s != [] && IsWs(s[0]) {
      TrimStartSpec(s[1..]);
      assert forall k | 1 <= k < |s| :: s[k] == s[1..][k - 1];
    }
  }

  /** `TrimEnd` drops exactly the longest all-whitespace suffix. */
  lemma {:induction false} TrimEndSpec(s: string)
    ensures TrimEnd(s) == s[..|TrimEnd(s)|]
    ensures forall k | |TrimEnd(s)| <= k < |s| :: IsWs(s[k])
    ensures TrimEnd(s) == [] || !IsWs(TrimEnd(s)[|TrimEnd(s)| - 1])
  {
    if s != [] && IsWs(s[|s| - 1]) {
      TrimEndSpec(s[..|s| - 1]);
    }
  }

  /** `r` is the slice of `s` at offset `i`, and only whitespace surrounds it. */
  ghost predicate SliceWithWsAround(s: string, r: string, i: int) {
    && 0 <= i <= |s| - |r|
    && r == s[i..i + |r|]
    && (forall k | 0 <= k < i :: IsWs(s[k]))
    && (forall k | i + |r| <= k < |s| :: IsWs(s[k]))
  }

  /**
   * `s.trim()` is a slice of `s` with only whitespace before and after it,
   * and is empty or starts and ends with a non-whitespace character.
   */
  lemma TrimSpec(s: string)
    ensures exists i :: SliceWithWsAround(s, Trim(s), i)
    ensures Trim(s) == [] || (!IsWs(Trim(s)[0]) && !IsWs(Trim(s)[|Trim(s)| - 1]))
  {
    var t := TrimStart(s);
    var r := TrimEnd(t);
    assert r == Trim(s);
    TrimStartSpec(s);
    TrimEndSpec(t);
    var i := |s| - |t|;
    assert r == s[i..i + |r|];
    assert forall k | i + |r| <= k < |s| :: s[k] == t[k - i];
    assert SliceWithWsAround(s, r, i);
    if r != [] {
      assert r[0] == t[0];
    }
  }

  /** Trimming is idempotent. */
  lemma TrimIdempotent(s: string)
    ensures Trim(Trim(s)) == Trim(s)
  {
    var r := Trim(s);
    TrimSpec(s);
    if r != [] {
      assert TrimStart(r) == r;
      assert TrimEnd(r) == r;
    }
  }

  /** The trimmed string is empty exactly when `s` is all whitespace. */
  lemma TrimEmptyIff(s: string)
    ensures Trim(s) == [] <==> forall k | 0 <= k < |s| :: IsWs(s[k])
  {
    TrimSpec(s);
    var i :| SliceWithWsAround(s, Trim(s), i);
    if Trim(s) != [] {
      assert s[i] == Trim(s)[0];
    }
  }
}
