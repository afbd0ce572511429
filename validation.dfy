/**
 * The checkout form's three validity predicates (`emailValid`, `nameValid`,
 * `formValid`) and the condition under which the inline e-mail error shows.
 */
module Validation {
  import opened Text

  // ---------------------------------------------------------------- e-mail

  /**
   * `w` as a whole is in the language of `\S+@\S+\.\S+`: it splits as
   * x '@' y '.' z with x, y and z non-empty and free of whitespace.
   */
  predicate InPattern(w: string) {
    exists a, b | 0 < a && a + 1 < b && b + 1 < |w| ::
      && w[a] == '@' && w[b] == '.'
      && NoWs(w[..a]) && NoWs(w[a + 1..b]) && NoWs(w[b + 1..])
  }

  /**
   * `/\S+@\S+\.\S+/.test(email)`. The expression has no anchors, so the test
   * succeeds when some slice of the string is in the pattern's language.
   */
  predicate EmailValid(email: string) {
    exists i, j | 0 <= i <= j <= |email| :: InPattern(email[i..j])
  }

  /**
   * The shortest match: an '@' at `p` with a non-whitespace character just
   * before it, a non-empty whitespace-free run after it ending at a '.' at
   * `q`, and a non-whitespace character just after that '.'.
   */
  ghost predicate ShortestMatchAt(s: string, p: int, q: int) {
    && 1 <= p && p + 1 < q && q + 1 < |s|
    && s[p] == '@' && !IsWs(s[p - 1])
    && (forall k | p < k < q :: !IsWs(s[k]))
    && s[q] == '.' && !IsWs(s[q + 1])
  }

  /** A match of the whole pattern at `s[i..j]`, with its '@' at `a` and its '.' at `b`, yields a shortest match. */
  lemma SplitGivesShortest(s: string, i: int, j: int, a: int, b: int)
    requires 0 <= i <= j <= |s|
    requires 0 < a && a + 1 < b && b + 1 < j - i
    requires s[i + a] == '@' && s[i + b] == '.'
    requires NoWs(s[i..j][..a]) && NoWs(s[i..j][a + 1..b]) && NoWs(s[i..j][b + 1..])
    ensures ShortestMatchAt(s, i + a, i + b)
  {
    var w := s[i..j];
    var p, q := i + a, i + b;
    assert s[p - 1] == w[..a][a - 1];
    assert s[q + 1] == w[b + 1..][0];
    forall k | p < k < q
      ensures !IsWs(s[k])
    {
      assert s[k] == w[a + 1..b][k - p - 1];
    }
  }

  lemma MatchGivesShortest(s: string, i: int, j: int)
    requires 0 <= i <= j <= |s| && InPattern(s[i..j])
    ensures exists p, q :: ShortestMatchAt(s, p, q)
  {
    var w := s[i..j];
    var a, b :| 0 < a && a + 1 < b && b + 1 < |w|
      && w[a] == '@' && w[b] == '.'
      && NoWs(w[..a]) && NoWs(w[a + 1..b]) && NoWs(w[b + 1..]);
    SplitGivesShortest(s, i, j, a, b);
  }

  lemma ShortestGivesMatch(s: string, p: int, q: int)
    requires ShortestMatchAt(s, p, q)
    ensures EmailValid(s)
  {
    var i, j := p - 1, q + 2;
    var w := s[i..j];
    var a, b := 1, q - p + 1;
    assert w[..a] == [s[p - 1]];
    assert w[b + 1..] == [s[q + 1]];
    var domain := w[a + 1..b];
    forall k | 0 <= k < |domain|
      ensures !IsWs(domain[k])
    {
      assert domain[k] == s[p + 1 + k];
    }
    assert w[a] == '@' && w[b] == '.';
    assert InPattern(w);
  }

  /**
   * The regular-expression test holds exactly when the string contains an
   * '@' preceded by a non-whitespace character and followed by a non-empty
   * whitespace-free run, a '.', and one more non-whitespace character.
   * Whitespace anywhere else is irrelevant.
   */
  lemma EmailValidIff(s: string)
    ensures EmailValid(s) <==> exists p, q :: ShortestMatchAt(s, p, q)
  {
    if EmailValid(s) {
      var i, j :| 0 <= i <= j <= |s| && InPattern(s[i..j]);
      MatchGivesShortest(s, i, j);
    }
    if p, q :| ShortestMatchAt(s, p, q) {
      ShortestGivesMatch(s, p, q);
    }
  }

  /** Because the expression is unanchored, text around a valid address keeps it valid. */
  lemma EmailValidUnanchored(before: string, s: string, after: string)
    requires EmailValid(s)
    ensures EmailValid(before + s + after)
  {
    var i, j :| 0 <= i <= j <= |s| && InPattern(s[i..j]);
    var t := before + s + after;
    assert t[|before| + i..|before| + j] == s[i..j];
  }

  /** A valid address has at least five characters, among them an '@' and a '.'. */
  lemma EmailValidShape(s: string)
    requires EmailValid(s)
    ensures |s| >= 5 && '@' in s && '.' in s
  {
    EmailValidIff(s);
    var p, q :| ShortestMatchAt(s, p, q);
    assert s[p] == '@' && s[q] == '.';
  }

  lemma EmailExamples()
    ensures !EmailValid("")
    ensures !EmailValid("a@b")
    ensures !EmailValid("a.com")
    ensures EmailValid("max@example.de")
    ensures EmailValid("x y@b.c")
  {
    EmailValidIff("");
    EmailValidIff("a@b");
    if EmailValid("a.com") {
      EmailValidShape("a.com");
      assert false;
    }
    ShortestGivesMatch("max@example.de", 3, 11);
    ShortestGivesMatch("x y@b.c", 3, 5);
  }

  /** The inline error under the e-mail field (`!emailValid && email.length > 0`). */
  predicate EmailErrorShown(email: string) {
    !EmailValid(email) && |email| > 0
  }

  /** The error never shows on an empty field, and on a non-empty one it shows exactly when no shortest match exists. */
  lemma EmailErrorShownIff(email: string)
    ensures EmailErrorShown(email) <==> |email| > 0 && forall p, q :: !ShortestMatchAt(email, p, q)
  {
    EmailValidIff(email);
  }

  // ---------------------------------------------------------------- name

  /** `name.trim().length > 1`, where `length` counts UTF-16 code units. */
  predicate NameValid(name: string) {
    Utf16Length(Trim(name)) > 1
  }

  /**
   * Non-whitespace text worth two UTF-16 code units: two non-whitespace
   * characters, or a single non-whitespace character outside the Basic
   * Multilingual Plane.
   */
  ghost predicate TwoCodeUnitsOfText(name: string) {
    || (exists i, j | 0 <= i < j < |name| :: !IsWs(name[i]) && !IsWs(name[j]))
    || (exists i | 0 <= i < |name| :: !IsWs(name[i]) && IsAstral(name[i]))
  }

  /**
   * The trimmed name is longer than one code unit exactly when the name holds
   * two non-whitespace characters or one non-whitespace astral character.
   */
  lemma NameValidIff(name: string)
    ensures NameValid(name) <==> TwoCodeUnitsOfText(name)
  {
    var r := Trim(name);
    TrimSpec(name);
    var o :| SliceWithWsAround(name, r, o);
    if NameValid(name) {
      assert r != [];
      assert name[o] == r[0] && name[o + |r| - 1] == r[|r| - 1];
      if |r| == 1 {
        assert IsAstral(name[o]);
      }
    }
    if i, j :| 0 <= i < j < |name| && !IsWs(name[i]) && !IsWs(name[j]) {
      assert o <= i && j < o + |r|;
    }
    if i :| 0 <= i < |name| && !IsWs(name[i]) && IsAstral(name[i]) {
      assert o <= i < o + |r|;
      if |r| == 1 {
        assert r[0] == name[i];
      }
    }
  }

  lemma NameExamplesInvalid()
    ensures !NameValid("") && !NameValid(" ") && !NameValid("a")
  {
    NameValidIff(" ");
    NameValidIff("a");
  }

  lemma NameValidOfPair(name: string, i: int, j: int)
    requires 0 <= i < j < |name| && !IsWs(name[i]) && !IsWs(name[j])
    ensures NameValid(name)
  {
    NameValidIff(name);
  }

  /** One non-whitespace character outside the Basic Multilingual Plane is two code units, so it is a valid name. */
  lemma NameValidOfAstral(name: string, i: int)
    requires 0 <= i < |name| && !IsWs(name[i]) && IsAstral(name[i])
    ensures NameValid(name)
  {
    NameValidIff(name);
  }

  /** Typing more characters before or after a valid name never makes it invalid. */
  lemma NameValidExtends(name: string, before: string, after: string)
    requires NameValid(name)
    ensures NameValid(before + name + after)
  {
    NameValidIff(name);
    var t := before + name + after;
    if i, j :| 0 <= i < j < |name| && !IsWs(name[i]) && !IsWs(name[j]) {
      assert t[|before| + i] == name[i] && t[|before| + j] == name[j];
      NameValidOfPair(t, |before| + i, |before| + j);
    } else {
      var i :| 0 <= i < |name| && !IsWs(name[i]) && IsAstral(name[i]);
      assert t[|before| + i] == name[i];
      NameValidOfAstral(t, |before| + i);
    }
  }

  lemma NameExamplesValid()
    ensures NameValid("Al") && NameValid("Max")
  {
    NameValidOfPair("Al", 0, 1);
    NameValidOfPair("Max", 0, 1);
  }

  /** A lone emoji is one character but two code units, so it passes. */
  lemma NameExampleAstral()
    ensures NameValid("\U{1F600}") && NameValid(" \U{1F600} ")
  {
    NameValidOfAstral("\U{1F600}", 0);
    NameValidOfAstral(" \U{1F600} ", 1);
  }

  lemma NameExampleFull()
    ensures NameValid("Max Mustermann")
  {
    NameExamplesValid();
    NameValidExtends("Max", "", " Mustermann");
    assert "" + "Max" + " Mustermann" == "Max Mustermann";
  }

  // ---------------------------------------------------------------- form

  /** `emailValid && nameValid && consent`. */
  predicate FormValid(name: string, email: string, consent: bool) {
    EmailValid(email) && NameValid(name) && consent
  }

  /**
   * The form is valid exactly when the consent box is ticked, the name holds
   * two code units of non-whitespace text and the e-mail has a shortest match;
   * each of the three alone makes the form invalid when it fails.
   */
  lemma FormValidIff(name: string, email: string, consent: bool)
    ensures FormValid(name, email, consent) <==>
      && consent
      && TwoCodeUnitsOfText(name)
      && (exists p, q :: ShortestMatchAt(email, p, q))
  {
    NameValidIff(name);
    EmailValidIff(email);
  }
}
