/**
 * The `complex_password` validation rule: a string matching
 * `^(?=.*[a-z])(?=.*[A-Z])(?=.*\d)(?=.*[@$!%*?&])[A-Za-z\d@$!%*?&]{8,}$`.
 */
module PasswordRule {
  import opened Foreign

  /** The characters `.` does not match in a JavaScript regular expression. */
  predicate IsLineTerminator(c: char)
  {
    c == '\n' || c == '\r' || c == '\U{2028}' || c == '\U{2029}'
  }

  predicate IsLowerLetter(c: char) { 'a' <= c <= 'z' }

  predicate IsUpperLetter(c: char) { 'A' <= c <= 'Z' }

  predicate IsDigit(c: char) { '0' <= c <= '9' }

  predicate IsSpecial(c: char) { c in "@$!%*?&" }

  /** The body class `[A-Za-z\d@$!%*?&]`. */
  predicate IsAllowed(c: char)
  {
    IsLowerLetter(c) || IsUpperLetter(c) || IsDigit(c) || IsSpecial(c)
  }

  /** `(?=.*[cls])` tried at position 0: a `cls` character reached past non-terminators only. */
  predicate Lookahead(s: string, cls: char -> bool)
  {
    exists i :: 0 <= i < |s| && cls(s[i]) && forall j :: 0 <= j < i ==> !IsLineTerminator(s[j])
  }

  /** The regular expression, read literally: four lookaheads, then eight or more body characters to the end. */
  predicate MatchesPattern(s: string)
  {
    && Lookahead(s, IsLowerLetter)
    && Lookahead(s, IsUpperLetter)
    && Lookahead(s, IsDigit)
    && Lookahead(s, IsSpecial)
    && |s| >= 8
    && forall i :: 0 <= i < |s| ==> IsAllowed(s[i])
  }

  /** The rule as stated in words: length, the four classes, and nothing outside the allowed set. */
  predicate IsComplex(s: string)
  {
    && |s| >= 8
    && (forall i :: 0 <= i < |s| ==> IsAllowed(s[i]))
    && (exists i :: 0 <= i < |s| && IsLowerLetter(s[i]))
    && (exists i :: 0 <= i < |s| && IsUpperLetter(s[i]))
    && (exists i :: 0 <= i < |s| && IsDigit(s[i]))
    && (exists i :: 0 <= i < |s| && IsSpecial(s[i]))
  }

  /** `complex_password`: non-strings are rejected, strings must match the pattern. */
  function ComplexPassword(v: Value): (b: bool)
    ensures b <==> v.Str? && IsComplex(v.s)
  {
    if v.Str? then PatternIsComplexity(v.s); MatchesPattern(v.s) else false
  }

  lemma LookaheadOnAllowed(s: string, cls: char -> bool)
    requires forall i :: 0 <= i < |s| ==> IsAllowed(s[i])
    ensures Lookahead(s, cls) <==> exists i :: 0 <= i < |s| && cls(s[i])
  {
    if i :| 0 <= i < |s| && cls(s[i]) {
      assert forall j :: 0 <= j < i ==> !IsLineTerminator(s[j]) by {
        forall j | 0 <= j < i ensures !IsLineTerminator(s[j]) {
          assert IsAllowed(s[j]);
        }
      }
    }
  }

  /** On its own body the lookaheads reduce to plain existence, so the pattern is the rule in words. */
  lemma PatternIsComplexity(s: string)
    ensures MatchesPattern(s) <==> IsComplex(s)
  {
    if forall i :: 0 <= i < |s| ==> IsAllowed(s[i]) {
      LookaheadOnAllowed(s, IsLowerLetter);
      LookaheadOnAllowed(s, IsUpperLetter);
      LookaheadOnAllowed(s, IsDigit);
      LookaheadOnAllowed(s, IsSpecial);
    }
  }

  lemma AcceptedExample()
    ensures ComplexPassword(Str("Password@123"))
  {
    var s := "Password@123";
    assert s[8] == '@' && "@$!%*?&"[0] == '@';
    assert IsUpperLetter(s[0]) && IsLowerLetter(s[1]) && IsSpecial(s[8]) && IsDigit(s[9]);
    forall i | 0 <= i < |s| ensures IsAllowed(s[i]) {
      if i == 8 {
        assert IsSpecial(s[i]);
      } else {
        assert IsLowerLetter(s[i]) || IsUpperLetter(s[i]) || IsDigit(s[i]);
      }
    }
    assert IsComplex(s);
  }

  lemma RejectedExample()
    ensures !ComplexPassword(Str("password"))
  {
  }

  /** A character outside the allowed set, such as a space, sinks any password. */
  lemma ForeignCharacterRejected(s: string, i: int)
    requires 0 <= i < |s| && !IsAllowed(s[i])
    ensures !ComplexPassword(Str(s))
  {
  }

  lemma SpaceRejected(s: string)
    requires ' ' in s
    ensures !ComplexPassword(Str(s))
  {
    var i :| 0 <= i < |s| && s[i] == ' ';
    ForeignCharacterRejected(s, i);
  }

  lemma NonStringsRejected(b: bool)
    ensures !ComplexPassword(Flag(b)) && !ComplexPassword(Null) && !ComplexPassword(Undefined)
  {
  }
}
