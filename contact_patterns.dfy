/**
  The two hand-written patterns of the contact form, as predicates on the text they are tested on:
  the email pattern `^[^\s@]+@[^\s@]+\.[^\s@]+$` (used by the Express route and by the browser
  form) and the phone pattern `^[\+]?[0-9\s\-\(\)]{8,}$` (used by the Express route only, after
  all whitespace is removed). The email pattern is a simplified `local@domain.tld` check and not
  an address grammar.
 */
module ContactPatterns {
  import opened JsText

  /** A character of the class `[^\s@]`. */
  predicate EmailAtomChar(c: char)
  {
    !IsWhitespace(c) && c != '@'
  }

  /** Every character of `s` is in `[^\s@]`. */
  predicate EmailAtoms(s: string)
  {
    forall i :: 0 <= i < |s| ==> EmailAtomChar(s[i])
  }

  /** The email pattern matches `s`: `s` splits as a non-empty run of `[^\s@]`, an `@`, a non-empty
      run, a `.` and a non-empty run (the middle run may itself hold dots). */
  predicate MatchesEmailPattern(s: string)
  {
    exists a, b | 0 < a < |s| && a + 1 < b < |s| - 1 ::
      && s[a] == '@' && s[b] == '.'
      && EmailAtoms(s[..a]) && EmailAtoms(s[a + 1..b]) && EmailAtoms(s[b + 1..])
  }

  /** `@` occurs in `s` at index `a` and nowhere else. */
  predicate OnlyAtSignAt(s: string, a: int)
  {
    0 <= a < |s| && s[a] == '@' && forall k :: 0 <= k < |s| && k != a ==> s[k] != '@'
  }

  /** A dot in `s` strictly inside the domain that starts after index `a`: neither the domain's
      first nor its last character. */
  predicate InnerDomainDot(s: string, a: int)
  {
    exists k :: 0 <= a + 1 < k < |s| - 1 && s[k] == '.'
  }

  /** What the email pattern accepts, in plain terms: no whitespace, exactly one `@`, a non-empty
      local part, and a dot in the domain that is neither its first nor its last character. */
  lemma EmailPatternCharacterization(s: string)
    ensures MatchesEmailPattern(s) <==>
      && NoWhitespace(s)
      && exists a :: 0 < a < |s| && OnlyAtSignAt(s, a) && InnerDomainDot(s, a)
  {
    if MatchesEmailPattern(s) {
      var a, b :| 0 < a < |s| && a + 1 < b < |s| - 1
        && s[a] == '@' && s[b] == '.'
        && EmailAtoms(s[..a]) && EmailAtoms(s[a + 1..b]) && EmailAtoms(s[b + 1..]);
      EmailMatchShape(s, a, b);
    }
    if NoWhitespace(s) && exists a :: 0 < a < |s| && OnlyAtSignAt(s, a) && InnerDomainDot(s, a) {
      var a :| 0 < a < |s| && OnlyAtSignAt(s, a) && InnerDomainDot(s, a);
      var b :| a + 1 < b < |s| - 1 && s[b] == '.';
      EmailShapeMatches(s, a, b);
    }
  }

  /** The split of a match has no whitespace, its `@` is the only one, and its dot is inner. */
  lemma EmailMatchShape(s: string, a: int, b: int)
    requires 0 < a < |s| && a + 1 < b < |s| - 1 && s[a] == '@' && s[b] == '.'
    requires EmailAtoms(s[..a]) && EmailAtoms(s[a + 1..b]) && EmailAtoms(s[b + 1..])
    ensures NoWhitespace(s) && OnlyAtSignAt(s, a) && InnerDomainDot(s, a)
  {
    forall k | 0 <= k < |s| && k != a && k != b
      ensures EmailAtomChar(s[k])
    {
      if k < a {
        assert s[k] == s[..a][k];
      } else if k < b {
        assert s[k] == s[a + 1..b][k - a - 1];
      } else {
        assert s[k] == s[b + 1..][k - b - 1];
      }
    }
  }

  /** Whitespace-free text with a single `@` and an inner domain dot splits as a match. */
  lemma EmailShapeMatches(s: string, a: int, b: int)
    requires NoWhitespace(s) && 0 < a < |s| && OnlyAtSignAt(s, a)
    requires a + 1 < b < |s| - 1 && s[b] == '.'
    ensures MatchesEmailPattern(s)
  {
    assert EmailAtoms(s[..a]);
    assert EmailAtoms(s[a + 1..b]);
    assert EmailAtoms(s[b + 1..]);
  }

  /** An address without an `@`, or without a dot after it, never matches. */
  lemma EmailNeedsAtAndDot(s: string)
    requires MatchesEmailPattern(s)
    ensures Contains(s, "@")
    ensures exists a, b :: 0 <= a < b < |s| && s[a] == '@' && s[b] == '.'
  {
    var a, b :| 0 < a < |s| && a + 1 < b < |s| - 1 && s[a] == '@' && s[b] == '.'
      && EmailAtoms(s[..a]) && EmailAtoms(s[a + 1..b]) && EmailAtoms(s[b + 1..]);
    ContainsCharIff(s, '@');
  }

  /** A matching address is never blank, and it is its own trimmed form. */
  lemma EmailMatchNotBlank(s: string)
    requires MatchesEmailPattern(s)
    ensures !IsBlank(s)
    ensures Trim(s) == s
  {
    EmailPatternCharacterization(s);
    BlankIffAllWhitespace(s);
    assert !IsWhitespace(s[0]);
    TrimInfix(s);
    var i, j :| 0 <= i <= j <= |s| && Trim(s) == s[i..j]
      && AllWhitespace(s[..i]) && AllWhitespace(s[j..]);
  }

  /** A character of the class `[0-9\s\-\(\)]`. */
  predicate PhoneClassChar(c: char)
  {
    '0' <= c <= '9' || IsWhitespace(c) || c == '-' || c == '(' || c == ')'
  }

  /** `[0-9\s\-\(\)]{8,}` matches all of `s`. */
  predicate PhoneRun(s: string)
  {
    |s| >= 8 && forall i :: 0 <= i < |s| ==> PhoneClassChar(s[i])
  }

  /** The phone pattern matches `s`: an optional `+` followed by a run of at least eight class
      characters. */
  predicate MatchesPhonePattern(s: string)
  {
    PhoneRun(s) || (|s| > 0 && s[0] == '+' && PhoneRun(s[1..]))
  }

  /** A digit, `-`, `(` or `)`. */
  predicate PhoneSymbol(c: char)
  {
    '0' <= c <= '9' || c == '-' || c == '(' || c == ')'
  }

  /** The phone check as the server applies it (whitespace removed first), in plain terms: after an
      optional leading `+`, at least eight characters remain, each a digit, `-`, `(` or `)`. */
  lemma PhoneCheckCharacterization(phone: string)
    ensures var p := RemoveWhitespace(phone);
      var q := if p != [] && p[0] == '+' then p[1..] else p;
      MatchesPhonePattern(p) <==> |q| >= 8 && forall i :: 0 <= i < |q| ==> PhoneSymbol(q[i])
  {
    var p := RemoveWhitespace(phone);
    assert forall i :: 1 <= i < |p| ==> p[1..][i - 1] == p[i];
  }

  /** Fewer than eight characters left once whitespace is removed can never pass. */
  lemma ShortPhoneRejected(phone: string)
    requires |RemoveWhitespace(phone)| < 8
    ensures !MatchesPhonePattern(RemoveWhitespace(phone))
  {
  }

  /** A phone that passes is not blank. */
  lemma PhoneMatchNotBlank(phone: string)
    requires MatchesPhonePattern(RemoveWhitespace(phone))
    ensures !IsBlank(phone)
  {
    var p := RemoveWhitespace(phone);
    BlankIffAllWhitespace(phone);
    if AllWhitespace(phone) {
      AllWhitespaceRemoved(phone);
    }
  }

  lemma {:induction false} AllWhitespaceRemoved(s: string)
    requires AllWhitespace(s)
    ensures RemoveWhitespace(s) == []
  {
    if s != [] {
      AllWhitespaceRemoved(s[1..]);
    }
  }
}
