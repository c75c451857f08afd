/** `validateEmail(email)` on the checkout page: the test of the regular
    expression `^[a-zA-Z0-9._%+-]+@[a-zA-Z0-9.-]+\.[a-zA-Z]{2,}$`, written
    out as a recogniser and proved equal to the pattern's meaning. */
module Email {
  import opened Text

  predicate IsLocalChar(c: char)
  {
    IsAsciiLetter(c) || IsDigit(c) || c == '.' || c == '_' || c == '%' || c == '+' || c == '-'
  }

  predicate IsDomainChar(c: char)
  {
    IsAsciiLetter(c) || IsDigit(c) || c == '.' || c == '-'
  }

  predicate AllLocal(s: string) { forall i :: 0 <= i < |s| ==> IsLocalChar(s[i]) }

  predicate AllDomain(s: string) { forall i :: 0 <= i < |s| ==> IsDomainChar(s[i]) }

  predicate AllLetters(s: string) { forall i :: 0 <= i < |s| ==> IsAsciiLetter(s[i]) }

  /** The pattern matches `s` with its '@' at `at` and the '.' before the
      top-level label at `dot`: a non-empty local part, a non-empty domain
      and at least two letters to the end. */
  ghost predicate MatchesAt(s: string, at: int, dot: int)
  {
    && 1 <= at && at + 2 <= dot && dot + 3 <= |s|
    && s[at] == '@' && s[dot] == '.'
    && AllLocal(s[..at]) && AllDomain(s[at + 1..dot]) && AllLetters(s[dot + 1..])
  }

  /** The regular expression matches `s` (the anchors make it match all of
      `s`; backtracking may place the '@' and the '.' anywhere). */
  ghost predicate EmailPattern(s: string)
  {
    exists at, dot :: MatchesAt(s, at, dot)
  }

  /** Length of the longest run of ASCII letters at the end of `s`. */
  function TrailingLetters(s: string): (t: nat)
    ensures t <= |s|
    ensures forall i :: |s| - t <= i < |s| ==> IsAsciiLetter(s[i])
    ensures t < |s| ==> !IsAsciiLetter(s[|s| - t - 1])
  {
    if s == [] || !IsAsciiLetter(s[|s| - 1]) then 0
    else
      var t := TrailingLetters(s[..|s| - 1]);
      assert forall i :: |s| - 1 - t <= i < |s| - 1 ==> s[i] == s[..|s| - 1][i];
      t + 1
  }

  /** `validateEmail(email)`: the top-level label is the run of letters at
      the end, the '.' must sit right before it, and the first '@' splits
      what precedes the '.' into local part and domain. */
  function ValidateEmail(s: string): bool
  {
    var t := TrailingLetters(s);
    var dot := |s| - t - 1;
    var at := IndexOf(s, '@');
    && t >= 2 && dot >= 0 && s[dot] == '.'
    && 1 <= at && at + 2 <= dot
    && AllLocal(s[..at]) && AllDomain(s[at + 1..dot])
  }

  /** The recogniser accepts exactly the strings the pattern matches. */
  lemma ValidateEmailIffPattern(s: string)
    ensures ValidateEmail(s) <==> EmailPattern(s)
  {
    var t := TrailingLetters(s);
    var dot := |s| - t - 1;
    var at := IndexOf(s, '@');
    if ValidateEmail(s) {
      assert AllLetters(s[dot + 1..]);
      assert MatchesAt(s, at, dot);
    }
    if EmailPattern(s) {
      var at', dot' :| MatchesAt(s, at', dot');
      PatternPositions(s, at', dot');
    }
  }

  /** Where the pattern matches, its '@' is the first '@' of the string and
      its '.' is the one right before the trailing letters. */
  lemma PatternPositions(s: string, at: int, dot: int)
    requires MatchesAt(s, at, dot)
    ensures at == IndexOf(s, '@')
    ensures dot == |s| - TrailingLetters(s) - 1
  {
    var t := TrailingLetters(s);
    forall i | dot + 1 <= i < |s|
      ensures IsAsciiLetter(s[i])
    {
      assert s[i] == s[dot + 1..][i - dot - 1];
    }
    forall k | 0 <= k < at
      ensures s[k] != '@'
    {
      assert s[k] == s[..at][k];
    }
  }

  /** A valid address holds exactly one '@'. */
  lemma ValidEmailHasOneAt(s: string)
    requires ValidateEmail(s)
    ensures IndexOf(s, '@') < |s|
    ensures forall j :: 0 <= j < |s| && s[j] == '@' ==> j == IndexOf(s, '@')
  {
    ValidateEmailIffPattern(s);
    var at, dot :| MatchesAt(s, at, dot);
    PatternPositions(s, at, dot);
    forall j | 0 <= j < |s| && j != at
      ensures s[j] != '@'
    {
      OnlyAtIsAt(s, at, dot, j);
    }
  }

  /** In a match, no character other than the one at `at` is '@': none of
      the three character classes holds it. */
  lemma OnlyAtIsAt(s: string, at: int, dot: int, j: int)
    requires MatchesAt(s, at, dot) && 0 <= j < |s| && j != at
    ensures s[j] != '@'
  {
    if j < at {
      assert s[j] == s[..at][j];
    } else if j < dot {
      assert s[j] == s[at + 1..dot][j - at - 1];
    } else if dot < j {
      assert s[j] == s[dot + 1..][j - dot - 1];
    }
  }

  /** Sample addresses: a one-letter top-level label, an empty domain and
      the empty string are rejected; the shortest well-formed address is
      accepted. */
  lemma EmailExamples()
    ensures !ValidateEmail("")
    ensures !ValidateEmail("a@b.c")
    ensures !ValidateEmail("a@.co")
    ensures ValidateEmail("a@b.co")
  {
    assert TrailingLetters("a@b.c") == 1 by {
      assert TrailingLetters("a@b.") == 0;
    }
    assert TrailingLetters("a@.co") == 2 by {
      assert TrailingLetters("a@.c") == 1 by { assert TrailingLetters("a@.") == 0; }
    }
    assert TrailingLetters("a@b.co") == 2 by {
      assert TrailingLetters("a@b.c") == 1 by { assert TrailingLetters("a@b.") == 0; }
    }
    assert IndexOf("a@.co", '@') == 1;
    assert IndexOf("a@b.co", '@') == 1;
    assert "a@b.co"[2..3] == "b";
  }
}
