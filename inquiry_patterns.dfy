/**
 * The two patterns an inquiry's contact details must match, written out as
 * character classes. The client form and the server action use the same
 * two expressions: `^[^\s@]+@[^\s@]+\.[^\s@]{2,}$` for the e-mail and
 * `^\d+$` for the phone. Neither carries the `u` flag, so the regular
 * expression engine walks UTF-16 code units: a character outside the Basic
 * Multilingual Plane is two units, each matching `[^\s@]`.
 */
module InquiryPatterns {
  import opened JsString

  /** The class `[^\s@]`. */
  predicate IsAddressChar(c: char) {
    !IsSpace(c) && c != '@'
  }

  predicate AddressCharsIn(s: string, lo: int, hi: int)
    requires 0 <= lo <= hi <= |s|
  {
    forall k :: lo <= k < hi ==> IsAddressChar(s[k])
  }

  /**
   * The e-mail pattern matches with the `@` at `at` and the escaped `\.` at
   * `dot`: a non-empty local part, a non-empty part up to the dot, and at
   * least two UTF-16 code units after it, none of them whitespace or `@`.
   */
  predicate EmailMatchAt(s: string, at: int, dot: int) {
    && 1 <= at && at + 2 <= dot && dot < |s|
    && s[at] == '@' && s[dot] == '.'
    && AddressCharsIn(s, 0, at) && AddressCharsIn(s, at + 1, dot) && AddressCharsIn(s, dot + 1, |s|)
    && Utf16Length(s[dot + 1..]) >= 2
  }

  /** The regular expression's meaning: some way of matching the whole text. */
  ghost predicate EmailPattern(s: string) {
    exists at, dot :: EmailMatchAt(s, at, dot)
  }

  /** The first position of `c`, or -1. */
  function IndexOf(s: string, c: char): (k: int)
    ensures -1 <= k < |s|
    ensures k == -1 <==> c !in s
    ensures k >= 0 ==> s[k] == c && forall i :: 0 <= i < k ==> s[i] != c
  {
    if s == [] then -1
    else if s[0] == c then 0
    else
      var k := IndexOf(s[1..], c);
      if k == -1 then -1 else k + 1
  }

  /**
   * A left-to-right test of the e-mail pattern: no whitespace, one `@` that
   * is not first, and a dot at least two characters after it that leaves at
   * least two code units after it (the first such dot leaves the most).
   */
  function IsEmail(s: string): bool {
    var at := IndexOf(s, '@');
    && at >= 1
    && '@' !in s[at + 1..]
    && (forall k :: 0 <= k < |s| ==> !IsSpace(s[k]))
    && at + 2 <= |s|
    && var d := IndexOf(s[at + 2..], '.');
       d >= 0 && Utf16Length(s[at + 3 + d..]) >= 2
  }

  /** The test accepts exactly the texts the pattern matches. */
  lemma IsEmailMatchesPattern(s: string)
    ensures IsEmail(s) <==> EmailPattern(s)
  {
    if IsEmail(s) {
      AcceptedMatches(s);
    }
    if EmailPattern(s) {
      var a, dot :| EmailMatchAt(s, a, dot);
      MatchIsAccepted(s, a, dot);
    }
  }

  /** An accepted text matches with its first `@` and the first dot after the domain's first character. */
  lemma AcceptedMatches(s: string)
    requires IsEmail(s)
    ensures EmailPattern(s)
  {
    var at := IndexOf(s, '@');
    var tail := s[at + 2..];
    var d := IndexOf(tail, '.');
    var dot := at + 2 + d;
    assert s[dot] == tail[d];
    forall k | at < k < |s|
      ensures s[k] != '@'
    {
      assert s[k] == s[at + 1..][k - at - 1];
    }
    assert EmailMatchAt(s, at, dot);
  }

  /** Any match is accepted: its `@` is the first, and an earlier dot leaves at least as many code units. */
  lemma MatchIsAccepted(s: string, a: int, dot: int)
    requires EmailMatchAt(s, a, dot)
    ensures IsEmail(s)
  {
    var at := IndexOf(s, '@');
    assert '@' !in s[..a] by {
      forall k | 0 <= k < a ensures s[..a][k] != '@' {
        assert s[..a][k] == s[k];
      }
    }
    assert at == a;
    var rest := s[at + 1..];
    forall k | 0 <= k < |rest| ensures rest[k] != '@' {
      assert rest[k] == s[at + 1 + k];
    }
    forall k | 0 <= k < |s| ensures !IsSpace(s[k]) {
      if k != at && k != dot {
        assert IsAddressChar(s[k]);
      }
    }
    var tail := s[at + 2..];
    assert tail[dot - at - 2] == '.';
    var d := IndexOf(tail, '.');
    Utf16LengthOfSuffixes(s, at + 3 + d, dot + 1);
  }

  /** The phone pattern `^\d+$`: at least one digit and nothing else. */
  predicate IsPhone(s: string) {
    |s| >= 1 && AllDigits(s)
  }

  /** A matching e-mail has exactly one `@`, and neither end is `@`. */
  lemma EmailHasOneAt(s: string)
    requires IsEmail(s)
    ensures s[0] != '@' && s[|s| - 1] != '@'
    ensures forall i, j :: 0 <= i < j < |s| && s[i] == '@' ==> s[j] != '@'
  {
    IsEmailMatchesPattern(s);
    var a, dot :| EmailMatchAt(s, a, dot);
    forall i, j | 0 <= i < j < |s| && s[i] == '@' ensures s[j] != '@' {
      assert i == a;
    }
  }

  /** Texts the patterns accept carry no surrounding whitespace, so trimming them changes nothing. */
  lemma AcceptedAreTrimmed(s: string)
    ensures IsEmail(s) ==> IsTrimmed(s)
    ensures IsPhone(s) ==> IsTrimmed(s)
  {
  }

  /** A two-letter top-level part is the shortest allowed. */
  lemma ShortestAccepted()
    ensures IsEmail("a@b.bg")
  {
    var s := "a@b.bg";
    assert s[0] == 'a' && s[1] == '@' && s[2] == 'b' && s[3] == '.' && s[4] == 'b' && s[5] == 'g';
    assert AddressCharsIn(s, 0, 1) && AddressCharsIn(s, 2, 3) && AddressCharsIn(s, 4, 6);
    MatchIsAccepted(s, 1, 3);
  }

  /** A one-letter top-level part, an empty domain and an empty local part are rejected. */
  lemma MissingPartsRejected()
    ensures !IsEmail("a@b.c")
    ensures !IsEmail("a@.bg")
    ensures !IsEmail("@b.bg")
  {
  }

  /** Whitespace and a second `@` are rejected. */
  lemma ForbiddenCharsRejected()
    ensures !IsEmail("a b@c.bg")
    ensures !IsEmail("a@b@c.bg")
  {
    var spaced := "a b@c.bg";
    assert IsSpace(spaced[1]);
    var twice := "a@b@c.bg";
    assert IndexOf(twice, '@') == 1;
    assert twice[2..][1] == '@';
  }

  /**
   * Without the `u` flag the top-level part is counted in code units: one
   * emoji (two units) is enough, where one letter is not.
   */
  lemma AstralTopLevelAccepted()
    ensures IsEmail("a@b.\U{1F600}")
  {
    var s := "a@b.\U{1F600}";
    assert s[0] == 'a' && s[1] == '@' && s[2] == 'b' && s[3] == '.' && s[4] == '\U{1F600}';
    assert AddressCharsIn(s, 0, 1) && AddressCharsIn(s, 2, 3) && AddressCharsIn(s, 4, 5);
    assert Utf16Length(s[4..]) == 2;
    MatchIsAccepted(s, 1, 3);
  }
}
