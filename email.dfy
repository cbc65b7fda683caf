/**
 * The e-mail validator that src/app/register/page.tsx:8-10,
 * src/app/login/page.tsx:8-10, src/app/forgot-password/page.tsx:7-9 and
 * src/app/api/auth/resend-confirmation/route.ts:4-6 each declare with the
 * same regular expression
 *   /^(?=.{5,255}$)[A-Za-z0-9._%+-]+@[A-Za-z0-9.-]+\.[A-Za-z]{2,}$/
 * and the company-domain test of registration and resend.  The expression
 * is a restricted ASCII form, not the addr-spec of RFC 5322.
 */
module Email {
  import opened Text

  /** `[A-Za-z0-9._%+-]`. */
  predicate LocalChar(c: char)
  {
    IsAsciiAlnum(c) || c == '.' || c == '_' || c == '%' || c == '+' || c == '-'
  }

  /** `[A-Za-z0-9.-]`. */
  predicate DomainChar(c: char)
  {
    IsAsciiAlnum(c) || c == '.' || c == '-'
  }

  predicate AllLocal(s: string) { forall k :: 0 <= k < |s| ==> LocalChar(s[k]) }
  predicate AllDomain(s: string) { forall k :: 0 <= k < |s| ==> DomainChar(s[k]) }
  predicate AllLetters(s: string) { forall k :: 0 <= k < |s| ==> IsAsciiLetter(s[k]) }

  /**
   * The address has the form local@domain.tld, split at `@` position `i`
   * and at the dot `j` positions after it: a non-empty local part, a
   * non-empty domain, and a top-level domain of two or more letters.
   */
  predicate SplitsAt(s: string, i: nat, j: nat)
  {
    && 0 < i < |s| && s[i] == '@' && AllLocal(s[..i])
    && 0 < j && i + 1 + j < |s| && s[i + 1 + j] == '.'
    && AllDomain(s[i + 1..i + 1 + j])
    && |s| - (i + 1 + j + 1) >= 2 && AllLetters(s[i + 1 + j + 1..])
  }

  /** What the regular expression denotes: the length window and some such split. */
  ghost predicate MatchesEmailRegex(s: string)
  {
    5 <= |s| <= 255 && exists i: nat, j: nat :: SplitsAt(s, i, j)
  }

  /** The position of the last `c` in `s`, if any. */
  function LastIndexOfChar(s: string, c: char): (r: Option<nat>)
    ensures r.Some? ==> r.value < |s| && s[r.value] == c && c !in s[r.value + 1..]
    ensures r.None? ==> c !in s
  {
    if s == [] then None
    else if s[|s| - 1] == c then Some(|s| - 1)
    else
      var r := LastIndexOfChar(s[..|s| - 1], c);
      assert s == s[..|s| - 1] + [s[|s| - 1]];
      r
  }

  /**
   * `isValidEmail`, decided directly: the local part ends at the only `@`,
   * everything after it is domain characters, and after its last dot come
   * at least two letters.
   */
  function IsValidEmail(s: string): bool
  {
    if !(5 <= |s| <= 255) || '@' !in s then false
    else
      var i := FirstIndexOfChar(s, '@');
      var rest := s[i + 1..];
      var dot := LastIndexOfChar(rest, '.');
      && 0 < i && AllLocal(s[..i]) && AllDomain(rest)
      && dot.Some? && 0 < dot.value && |rest| - (dot.value + 1) >= 2 && AllLetters(rest[dot.value + 1..])
  }

  /** A run of letters holds no dot. */
  lemma LettersNoDot(t: string)
    requires AllLetters(t)
    ensures '.' !in t
  {
  }

  /** What the decision procedure accepts, the regular expression matches. */
  lemma ValidMatchesRegex(s: string)
    requires IsValidEmail(s)
    ensures MatchesEmailRegex(s)
  {
    var i := FirstIndexOfChar(s, '@');
    var rest := s[i + 1..];
    var j := LastIndexOfChar(rest, '.').value;
    assert s[i + 1..i + 1 + j] == rest[..j];
    assert s[i + 1 + j + 1..] == rest[j + 1..];
    assert SplitsAt(s, i, j);
  }

  /** A split as the regular expression sees it is the one the decision procedure finds. */
  lemma SplitIsFound(s: string, i: nat, j: nat)
    requires 5 <= |s| <= 255 && SplitsAt(s, i, j)
    ensures IsValidEmail(s)
  {
    assert '@' !in s[..i] by {
      assert forall k :: 0 <= k < i ==> LocalChar(s[..i][k]);
    }
    FirstIndexOfCharAt(s, '@', i);
    var rest := s[i + 1..];
    assert rest[..j] == s[i + 1..i + 1 + j];
    assert rest[j + 1..] == s[i + 1 + j + 1..];
    assert AllDomain(rest) by {
      forall k | 0 <= k < |rest| ensures DomainChar(rest[k]) {
        if k < j {
          assert rest[k] == rest[..j][k];
        } else if k > j {
          assert rest[k] == rest[j + 1..][k - j - 1];
        }
      }
    }
    LettersNoDot(rest[j + 1..]);
    LastDotAt(rest, j);
  }

  /** The decision procedure accepts exactly what the regular expression matches. */
  lemma IsValidEmailIff(s: string)
    ensures IsValidEmail(s) <==> MatchesEmailRegex(s)
  {
    if IsValidEmail(s) {
      ValidMatchesRegex(s);
    }
    if MatchesEmailRegex(s) {
      var i: nat, j: nat :| SplitsAt(s, i, j);
      SplitIsFound(s, i, j);
    }
  }

  /** A dot with no dot after it is the last one. */
  lemma {:induction false} LastDotAt(s: string, j: nat)
    requires j < |s| && s[j] == '.' && '.' !in s[j + 1..]
    ensures LastIndexOfChar(s, '.') == Some(j)
    decreases |s|
  {
    if j < |s| - 1 {
      assert s[|s| - 1] in s[j + 1..];
      var p := s[..|s| - 1];
      assert s[j + 1..] == p[j + 1..] + [s[|s| - 1]];
      LastDotAt(p, j);
    }
  }

  /** Every accepted address holds exactly one `@`. */
  lemma OneAt(s: string)
    requires IsValidEmail(s)
    ensures exists i :: 0 <= i < |s| && s[i] == '@' && forall k :: 0 <= k < |s| && s[k] == '@' ==> k == i
  {
    var i := FirstIndexOfChar(s, '@');
    var rest := s[i + 1..];
    assert AllDomain(rest) && AllLocal(s[..i]);
    forall k | 0 <= k < |s| && k != i
      ensures s[k] != '@'
    {
      if k < i {
        assert s[..i][k] == s[k];
        assert LocalChar(s[k]);
      } else {
        assert rest[k - i - 1] == s[k];
        assert DomainChar(s[k]);
      }
    }
  }

  /** An address of the company domain is accepted. */
  lemma AcceptsCompanyAddress()
    ensures IsValidEmail("ana@digix.co")
  {
    var s := "ana@digix.co";
    assert SplitsAt(s, 3, 5) by {
      assert s[..3] == "ana";
      assert s[4..9] == "digix";
      assert s[10..] == "co";
    }
    SplitIsFound(s, 3, 5);
  }

  /** A one-letter top-level domain is refused. */
  lemma RefusesShortTld()
    ensures !IsValidEmail("ab@cd.e")
  {
    var s := "ab@cd.e";
    assert FirstIndexOfChar(s, '@') == 2;
    var rest := s[3..];
    assert rest == "cd.e";
    assert LastIndexOfChar(rest, '.') == Some(2);
  }

  /** A second `@` is refused. */
  lemma RefusesTwoAts()
    ensures !IsValidEmail("ana@@digix.co")
  {
    var s := "ana@@digix.co";
    TwoAtsRefused(s, 3, 4);
  }

  /** Any address with two `@` is refused: the later one falls in the domain part. */
  lemma TwoAtsRefused(s: string, a: nat, b: nat)
    requires a < b < |s| && s[a] == '@' && s[b] == '@'
    ensures !IsValidEmail(s)
  {
    assert '@' in s;
    var i := FirstIndexOfChar(s, '@');
    forall k | 0 <= k < i ensures s[k] != '@' {
      assert s[..i][k] == s[k];
    }
    var rest := s[i + 1..];
    assert rest[b - i - 1] == '@';
    assert !DomainChar(rest[b - i - 1]);
  }

  /** `isAllowedDomain`: the lower-cased address ends with '@digix.co'. */
  predicate IsAllowedDomain(email: string)
  {
    EndsWith(Lower(email), "@digix.co")
  }

  /** The domain test ignores the case of its input. */
  lemma AllowedDomainIgnoresCase(email: string)
    ensures IsAllowedDomain(Lower(email)) == IsAllowedDomain(email)
  {
    LowerIdempotent(email);
  }
}
