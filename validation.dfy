/**
 * `isValidEmail`: false for the empty string, otherwise whether the whole
 * string matches `^[^\s@]+@[^\s@]+\.[^\s@]+$`: a local part, one `@`, and a
 * domain holding a `.` with at least one character on each side, where none
 * of the characters outside the `@` is whitespace or `@`.
 */
module Validation {
  import opened JsText

  /** The character class `[^\s@]`. */
  predicate Plain(c: char) {
    !IsSpace(c) && c != '@'
  }

  predicate AllPlain(s: string) {
    forall k :: 0 <= k < |s| ==> Plain(s[k])
  }

  /** The least index at or after `k` holding '@', or |s|. */
  function FirstAt(s: string, k: nat): (i: nat)
    requires k <= |s|
    ensures k <= i <= |s|
    ensures forall m :: k <= m < i ==> s[m] != '@'
    ensures i < |s| ==> s[i] == '@'
    decreases |s| - k
  {
    if k == |s| || s[k] == '@' then k else FirstAt(s, k + 1)
  }

  /** `[^\s@]+\.[^\s@]+` on the whole domain: no whitespace or '@', and a '.' that is neither first nor last. */
  predicate DomainMatches(d: string) {
    |d| >= 3 && AllPlain(d) && '.' in d[1..|d| - 1]
  }

  /** `isValidEmail` on a string argument. */
  predicate IsValidEmail(email: string) {
    if email == "" then false
    else
      var p := FirstAt(email, 0);
      0 < p < |email| && AllPlain(email[..p]) && DomainMatches(email[p + 1..])
  }

  /**
   * The regular expression read directly: positions `p` of the '@' and `q` of
   * a '.', with a non-empty local part, a non-empty text between them and a
   * non-empty text after the '.', every other character in `[^\s@]`.
   */
  ghost predicate MatchesPattern(s: string) {
    exists p: nat, q: nat ::
      0 < p && p + 1 < q < |s| - 1 && s[p] == '@' && s[q] == '.'
      && forall k :: 0 <= k < |s| && k != p ==> Plain(s[k])
  }

  /** The check accepts exactly the strings the regular expression matches; the empty-string guard rejects nothing more. */
  lemma IsValidEmailMatchesPattern(s: string)
    ensures IsValidEmail(s) <==> MatchesPattern(s)
  {
    if IsValidEmail(s) {
      AcceptedMatches(s);
    }
    if MatchesPattern(s) {
      var p: nat, q: nat :| 0 < p && p + 1 < q < |s| - 1 && s[p] == '@' && s[q] == '.'
        && forall k :: 0 <= k < |s| && k != p ==> Plain(s[k]);
      MatchAccepted(s, p, q);
    }
  }

  lemma AcceptedMatches(s: string)
    requires IsValidEmail(s)
    ensures MatchesPattern(s)
  {
    var p := FirstAt(s, 0);
    var d := s[p + 1..];
    var j :| 0 <= j < |d[1..|d| - 1]| && d[1..|d| - 1][j] == '.';
    var q := p + 2 + j;
    assert s[q] == '.';
    forall k | 0 <= k < |s| && k != p ensures Plain(s[k]) {
      if k < p {
        assert s[k] == s[..p][k];
      } else {
        assert s[k] == d[k - p - 1];
      }
    }
  }

  lemma MatchAccepted(s: string, p: nat, q: nat)
    requires 0 < p && p + 1 < q < |s| - 1 && s[p] == '@' && s[q] == '.'
    requires forall k :: 0 <= k < |s| && k != p ==> Plain(s[k])
    ensures IsValidEmail(s)
  {
    var f := FirstAt(s, 0);
    assert f <= p < |s|;
    assert s[f] == '@';
    assert !Plain(s[f]);
    assert f == p;
    var d := s[p + 1..];
    assert d[1..|d| - 1][q - p - 2] == '.';
    assert forall k :: 0 <= k < |d| ==> d[k] == s[p + 1 + k];
  }

  /** Any plain name, '@', plain host, '.', plain top-level part is accepted. */
  lemma AcceptsParts(name: string, host: string, tld: string)
    requires |name| > 0 && |host| > 0 && |tld| > 0
    requires AllPlain(name) && AllPlain(host) && AllPlain(tld)
    ensures IsValidEmail(name + "@" + host + "." + tld)
  {
    var s := name + "@" + host + "." + tld;
    var p := |name|;
    var q := |name| + 1 + |host|;
    assert s[p] == '@' && s[q] == '.';
    forall k | 0 <= k < |s| && k != p ensures Plain(s[k]) {
      if k < p {
        assert s[k] == name[k];
      } else if k < q {
        assert s[k] == host[k - p - 1];
      } else if k > q {
        assert s[k] == tld[k - q - 1];
      }
    }
    assert MatchesPattern(s);
    IsValidEmailMatchesPattern(s);
  }

  /** How many times `c` occurs in `s`. */
  function Occurrences(s: string, c: char): nat
    decreases |s|
  {
    if s == [] then 0 else (if s[0] == c then 1 else 0) + Occurrences(s[1..], c)
  }

  lemma {:induction false} OccurrencesConcat(a: string, b: string, c: char)
    ensures Occurrences(a + b, c) == Occurrences(a, c) + Occurrences(b, c)
    decreases |a|
  {
    if a == [] {
      assert a + b == b;
    } else {
      assert (a + b)[1..] == a[1..] + b;
      OccurrencesConcat(a[1..], b, c);
    }
  }

  lemma {:induction false} OccurrencesNone(s: string, c: char)
    requires forall k :: 0 <= k < |s| ==> s[k] != c
    ensures Occurrences(s, c) == 0
    decreases |s|
  {
    if s != [] {
      OccurrencesNone(s[1..], c);
    }
  }

  /** An accepted address holds exactly one '@' and no whitespace at all. */
  lemma AcceptedShape(s: string)
    requires IsValidEmail(s)
    ensures Occurrences(s, '@') == 1
    ensures NoSpace(s)
  {
    var p := FirstAt(s, 0);
    var d := s[p + 1..];
    assert s == s[..p] + [s[p]] + d;
    OccurrencesConcat(s[..p] + [s[p]], d, '@');
    OccurrencesConcat(s[..p], [s[p]], '@');
    OccurrencesNone(s[..p], '@');
    OccurrencesNone(d, '@');
    assert Occurrences([s[p]], '@') == 1 by {
      assert [s[p]][1..] == [];
    }
    forall k | 0 <= k < |s| ensures !IsSpace(s[k]) {
      if k < p {
        assert s[k] == s[..p][k];
      } else if k > p {
        assert s[k] == d[k - p - 1];
      }
    }
  }

  /** The accepted case of the unit tests. */
  lemma AcceptsTestAddress()
    ensures IsValidEmail("test@example.com")
  {
    AcceptsParts("test", "example", "com");
    assert "test" + "@" + "example" + "." + "com" == "test@example.com";
  }

  /** The rejected cases of the unit tests: no '@' at all, and the empty string. */
  lemma RejectsTestInputs()
    ensures !IsValidEmail("not-an-email")
    ensures !IsValidEmail("")
  {
    var s := "not-an-email";
    assert '@' !in s;
    RejectsWithoutAt(s);
  }

  /** A string with no '@' is rejected. */
  lemma RejectsWithoutAt(s: string)
    requires '@' !in s
    ensures !IsValidEmail(s)
  {
    if s != "" {
      assert FirstAt(s, 0) == |s|;
    }
  }
}
