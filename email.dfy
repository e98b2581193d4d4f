/** The e-mail format test of `UserServiceImplementation.createUser` and
    `createInitialSuperUser`: the whole string must match
    `^[A-Za-z0-9+_.-]+@[A-Za-z0-9.-]+$`. */
module EmailFormat {

  /** The character class before the `@`. */
  predicate LocalChar(c: char) {
    'A' <= c <= 'Z' || 'a' <= c <= 'z' || '0' <= c <= '9' || c == '+' || c == '_' || c == '.' || c == '-'
  }

  /** The character class after the `@`. */
  predicate DomainChar(c: char) {
    'A' <= c <= 'Z' || 'a' <= c <= 'z' || '0' <= c <= '9' || c == '.' || c == '-'
  }

  /** The language of the regular expression, written as a split point. */
  ghost predicate MatchesEmailPattern(s: string) {
    exists k :: 0 < k < |s| - 1 && s[k] == '@'
      && (forall i :: 0 <= i < k ==> LocalChar(s[i]))
      && (forall i :: k < i < |s| ==> DomainChar(s[i]))
  }

  /** End of the longest run of local-part characters starting at `i`. */
  function LocalRun(s: string, i: nat): (k: nat)
    requires i <= |s|
    ensures i <= k <= |s|
    ensures forall j :: i <= j < k ==> LocalChar(s[j])
    ensures k < |s| ==> !LocalChar(s[k])
    decreases |s| - i
  {
    if i == |s| || !LocalChar(s[i]) then i else LocalRun(s, i + 1)
  }

  /** Whether every character from `i` on is a domain character. */
  function DomainToEnd(s: string, i: nat): (b: bool)
    requires i <= |s|
    ensures b <==> forall j :: i <= j < |s| ==> DomainChar(s[j])
    decreases |s| - i
  {
    i == |s| || (DomainChar(s[i]) && DomainToEnd(s, i + 1))
  }

  /** `s.matches("^[A-Za-z0-9+_.-]+@[A-Za-z0-9.-]+$")`. Neither class
      contains `@`, so the `@` must be the first non-local character. */
  function IsEmailFormat(s: string): (b: bool)
    ensures b <==> MatchesEmailPattern(s)
  {
    var k := LocalRun(s, 0);
    assert MatchesEmailPattern(s) ==> 0 < k < |s| - 1 && s[k] == '@' by {
      if MatchesEmailPattern(s) {
        var w :| 0 < w < |s| - 1 && s[w] == '@'
          && (forall i :: 0 <= i < w ==> LocalChar(s[i]))
          && (forall i :: w < i < |s| ==> DomainChar(s[i]));
        assert !LocalChar(s[w]);
      }
    }
    0 < k < |s| - 1 && s[k] == '@' && DomainToEnd(s, k + 1)
  }

  /** Exactly one `@`, with non-empty text on both sides. */
  lemma {:induction false} EmailHasOneAt(s: string, k: nat, m: nat)
    requires IsEmailFormat(s)
    requires k < |s| && m < |s| && s[k] == '@' && s[m] == '@'
    ensures k == m && 0 < k < |s| - 1
  {
    var w :| 0 < w < |s| - 1 && s[w] == '@'
      && (forall i :: 0 <= i < w ==> LocalChar(s[i]))
      && (forall i :: w < i < |s| ==> DomainChar(s[i]));
    assert !LocalChar('@') && !DomainChar('@');
  }

  /** Concrete cases: a plain address passes; an empty side, a second `@`
      or a space fails. */
  lemma EmailExamples()
    ensures IsEmailFormat("a@b")
    ensures !IsEmailFormat("@b") && !IsEmailFormat("a@") && !IsEmailFormat("a@b@c") && !IsEmailFormat("a b@c")
  {
    assert "a@b"[1] == '@';
    assert LocalRun("a@b", 0) == 1 by { assert LocalRun("a@b", 1) == 1; }
    assert LocalRun("@b", 0) == 0;
    assert LocalRun("a@", 0) == 1 by { assert LocalRun("a@", 1) == 1; }
    assert LocalRun("a b@c", 0) == 1 by { assert LocalRun("a b@c", 1) == 1; }
    assert !DomainToEnd("a@b@c", 2) by { assert !DomainChar("a@b@c"[3]); }
  }
}
