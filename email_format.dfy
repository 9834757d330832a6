/** The e-mail shape check `/^[^\s@]+@[^\s@]+\.[^\s@]+$/` used by the
    super-admin and admin-user create routes and by the profile update. */
module EmailFormat {
  import opened Js

  /** A character of the class `[^\s@]`. */
  predicate Plain(c: char) {
    !IsSpace(c) && c != '@'
  }

  predicate AllPlain(s: string) {
    forall i :: 0 <= i < |s| ==> Plain(s[i])
  }

  /** The regular expression read literally: a non-empty plain run, '@',
      a non-empty plain run, '.', a non-empty plain run, and nothing else.
      Backtracking lets the '.' be any dot of the part after '@'. */
  predicate MatchesEmailRegex(s: string) {
    exists at, dot ::
      && 0 < at && at + 1 < dot < |s| - 1
      && s[at] == '@' && s[dot] == '.'
      && AllPlain(s[..at]) && AllPlain(s[at + 1..dot]) && AllPlain(s[dot + 1..])
  }

  /** The same set described by what the address contains. */
  predicate WellFormedEmail(s: string) {
    && (forall i :: 0 <= i < |s| ==> !IsSpace(s[i]))
    && exists at ::
      && 0 < at < |s| && s[at] == '@'
      && (forall i :: 0 <= i < |s| && i != at ==> s[i] != '@')
      && exists dot :: at + 1 < dot < |s| - 1 && s[dot] == '.'
  }

  lemma PlainSlice(s: string, lo: int, hi: int)
    requires 0 <= lo <= hi <= |s|
    requires forall i :: lo <= i < hi ==> Plain(s[i])
    ensures AllPlain(s[lo..hi])
  {
    forall k | 0 <= k < hi - lo ensures Plain(s[lo..hi][k]) {
      assert s[lo..hi][k] == s[lo + k];
    }
  }

  lemma RegexImpliesWellFormed(s: string)
    requires MatchesEmailRegex(s)
    ensures WellFormedEmail(s)
  {
    var at, dot :|
      && 0 < at && at + 1 < dot < |s| - 1
      && s[at] == '@' && s[dot] == '.'
      && AllPlain(s[..at]) && AllPlain(s[at + 1..dot]) && AllPlain(s[dot + 1..]);
    forall i | 0 <= i < |s| && i != at && i != dot
      ensures Plain(s[i])
    {
      if i < at {
        assert s[..at][i] == s[i];
      } else if i < dot {
        assert s[at + 1..dot][i - at - 1] == s[i];
      } else {
        assert s[dot + 1..][i - dot - 1] == s[i];
      }
    }
    assert forall i :: 0 <= i < |s| && i != at ==> s[i] != '@';
    assert exists d :: at + 1 < d < |s| - 1 && s[d] == '.';
  }

  lemma WellFormedImpliesRegex(s: string)
    requires WellFormedEmail(s)
    ensures MatchesEmailRegex(s)
  {
    var at :|
      && 0 < at < |s| && s[at] == '@'
      && (forall i :: 0 <= i < |s| && i != at ==> s[i] != '@')
      && exists dot :: at + 1 < dot < |s| - 1 && s[dot] == '.';
    var dot :| at + 1 < dot < |s| - 1 && s[dot] == '.';
    PlainSlice(s, 0, at);
    PlainSlice(s, at + 1, dot);
    PlainSlice(s, dot + 1, |s|);
    assert s[..at] == s[0..at] && s[dot + 1..] == s[dot + 1..|s|];
  }

  /** The regex accepts exactly the strings with one '@', no white space,
      a non-empty part before the '@', and a '.' after it with text on
      both sides of the '.'. */
  lemma RegexIffWellFormed(s: string)
    ensures MatchesEmailRegex(s) <==> WellFormedEmail(s)
  {
    if MatchesEmailRegex(s) {
      RegexImpliesWellFormed(s);
    }
    if WellFormedEmail(s) {
      WellFormedImpliesRegex(s);
    }
  }
}
