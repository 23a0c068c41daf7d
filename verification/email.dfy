/** The e-mail check of the order form (src/pages/Index.tsx:247): the
    unanchored pattern `\S+@\S+\.\S+`, tested with `RegExp.prototype.test`,
    which succeeds when SOME substring matches. It is defined here by that
    meaning and decided by an automaton of six named states read left to right; the two
    are proved equal. */
module Email {
  import opened Text

  /** `w` matches `\S+@\S+\.\S+` in full: no white space anywhere, an `@`
      after at least one character, and a `.` with at least one character
      between it and the `@` and at least one after it. (`@` and `.` are
      themselves non-space, so they may also occur inside the `\S+` parts.) */
  ghost predicate WholeMatch(w: string)
  {
    (forall k :: 0 <= k < |w| ==> !IsSpace(w[k])) &&
    exists a, d :: 1 <= a && a + 2 <= d && d + 2 <= |w| && w[a] == '@' && w[d] == '.'
  }

  /** `/\S+@\S+\.\S+/.test(s)`: some substring of `s` matches in full. */
  ghost predicate EmailSearch(s: string)
  {
    exists i, j :: 0 <= i <= j <= |s| && WholeMatch(s[i..j])
  }

  /** The shortest kind of match, located by the positions of its `@` and `.`:
      one non-space character before the `@`, non-space characters strictly
      between the two, and one non-space character after the `.`. */
  ghost predicate MatchAt(s: string, a: int, d: int)
  {
    1 <= a && a + 2 <= d && d + 2 <= |s| && s[a] == '@' && s[d] == '.' &&
    !IsSpace(s[a - 1]) && !IsSpace(s[d + 1]) &&
    forall k :: a < k < d ==> !IsSpace(s[k])
  }

  /** A substring matches somewhere exactly when a shortest match exists. */
  lemma SearchIffMatchAt(s: string)
    ensures EmailSearch(s) <==> exists a, d :: MatchAt(s, a, d)
  {
    if EmailSearch(s) {
      var i, j :| 0 <= i <= j <= |s| && WholeMatch(s[i..j]);
      var w := s[i..j];
      var a, d :| 1 <= a && a + 2 <= d && d + 2 <= |w| && w[a] == '@' && w[d] == '.';
      assert forall k :: 0 <= k < |w| ==> w[k] == s[i + k];
      assert MatchAt(s, i + a, i + d);
    }
    if exists a, d :: MatchAt(s, a, d) {
      var a, d :| MatchAt(s, a, d);
      var w := s[a - 1..d + 2];
      assert forall k :: 0 <= k < |w| ==> w[k] == s[a - 1 + k];
      assert w[1] == '@' && w[d - a + 1] == '.';
      assert WholeMatch(w);
    }
  }

  /** The states of the automaton, named by what the text read so far ends with. */
  datatype State =
    | Start    // no usable text: empty, or ends with white space
    | InWord   // a run of non-space characters
    | SawAt    // `@` just read after a non-space character
    | InHost   // at least one non-space character after such an `@`
    | SawDot   // a `.` just read in `InHost`
    | Found    // a match has been seen (final, absorbing)

  /** One step of the automaton. */
  function Step(q: State, c: char): State
  {
    if q == Found then Found
    else if IsSpace(c) then Start
    else match q
      case Start => InWord
      case InWord => if c == '@' then SawAt else InWord
      case SawAt => InHost
      case InHost => if c == '.' then SawDot else InHost
      case SawDot => Found
  }

  /** The state after reading all of `s`. */
  function Run(s: string): State
  {
    if s == [] then Start else Step(Run(s[..|s| - 1]), s[|s| - 1])
  }

  /** The hand-written e-mail check used by the form validation. */
  predicate IsEmail(s: string)
  {
    Run(s) == Found
  }

  // What each state means about the text read so far.

  /** Ends with a non-space character. */
  ghost predicate EndsNonSpace(p: string)
  {
    |p| >= 1 && !IsSpace(p[|p| - 1])
  }

  /** Ends with `@` preceded by a non-space character. */
  ghost predicate EndsAt(p: string)
  {
    |p| >= 2 && p[|p| - 1] == '@' && !IsSpace(p[|p| - 2])
  }

  /** `p[a]` is an `@` preceded by a non-space character, followed by at least one
      character, all non-space, up to the end of `p`. */
  ghost predicate AfterAt(p: string, a: int)
  {
    1 <= a <= |p| - 2 && p[a] == '@' && !IsSpace(p[a - 1]) &&
    forall k :: a < k < |p| ==> !IsSpace(p[k])
  }

  /** Ends with `\S@\S+`. */
  ghost predicate EndsAfterAt(p: string)
  {
    exists a :: AfterAt(p, a)
  }

  /** Ends with `\S@\S+\.`. */
  ghost predicate EndsDot(p: string)
  {
    |p| >= 1 && p[|p| - 1] == '.' && EndsAfterAt(p[..|p| - 1])
  }

  /** Contains a match. */
  ghost predicate HasMatch(p: string)
  {
    exists a, d :: MatchAt(p, a, d)
  }

  /** The state that the automaton should be in after reading `p`. */
  ghost function Level(p: string): State
  {
    if HasMatch(p) then Found
    else if EndsDot(p) then SawDot
    else if EndsAfterAt(p) then InHost
    else if EndsAt(p) then SawAt
    else if EndsNonSpace(p) then InWord
    else Start
  }

  lemma AfterAtStep(p: string, c: char)
    ensures EndsAfterAt(p + [c]) <==> !IsSpace(c) && (EndsAt(p) || EndsAfterAt(p))
  {
    var q := p + [c];
    assert forall k :: 0 <= k < |p| ==> q[k] == p[k];
    if EndsAfterAt(q) {
      var a :| AfterAt(q, a);
      assert !IsSpace(q[|q| - 1]);
      if a < |p| - 1 {
        assert AfterAt(p, a);
      }
    }
    if !IsSpace(c) && EndsAt(p) {
      assert AfterAt(q, |p| - 1);
    }
    if !IsSpace(c) && EndsAfterAt(p) {
      var a :| AfterAt(p, a);
      assert AfterAt(q, a);
    }
  }

  lemma MatchStep(p: string, c: char)
    ensures HasMatch(p + [c]) <==> HasMatch(p) || (!IsSpace(c) && EndsDot(p))
  {
    var q := p + [c];
    assert forall k :: 0 <= k < |p| ==> q[k] == p[k];
    if HasMatch(q) {
      var a, d :| MatchAt(q, a, d);
      if d + 2 <= |p| {
        assert MatchAt(p, a, d);
      } else {
        var t := p[..|p| - 1];
        assert forall k :: 0 <= k < |t| ==> t[k] == p[k];
        assert AfterAt(t, a);
      }
    }
    if HasMatch(p) {
      var a, d :| MatchAt(p, a, d);
      assert MatchAt(q, a, d);
    }
    if !IsSpace(c) && EndsDot(p) {
      var t := p[..|p| - 1];
      var a :| AfterAt(t, a);
      assert MatchAt(q, a, |p| - 1);
    }
  }

  /** After reading `s` the automaton is in the state that describes `s`. */
  lemma {:induction false} RunIsLevel(s: string)
    ensures Run(s) == Level(s)
  {
    if s != [] {
      var p, c := s[..|s| - 1], s[|s| - 1];
      assert s == p + [c];
      RunIsLevel(p);
      AfterAtStep(p, c);
      MatchStep(p, c);
      assert (p + [c])[..|p|] == p;
    }
  }

  /** The automaton accepts exactly the strings in which the pattern finds a match. */
  lemma IsEmailIffSearch(s: string)
    ensures IsEmail(s) <==> EmailSearch(s)
  {
    RunIsLevel(s);
    SearchIffMatchAt(s);
  }

  /** A string without white space. */
  predicate NoSpace(s: string)
  {
    forall k :: 0 <= k < |s| ==> !IsSpace(s[k])
  }

  /** Every address of the form `user@host.domain` with non-empty parts free of
      white space passes the check. */
  lemma AddressAccepted(user: string, host: string, domain: string)
    requires user != [] && host != [] && domain != []
    requires NoSpace(user) && NoSpace(host) && NoSpace(domain)
    ensures IsEmail(user + "@" + host + "." + domain)
  {
    var s := user + "@" + host + "." + domain;
    var a, d := |user|, |user| + 1 + |host|;
    assert s[a] == '@' && s[d] == '.';
    assert s[a - 1] == user[a - 1] && s[d + 1] == domain[0];
    assert forall k :: a < k < d ==> s[k] == host[k - a - 1];
    assert MatchAt(s, a, d);
    IsEmailIffSearch(s);
    SearchIffMatchAt(s);
  }

  /** The placeholder of the e-mail field passes the check. */
  lemma PlaceholderIsEmail()
    ensures IsEmail("your@email.com")
  {
    AddressAccepted("your", "email", "com");
    assert "your" + "@" + "email" + "." + "com" == "your@email.com";
  }

  /** A string that passes contains an `@` and, after it, a `.`. */
  lemma EmailHasAtAndDot(s: string)
    requires IsEmail(s)
    ensures exists a, d :: 0 <= a < d < |s| && s[a] == '@' && s[d] == '.'
  {
    IsEmailIffSearch(s);
    SearchIffMatchAt(s);
  }
}
