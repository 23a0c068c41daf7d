/** The phone-number check of the order form (src/pages/Index.tsx:242), written
    as a list of single-character atoms, each possibly optional, and a
    backtracking matcher for such lists: enough for the fixed pattern
    `^[+]?[7|8]?[\s-]?\(?[0-9]{3}\)?[\s-]?[0-9]{3}[\s-]?[0-9]{2}[\s-]?[0-9]{2}$`,
    without a general regular-expression engine. */
module Phone {
  import opened Text

  /** `[0-9]`: an ASCII digit. */
  predicate IsDigit(c: char)
  {
    '0' <= c <= '9'
  }

  /** The character classes that occur in the phone pattern. */
  datatype CharClass =
    | Lit(c: char)          // one literal character: `[+]`, `\(`, `\)`
    | OneOf(cs: string)     // a bracket class listing characters: `[7|8]`
    | SpaceOr(c: char)      // white space or one more character: `[\s-]`
    | Digit                 // `[0-9]`

  predicate Accepts(cls: CharClass, c: char)
  {
    match cls
    case Lit(d) => c == d
    case OneOf(cs) => c in cs
    case SpaceOr(d) => IsSpace(c) || c == d
    case Digit => IsDigit(c)
  }

  /** One character of the pattern; `optional` is the `?` quantifier. */
  datatype Atom = Atom(cls: CharClass, optional: bool)

  /** The characters listed in `[7|8]`. */
  const CountryDigits := "7|8"

  /** The pattern, atom by atom. Inside a bracket class `|` is an ordinary
      character, so `[7|8]` accepts `7`, `|` or `8`; `{3}` and `{2}` are
      spelled out as repeated digit atoms. */
  const PhonePattern: seq<Atom> := [
    Atom(Lit('+'), true),                                       // [+]?
    Atom(OneOf(CountryDigits), true),                           // [7|8]?
    Atom(SpaceOr('-'), true),                                   // [\s-]?
    Atom(Lit('('), true),                                       // \(?
    Atom(Digit, false), Atom(Digit, false), Atom(Digit, false), // [0-9]{3}
    Atom(Lit(')'), true),                                       // \)?
    Atom(SpaceOr('-'), true),                                   // [\s-]?
    Atom(Digit, false), Atom(Digit, false), Atom(Digit, false), // [0-9]{3}
    Atom(SpaceOr('-'), true),                                   // [\s-]?
    Atom(Digit, false), Atom(Digit, false),                     // [0-9]{2}
    Atom(SpaceOr('-'), true),                                   // [\s-]?
    Atom(Digit, false), Atom(Digit, false)                      // [0-9]{2}
  ]

  /** `s[j..]` matches the atoms `p[i..]` in full (the pattern is anchored by
      `^` and `$`): each atom consumes one character it accepts, and an
      optional atom may instead consume nothing. Both choices are tried, as a
      backtracking regular expression engine does. */
  function MatchFrom(p: seq<Atom>, s: string, i: nat, j: nat): bool
    requires i <= |p| && j <= |s|
    decreases |p| - i
  {
    if i == |p| then j == |s|
    else
      (j < |s| && Accepts(p[i].cls, s[j]) && MatchFrom(p, s, i + 1, j + 1))
      || (p[i].optional && MatchFrom(p, s, i + 1, j))
  }

  /** All of `s` matches all of `p`. */
  predicate Matches(p: seq<Atom>, s: string)
  {
    MatchFrom(p, s, 0, 0)
  }

  /** `phoneRegex.test(s)`. */
  predicate IsPhone(s: string)
  {
    Matches(PhonePattern, s)
  }

  /** The number of atoms of `p[i..]` that must consume a character. */
  function MandatoryFrom(p: seq<Atom>, i: nat): (n: nat)
    requires i <= |p|
    ensures n <= |p| - i
    decreases |p| - i
  {
    if i == |p| then 0 else (if p[i].optional then 0 else 1) + MandatoryFrom(p, i + 1)
  }

  /** A match consumes at least one character per mandatory atom and at most one per atom. */
  lemma {:induction false} MatchLength(p: seq<Atom>, s: string, i: nat, j: nat)
    requires i <= |p| && j <= |s| && MatchFrom(p, s, i, j)
    ensures MandatoryFrom(p, i) <= |s| - j <= |p| - i
    decreases |p| - i
  {
    if i < |p| {
      if j < |s| && Accepts(p[i].cls, s[j]) && MatchFrom(p, s, i + 1, j + 1) {
        MatchLength(p, s, i + 1, j + 1);
      } else {
        MatchLength(p, s, i + 1, j);
      }
    }
  }

  /** Every mandatory atom is matched by some character of the input. */
  lemma {:induction false} MatchMandatory(p: seq<Atom>, s: string, i: nat, j: nat, k: int)
    requires i <= |p| && j <= |s| && MatchFrom(p, s, i, j)
    requires i <= k < |p| && !p[k].optional
    ensures exists m :: j <= m < |s| && Accepts(p[k].cls, s[m])
    decreases |p| - i
  {
    if j < |s| && Accepts(p[i].cls, s[j]) && MatchFrom(p, s, i + 1, j + 1) {
      if k > i {
        MatchMandatory(p, s, i + 1, j + 1, k);
      }
    } else {
      MatchMandatory(p, s, i + 1, j, k);
    }
  }

  /** A string in which each atom consumes exactly one character matches. */
  lemma {:induction false} MatchOneEach(p: seq<Atom>, s: string, i: nat)
    requires |p| == |s| && i <= |p|
    requires forall k :: i <= k < |p| ==> Accepts(p[k].cls, s[k])
    ensures MatchFrom(p, s, i, i)
    decreases |p| - i
  {
    if i < |p| {
      MatchOneEach(p, s, i + 1);
    }
  }

  /** Ten digits in a row. */
  predicate TenDigits(d: string)
  {
    |d| == 10 && forall i :: 0 <= i < 10 ==> IsDigit(d[i])
  }

  /** The written form of the form's placeholder, `+7 (ddd) ddd-dd-dd`. */
  function Formatted(d: string): string
    requires TenDigits(d)
  {
    "+7 (" + d[..3] + ") " + d[3..6] + "-" + d[6..8] + "-" + d[8..]
  }

  /** The pattern accepts every number written like the form's placeholder. */
  lemma FormattedIsPhone(d: string)
    requires TenDigits(d)
    ensures IsPhone(Formatted(d))
  {
    var f := Formatted(d);
    assert |f| == 18;
    assert f[0] == '+' && f[1] == '7' && f[2] == ' ' && f[3] == '(';
    assert f[4] == d[0] && f[5] == d[1] && f[6] == d[2];
    assert f[7] == ')' && f[8] == ' ';
    assert f[9] == d[3] && f[10] == d[4] && f[11] == d[5];
    assert f[12] == '-' && f[13] == d[6] && f[14] == d[7];
    assert f[15] == '-' && f[16] == d[8] && f[17] == d[9];
    MatchOneEach(PhonePattern, f, 0);
  }

  /** The placeholder shown in the phone field is itself accepted. */
  lemma PlaceholderIsPhone()
    ensures IsPhone("+7 (999) 123-45-67")
  {
    FormattedIsPhone("9991234567");
    assert Formatted("9991234567") == "+7 (999) 123-45-67";
  }

  /** An accepted number is 10 to 18 characters long. */
  lemma PhoneLength(s: string)
    requires IsPhone(s)
    ensures 10 <= |s| <= 18
  {
    PatternCounts();
    MatchLength(PhonePattern, s, 0, 0);
  }

  /** Too short to hold ten digits: `123` is rejected. */
  lemma ShortNumberRejected()
    ensures !IsPhone("123")
  {
    if IsPhone("123") {
      PhoneLength("123");
    }
  }

  /** An accepted number contains a digit, so it is neither empty nor white space only. */
  lemma PhoneHasDigit(s: string)
    requires IsPhone(s)
    ensures exists i :: 0 <= i < |s| && IsDigit(s[i])
    ensures !Blank(s)
  {
    MatchMandatory(PhonePattern, s, 0, 0, 4);
  }

  /** The pattern has ten mandatory atoms, all after the optional `[+]?[7|8]?` prefix. */
  lemma PatternCounts()
    ensures MandatoryFrom(PhonePattern, 0) == MandatoryFrom(PhonePattern, 2) == 10
  {
    assert MandatoryFrom(PhonePattern, 17) == 1;
    assert MandatoryFrom(PhonePattern, 15) == 2;
    assert MandatoryFrom(PhonePattern, 13) == 4;
    assert MandatoryFrom(PhonePattern, 11) == 5;
    assert MandatoryFrom(PhonePattern, 9) == 7;
    assert MandatoryFrom(PhonePattern, 7) == 7;
    assert MandatoryFrom(PhonePattern, 5) == 9;
    assert MandatoryFrom(PhonePattern, 3) == 10;
  }

  /** The class accepts at least one ASCII digit. */
  predicate MayBeDigit(cls: CharClass)
  {
    match cls
    case Lit(d) => IsDigit(d)
    case OneOf(cs) => exists k :: 0 <= k < |cs| && IsDigit(cs[k])
    case SpaceOr(d) => IsDigit(d)
    case Digit => true
  }

  /** Every atom of `p[i..]` is a mandatory `[0-9]` or an optional class that accepts no digit. */
  predicate DigitTail(p: seq<Atom>, i: nat)
    requires i <= |p|
    decreases |p| - i
  {
    i == |p| ||
    (((p[i].cls == Digit && !p[i].optional) || (p[i].optional && !MayBeDigit(p[i].cls)))
     && DigitTail(p, i + 1))
  }

  /** `s[j..]` consists of ASCII digits only. */
  predicate DigitsFrom(s: string, j: nat)
  {
    forall m :: j <= m < |s| ==> IsDigit(s[m])
  }

  /** After the optional `[+]?` and `[7|8]?`, no optional atom of the pattern accepts a digit. */
  lemma PatternDigitTail()
    ensures DigitTail(PhonePattern, 2)
  {
    assert DigitTail(PhonePattern, 17);
    assert DigitTail(PhonePattern, 15);
    assert DigitTail(PhonePattern, 13);
    assert DigitTail(PhonePattern, 11);
    assert DigitTail(PhonePattern, 9);
    assert DigitTail(PhonePattern, 7);
    assert DigitTail(PhonePattern, 5);
    assert DigitTail(PhonePattern, 3);
  }

  /** On a string of digits, such a tail matches exactly when the lengths agree. */
  lemma {:induction false} DigitTailMatch(p: seq<Atom>, s: string, i: nat, j: nat)
    requires i <= |p| && j <= |s|
    requires DigitTail(p, i) && DigitsFrom(s, j)
    ensures MatchFrom(p, s, i, j) <==> |s| - j == MandatoryFrom(p, i)
    decreases |p| - i
  {
    if i < |p| {
      if p[i].optional {
        if j < |s| {
          assert IsDigit(s[j]);
          assert !Accepts(p[i].cls, s[j]) by {
            match p[i].cls
            case OneOf(cs) =>
              if s[j] in cs {
                var k :| 0 <= k < |cs| && cs[k] == s[j];
                assert IsDigit(cs[k]);
              }
            case _ =>
          }
        }
        DigitTailMatch(p, s, i + 1, j);
      } else if j < |s| {
        DigitTailMatch(p, s, i + 1, j + 1);
      }
    }
  }

  /** A string of digits only is accepted exactly when it has ten digits, or
      eleven with a leading `7` or `8`. */
  lemma DigitsOnlyPhone(s: string)
    requires DigitsFrom(s, 0)
    ensures IsPhone(s) <==> |s| == 10 || (|s| == 11 && (s[0] == '7' || s[0] == '8'))
  {
    var p := PhonePattern;
    PatternCounts();
    PatternDigitTail();
    DigitTailMatch(p, s, 2, 0);
    assert p[0] == Atom(Lit('+'), true) && p[1] == Atom(OneOf(CountryDigits), true);
    if s == [] {
      assert IsPhone(s) == MatchFrom(p, s, 1, 0);
      assert MatchFrom(p, s, 1, 0) == MatchFrom(p, s, 2, 0);
    } else {
      assert DigitsFrom(s, 1);
      DigitTailMatch(p, s, 2, 1);
      assert IsDigit(s[0]);
      assert CountryDigits == ['7', '|', '8'];
      assert s[0] in CountryDigits <==> s[0] == '7' || s[0] == '|' || s[0] == '8';
      assert Accepts(p[1].cls, s[0]) <==> s[0] == '7' || s[0] == '8';
      assert IsPhone(s) == MatchFrom(p, s, 1, 0);
      assert MatchFrom(p, s, 1, 0) == ((Accepts(p[1].cls, s[0]) && MatchFrom(p, s, 2, 1)) || MatchFrom(p, s, 2, 0));
    }
  }

  /** As written, `[7|8]` also accepts `|` in place of the country digit, so
      `|` followed by ten digits passes the check. */
  lemma BarPrefixAccepted(d: string)
    requires TenDigits(d)
    ensures IsPhone("|" + d)
  {
    var s := "|" + d;
    PatternCounts();
    PatternDigitTail();
    assert DigitsFrom(s, 1) by {
      forall m | 1 <= m < |s| ensures IsDigit(s[m]) {
        assert s[m] == d[m - 1];
      }
    }
    DigitTailMatch(PhonePattern, s, 2, 1);
    assert PhonePattern[1].cls == OneOf(CountryDigits) && s[0] == '|' == CountryDigits[1];
    assert Accepts(PhonePattern[1].cls, s[0]);
  }
}
