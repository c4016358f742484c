/**
 * Format validators of the registration backend. Each one is an anchored
 * regular expression; here each is transcribed segment by segment over
 * `string`, and the lemmas characterise the accepted strings independently.
 */
module Validator {

  // ---------------------------------------------------------------------
  // Character classes

  /** `\d` in a JavaScript regular expression: the ASCII digits only. */
  predicate IsDigit(c: char) { '0' <= c <= '9' }

  /** `[1-9]` */
  predicate IsNonZeroDigit(c: char) { '1' <= c <= '9' }

  /**
   * `\s` in a JavaScript regular expression: the ECMAScript WhiteSpace and
   * LineTerminator code points.
   */
  predicate IsWhitespace(c: char) {
    c == ' ' || c == '\t' || c == '\n' || c == '\r' || c == '\U{000B}' || c == '\U{000C}'
    || c == '\U{00A0}' || c == '\U{1680}' || ('\U{2000}' <= c <= '\U{200A}')
    || c == '\U{2028}' || c == '\U{2029}' || c == '\U{202F}' || c == '\U{205F}'
    || c == '\U{3000}' || c == '\U{FEFF}'
  }

  /** `\d{n}` over the whole of `s`. */
  predicate AllDigits(s: string) {
    forall k | 0 <= k < |s| :: IsDigit(s[k])
  }

  /** The numeric value of a digit character. */
  function DigitValue(c: char): (v: nat)
    requires IsDigit(c)
    ensures v <= 9
  {
    (c as int) - ('0' as int)
  }

  /** The number written by the two digits of `s` starting at `i`. */
  function TwoDigitValue(s: string, i: nat): (v: nat)
    requires i + 1 < |s| && IsDigit(s[i]) && IsDigit(s[i + 1])
    ensures v <= 99
  {
    DigitValue(s[i]) * 10 + DigitValue(s[i + 1])
  }

  // ---------------------------------------------------------------------
  // ID card: /^[1-9]\d{5}(18|19|20)\d{2}(0[1-9]|1[0-2])(0[1-9]|[12]\d|3[01])\d{3}[\dXx]$/

  /** `(18|19|20)` */
  predicate CenturyPattern(p: string) {
    p == "18" || p == "19" || p == "20"
  }

  /** `(0[1-9]|1[0-2])` */
  predicate MonthPattern(p: string) {
    |p| == 2 && ((p[0] == '0' && IsNonZeroDigit(p[1])) || (p[0] == '1' && '0' <= p[1] <= '2'))
  }

  /** `(0[1-9]|[12]\d|3[01])` */
  predicate DayPattern(p: string) {
    |p| == 2 &&
    ((p[0] == '0' && IsNonZeroDigit(p[1]))
     || ((p[0] == '1' || p[0] == '2') && IsDigit(p[1]))
     || (p[0] == '3' && (p[1] == '0' || p[1] == '1')))
  }

  /** `[\dXx]`, the place of the check character, which is not verified. */
  predicate IsCheckChar(c: char) {
    IsDigit(c) || c == 'X' || c == 'x'
  }

  /** The anchored ID-card pattern; its segments are 1+5+2+2+2+2+3+1 = 18 wide. */
  predicate IdCardPattern(s: string) {
    |s| == 18
    && IsNonZeroDigit(s[0])
    && AllDigits(s[1..6])
    && CenturyPattern(s[6..8])
    && AllDigits(s[8..10])
    && MonthPattern(s[10..12])
    && DayPattern(s[12..14])
    && AllDigits(s[14..17])
    && IsCheckChar(s[17])
  }

  /** `validateIdCard`: the empty-or-wrong-length test, then the pattern. */
  predicate ValidateIdCard(s: string) {
    if s == [] || |s| != 18 then false else IdCardPattern(s)
  }

  /**
   * The ID-card rule stated on numbers rather than on character classes:
   * 17 digits with a non-zero first one, a birth year starting 18, 19 or 20,
   * a month 1..12 and a day 1..31 (independent of the month), and a last
   * character that is a digit, 'X' or 'x'.
   */
  predicate IdCardByNumbers(s: string) {
    |s| == 18
    && AllDigits(s[..17])
    && s[0] != '0'
    && 18 <= TwoDigitValue(s, 6) <= 20
    && 1 <= TwoDigitValue(s, 10) <= 12
    && 1 <= TwoDigitValue(s, 12) <= 31
    && IsCheckChar(s[17])
  }

  lemma CenturyByValue(s: string)
    requires |s| == 18 && IsDigit(s[6]) && IsDigit(s[7])
    ensures CenturyPattern(s[6..8]) <==> 18 <= TwoDigitValue(s, 6) <= 20
  {
    var p := s[6..8];
    assert p == [s[6], s[7]];
  }

  lemma MonthByValue(s: string)
    requires |s| == 18 && IsDigit(s[10]) && IsDigit(s[11])
    ensures MonthPattern(s[10..12]) <==> 1 <= TwoDigitValue(s, 10) <= 12
  {
    var p := s[10..12];
    assert p[0] == s[10] && p[1] == s[11];
  }

  lemma DayByValue(s: string)
    requires |s| == 18 && IsDigit(s[12]) && IsDigit(s[13])
    ensures DayPattern(s[12..14]) <==> 1 <= TwoDigitValue(s, 12) <= 31
  {
    var p := s[12..14];
    assert p[0] == s[12] && p[1] == s[13];
  }

  /** Every successful segment match makes all of the first 17 characters digits. */
  lemma PatternDigits(s: string)
    requires IdCardPattern(s)
    ensures AllDigits(s[..17])
  {
    forall k | 0 <= k < 17 ensures IsDigit(s[k]) {
      if 1 <= k < 6 { assert s[1..6][k - 1] == s[k]; }
      else if 6 <= k < 8 { assert s[6..8][k - 6] == s[k]; }
      else if 8 <= k < 10 { assert s[8..10][k - 8] == s[k]; }
      else if 10 <= k < 12 { assert s[10..12][k - 10] == s[k]; }
      else if 12 <= k < 14 { assert s[12..14][k - 12] == s[k]; }
      else if 14 <= k < 17 { assert s[14..17][k - 14] == s[k]; }
    }
  }

  /** validateIdCard accepts exactly the strings described by IdCardByNumbers. */
  lemma ValidateIdCardByNumbers(s: string)
    ensures ValidateIdCard(s) <==> IdCardByNumbers(s)
  {
    if ValidateIdCard(s) {
      PatternDigits(s);
      CenturyByValue(s);
      MonthByValue(s);
      DayByValue(s);
    } else if IdCardByNumbers(s) {
      assert forall k | 0 <= k < 17 :: IsDigit(s[k]) by {
        forall k | 0 <= k < 17 ensures IsDigit(s[k]) { assert s[..17][k] == s[k]; }
      }
      CenturyByValue(s);
      MonthByValue(s);
      DayByValue(s);
      assert IdCardPattern(s);
      assert false;
    }
  }

  /** Any string that is not exactly 18 characters long is rejected, the empty one included. */
  lemma IdCardWrongLengthRejected(s: string)
    requires |s| != 18
    ensures !ValidateIdCard(s)
  {
  }

  /**
   * The check character is not validated: two candidates that differ only in
   * their last character, both a digit, 'X' or 'x', get the same verdict.
   */
  lemma IdCardChecksumIgnored(s: string, c: char, d: char)
    requires |s| == 17 && IsCheckChar(c) && IsCheckChar(d)
    ensures ValidateIdCard(s + [c]) == ValidateIdCard(s + [d])
  {
    var a, b := s + [c], s + [d];
    assert a[..17] == s == b[..17];
    assert a[1..6] == b[1..6] && a[6..8] == b[6..8] && a[8..10] == b[8..10];
    assert a[10..12] == b[10..12] && a[12..14] == b[12..14] && a[14..17] == b[14..17];
  }

  /** A regular number with check character 'X' is accepted. */
  lemma IdCardExample()
    ensures ValidateIdCard("110101199003071234")
    ensures ValidateIdCard("11010119900307123X")
  {
    var s := "110101199003071234";
    assert s[6..8] == "19";
    assert IdCardByNumbers(s);
    ValidateIdCardByNumbers(s);
    IdCardChecksumIgnored(s[..17], '4', 'X');
    assert s[..17] + ['4'] == s;
    assert s[..17] + ['X'] == "11010119900307123X";
  }

  /** The day is not checked against the month: 31 February is accepted. */
  lemma IdCardDayIgnoresMonth()
    ensures ValidateIdCard("110101199002311234")
  {
    var s := "110101199002311234";
    assert s[6..8] == "19";
    assert IdCardByNumbers(s);
    ValidateIdCardByNumbers(s);
  }

  // ---------------------------------------------------------------------
  // Phone: /^1[3-9]\d{9}$/

  /** `validatePhone`: a '1', then '3'..'9', then nine digits, and nothing else. */
  predicate ValidatePhone(s: string) {
    |s| == 11 && s[0] == '1' && '3' <= s[1] <= '9' && AllDigits(s[2..])
  }

  /** validatePhone accepts exactly the 11-digit strings whose first two digits read 13..19. */
  lemma ValidatePhoneByNumbers(s: string)
    ensures ValidatePhone(s) <==> |s| == 11 && AllDigits(s) && 13 <= TwoDigitValue(s, 0) <= 19
  {
    if ValidatePhone(s) {
      forall k | 0 <= k < 11 ensures IsDigit(s[k]) {
        if k >= 2 { assert s[2..][k - 2] == s[k]; }
      }
    }
    if |s| == 11 && AllDigits(s) && 13 <= TwoDigitValue(s, 0) <= 19 {
      forall k | 0 <= k < 9 ensures IsDigit(s[2..][k]) {
        assert s[2..][k] == s[k + 2];
      }
    }
  }

  lemma PhoneExamples()
    ensures ValidatePhone("13800138000")
    ensures !ValidatePhone("23800138000")
    ensures !ValidatePhone("1380013800")
  {
    var s := "13800138000";
    assert forall k | 0 <= k < 9 :: s[2..][k] == s[k + 2];
  }

  // ---------------------------------------------------------------------
  // Email: /^[^\s@]+@[^\s@]+\.[^\s@]+$/

  /** `[^\s@]` */
  predicate IsPlainChar(c: char) { !IsWhitespace(c) && c != '@' }

  /** `[^\s@]+` over the whole of `s`. */
  predicate PlainRun(s: string) {
    |s| > 0 && forall k | 0 <= k < |s| :: IsPlainChar(s[k])
  }

  /** `[^\s@]+\.[^\s@]+`: some '.' splits `d` into two non-empty plain runs. */
  predicate DomainPattern(d: string) {
    exists dot | 0 <= dot < |d| :: d[dot] == '.' && PlainRun(d[..dot]) && PlainRun(d[dot + 1..])
  }

  /** `validateEmail`: some '@' splits the string into a plain run and a domain. */
  predicate ValidateEmail(s: string) {
    exists at | 0 <= at < |s| :: s[at] == '@' && PlainRun(s[..at]) && DomainPattern(s[at + 1..])
  }

  /** The number of occurrences of `c` in `s`. */
  function Occurrences(s: string, c: char): (n: nat)
    ensures n <= |s|
  {
    if s == [] then 0 else Occurrences(s[..|s| - 1], c) + (if s[|s| - 1] == c then 1 else 0)
  }

  lemma {:induction false} OccurrencesAppend(a: string, b: string, c: char)
    ensures Occurrences(a + b, c) == Occurrences(a, c) + Occurrences(b, c)
  {
    if b != [] {
      assert (a + b)[..|a + b| - 1] == a + b[..|b| - 1];
      OccurrencesAppend(a, b[..|b| - 1], c);
    } else {
      assert a + b == a;
    }
  }

  lemma {:induction false} OccurrencesZero(s: string, c: char)
    requires forall k | 0 <= k < |s| :: s[k] != c
    ensures Occurrences(s, c) == 0
  {
    if s != [] {
      OccurrencesZero(s[..|s| - 1], c);
    }
  }

  lemma {:induction false} OccurrencesPositive(s: string, c: char, k: nat)
    requires k < |s| && s[k] == c
    ensures Occurrences(s, c) >= 1
  {
    if k < |s| - 1 {
      OccurrencesPositive(s[..|s| - 1], c, k);
    }
  }

  /** With exactly one occurrence at `at`, no other position holds `c`. */
  lemma OccurrenceUnique(s: string, c: char, at: nat, k: nat)
    requires at < |s| && s[at] == c && Occurrences(s, c) == 1
    requires k < |s| && k != at
    ensures s[k] != c
  {
    if s[k] == c {
      var lo, hi := if k < at then k else at, if k < at then at else k;
      assert s == s[..hi] + s[hi..];
      OccurrencesAppend(s[..hi], s[hi..], c);
      OccurrencesPositive(s[..hi], c, lo);
      OccurrencesPositive(s[hi..], c, 0);
    }
  }

  /**
   * The email rule in plain terms: no whitespace anywhere, exactly one '@'
   * with something before it, and after it a '.' that is neither the first
   * nor the last character of the part after the '@'.
   */
  ghost predicate EmailShape(s: string) {
    (forall k | 0 <= k < |s| :: !IsWhitespace(s[k]))
    && Occurrences(s, '@') == 1
    && exists at | 0 < at < |s| && s[at] == '@' ::
         exists dot | at + 1 < dot < |s| - 1 :: s[dot] == '.'
  }

  /** Matching the pattern leaves no whitespace and no second '@' anywhere. */
  lemma PatternPlainAround(s: string, at: nat, dot: nat)
    requires at < |s| && s[at] == '@' && PlainRun(s[..at])
    requires dot < |s[at + 1..]| && s[at + 1..][dot] == '.'
    requires PlainRun(s[at + 1..][..dot]) && PlainRun(s[at + 1..][dot + 1..])
    ensures forall k | 0 <= k < |s| :: !IsWhitespace(s[k]) && (k != at ==> s[k] != '@')
  {
    var d := s[at + 1..];
    forall k | 0 <= k < |s| ensures !IsWhitespace(s[k]) && (k != at ==> s[k] != '@') {
      if k < at {
        assert s[..at][k] == s[k];
        assert IsPlainChar(s[..at][k]);
      } else if at < k < at + 1 + dot {
        assert d[..dot][k - at - 1] == s[k];
        assert IsPlainChar(d[..dot][k - at - 1]);
      } else if at + 1 + dot < k {
        assert d[dot + 1..][k - at - 2 - dot] == s[k];
        assert IsPlainChar(d[dot + 1..][k - at - 2 - dot]);
      } else if k == at + 1 + dot {
        assert s[k] == d[dot];
      }
    }
  }

  /** A '@' at `at` and nowhere else is a single occurrence. */
  lemma SingleOccurrence(s: string, c: char, at: nat)
    requires at < |s| && s[at] == c
    requires forall k | 0 <= k < |s| && k != at :: s[k] != c
    ensures Occurrences(s, c) == 1
  {
    assert s == s[..at] + s[at..];
    OccurrencesAppend(s[..at], s[at..], c);
    OccurrencesZero(s[..at], c);
    assert s[at..] == [s[at]] + s[at + 1..];
    OccurrencesAppend([s[at]], s[at + 1..], c);
    assert [s[at]][..0] == [];
    OccurrencesZero(s[at + 1..], c);
  }

  lemma EmailPatternToShape(s: string, at: nat, dot: nat)
    requires at < |s| && s[at] == '@' && PlainRun(s[..at])
    requires dot < |s[at + 1..]| && s[at + 1..][dot] == '.'
    requires PlainRun(s[at + 1..][..dot]) && PlainRun(s[at + 1..][dot + 1..])
    ensures EmailShape(s)
  {
    PatternPlainAround(s, at, dot);
    SingleOccurrence(s, '@', at);
    assert s[at + 1 + dot] == '.';
  }

  /** A non-empty stretch of plain characters is a plain run. */
  lemma PlainSlice(s: string, lo: nat, hi: nat)
    requires lo < hi <= |s|
    requires forall k | lo <= k < hi :: IsPlainChar(s[k])
    ensures PlainRun(s[lo..hi])
  {
    var r := s[lo..hi];
    forall k | 0 <= k < |r| ensures IsPlainChar(r[k]) {
      assert r[k] == s[lo + k];
    }
  }

  /** With no whitespace and a single '@' at `at`, every other character is plain. */
  lemma PlainExceptAt(s: string, at: nat)
    requires forall k | 0 <= k < |s| :: !IsWhitespace(s[k])
    requires Occurrences(s, '@') == 1 && at < |s| && s[at] == '@'
    ensures forall k | 0 <= k < |s| && k != at :: IsPlainChar(s[k])
  {
    forall k | 0 <= k < |s| && k != at ensures IsPlainChar(s[k]) {
      OccurrenceUnique(s, '@', at, k);
    }
  }

  /** A '.' with plain runs on both sides makes a domain. */
  lemma DomainAt(d: string, j: nat)
    requires j < |d| && d[j] == '.' && PlainRun(d[..j]) && PlainRun(d[j + 1..])
    ensures DomainPattern(d)
  {
  }

  /** Plain runs before the '@', between it and the '.', and after the '.' make an email. */
  lemma EmailAt(s: string, at: nat, dot: nat)
    requires at < dot < |s| && s[at] == '@' && s[dot] == '.'
    requires PlainRun(s[..at]) && PlainRun(s[at + 1..dot]) && PlainRun(s[dot + 1..])
    ensures ValidateEmail(s)
  {
    var d := s[at + 1..];
    var j := dot - at - 1;
    assert d[..j] == s[at + 1..dot];
    assert d[j + 1..] == s[dot + 1..];
    DomainAt(d, j);
  }

  /** The three stretches around the '@' and the '.' are plain runs. */
  lemma PlainRunsAround(s: string, at: nat, dot: nat)
    requires 0 < at && at + 1 < dot < |s| - 1
    requires forall k | 0 <= k < |s| && k != at :: IsPlainChar(s[k])
    ensures PlainRun(s[..at]) && PlainRun(s[at + 1..dot]) && PlainRun(s[dot + 1..])
  {
    PlainSlice(s, 0, at);
    PlainSlice(s, at + 1, dot);
    PlainSlice(s, dot + 1, |s|);
    assert s[..at] == s[0..at] && s[dot + 1..] == s[dot + 1..|s|];
  }

  lemma EmailShapeToPattern(s: string, at: nat, dot: nat)
    requires forall k | 0 <= k < |s| :: !IsWhitespace(s[k])
    requires Occurrences(s, '@') == 1
    requires 0 < at < |s| && s[at] == '@' && at + 1 < dot < |s| - 1 && s[dot] == '.'
    ensures ValidateEmail(s)
  {
    PlainExceptAt(s, at);
    PlainRunsAround(s, at, dot);
    EmailAt(s, at, dot);
  }

  /** validateEmail accepts exactly the strings of EmailShape. */
  lemma ValidateEmailShape(s: string)
    ensures ValidateEmail(s) <==> EmailShape(s)
  {
    if ValidateEmail(s) {
      var at :| 0 <= at < |s| && s[at] == '@' && PlainRun(s[..at]) && DomainPattern(s[at + 1..]);
      var d := s[at + 1..];
      var dot :| 0 <= dot < |d| && d[dot] == '.' && PlainRun(d[..dot]) && PlainRun(d[dot + 1..]);
      EmailPatternToShape(s, at, dot);
    }
    if EmailShape(s) {
      var at :| 0 < at < |s| && s[at] == '@' && exists dot | at + 1 < dot < |s| - 1 :: s[dot] == '.';
      var dot :| at + 1 < dot < |s| - 1 && s[dot] == '.';
      EmailShapeToPattern(s, at, dot);
    }
  }

  /** "a@b.com" is accepted; "a@b" has no '.' after the '@' and is rejected. */
  lemma EmailExamples()
    ensures ValidateEmail("a@b.com")
    ensures !ValidateEmail("a@b")
  {
    var s := "a@b.com";
    assert s[..1] == "a" && s[2..] == "b.com";
    var d := "b.com";
    assert d[..1] == "b" && d[2..] == "com";
    assert IsPlainChar('a') && IsPlainChar('b') && IsPlainChar('c') && IsPlainChar('o') && IsPlainChar('m');
    assert DomainPattern(d);
    assert !ValidateEmail("a@b") by {
      ValidateEmailShape("a@b");
    }
  }
}
