/** The three format checks of the security-patch dialog: `isValidDateFormat`,
    `isValid6Digit` and `isValid8Digit`. In the dialog each is a sentinel string and an
    anchored regular expression. Here each is stated on characters and numbers, and the
    lemmas prove that it accepts exactly what the sentinel and the regular expression
    accept. */
module Validators {
  import opened Regex

  /** `\d`: without the `u` flag it is exactly the ASCII digits. */
  const Digit: Re := Range('0', '9')

  /** `(?:0[1-9]|1[0-2])` */
  const MonthRe: Re := Alt(Cat(Lit('0'), Range('1', '9')), Cat(Lit('1'), Range('0', '2')))

  /** `(?:0[1-9]|[12]\d|3[01])` */
  const DayRe: Re :=
    Alt(Cat(Lit('0'), Range('1', '9')), Alt(Cat(Range('1', '2'), Digit), Cat(Lit('3'), Range('0', '1'))))

  /** `^\d{4}-(?:0[1-9]|1[0-2])-(?:0[1-9]|[12]\d|3[01])$` */
  const DateRe: Re := Cat(Repeat(Digit, 4), Cat(Lit('-'), Cat(MonthRe, Cat(Lit('-'), DayRe))))

  predicate IsDigit(c: char) {
    '0' <= c <= '9'
  }

  predicate AllDigits(s: string) {
    forall i :: 0 <= i < |s| ==> IsDigit(s[i])
  }

  /** The number a two-digit string denotes, leading zero allowed. */
  function TwoDigitNumber(s: string): nat
    requires |s| == 2 && AllDigits(s)
  {
    10 * (s[0] as int - '0' as int) + (s[1] as int - '0' as int)
  }

  /** A month number 01..12, as two digits. */
  predicate IsMonth(m: string) {
    |m| == 2 && AllDigits(m) && 1 <= TwoDigitNumber(m) <= 12
  }

  /** A day number 01..31, as two digits. */
  predicate IsDay(d: string) {
    |d| == 2 && AllDigits(d) && 1 <= TwoDigitNumber(d) <= 31
  }

  /** `MM-DD` with a month 01..12 and a day 01..31. */
  predicate IsMonthDay(t: string) {
    |t| == 5 && IsMonth(t[..2]) && t[2] == '-' && IsDay(t[3..])
  }

  /** Four digits, a dash, a month 01..12, a dash, a day 01..31; whether that day
      exists in that month is not asked. */
  predicate IsDateShaped(s: string) {
    |s| == 10 && AllDigits(s[..4]) && s[4] == '-' && IsMonth(s[5..7]) && s[7] == '-' && IsDay(s[8..])
  }

  /** `isValidDateFormat`: the sentinel "no" or a YYYY-MM-DD date. Whatever it accepts
      has the length of one of the two. */
  predicate IsValidDateFormat(date: string): (ok: bool)
    ensures ok ==> |date| == 2 || |date| == 10
  {
    date == "no" || IsDateShaped(date)
  }

  /** `isValid6Digit`: the sentinel "prop" or six digits (YYYYMM). Nothing it accepts
      is also accepted as a date. */
  predicate IsValid6Digit(value: string): (ok: bool)
    ensures ok ==> !IsValidDateFormat(value)
  {
    value == "prop" || (|value| == 6 && AllDigits(value))
  }

  /** `isValid8Digit`: eight digits (YYYYMMDD). Nothing it accepts is also accepted by
      either of the other two checks. */
  predicate IsValid8Digit(value: string): (ok: bool)
    ensures ok ==> |value| == 8 && !IsValid6Digit(value) && !IsValidDateFormat(value)
  {
    |value| == 8 && AllDigits(value)
  }

  /** The characters a value that passed a check can hold. */
  predicate IsValueChar(c: char) {
    IsDigit(c) || c == '-' || c in "no" || c in "prop"
  }

  lemma DigitsMatch(n: nat, s: string)
    ensures Matches(Repeat(Digit, n), s) <==> |s| == n && AllDigits(s)
  {
    RepeatRange('0', '9', n, s);
  }

  lemma {:induction false} RepeatDigitWidth(n: nat)
    ensures FixedWidth(Repeat(Digit, n)) && Width(Repeat(Digit, n)) == n
  {
    if n > 0 {
      RepeatDigitWidth(n - 1);
    }
  }

  /** `isValid8Digit(v)` is `/^\d{8}$/.test(v)`. */
  lemma Valid8DigitIsRegexTest(v: string)
    ensures IsValid8Digit(v) <==> Matches(Repeat(Digit, 8), v)
  {
    DigitsMatch(8, v);
  }

  /** `isValid6Digit(v)` is `v === 'prop' || /^\d{6}$/.test(v)`. */
  lemma Valid6DigitIsRegexTest(v: string)
    ensures IsValid6Digit(v) <==> v == "prop" || Matches(Repeat(Digit, 6), v)
  {
    DigitsMatch(6, v);
  }

  /** The month alternation accepts exactly the two-digit numbers 01..12. */
  lemma MonthMatches(m: string)
    ensures Matches(MonthRe, m) <==> IsMonth(m)
  {
    CatSplit(Lit('0'), Range('1', '9'), m);
    CatSplit(Lit('1'), Range('0', '2'), m);
  }

  /** The day alternation accepts exactly the two-digit numbers 01..31. */
  lemma DayMatches(d: string)
    ensures Matches(DayRe, d) <==> IsDay(d)
  {
    CatSplit(Lit('0'), Range('1', '9'), d);
    CatSplit(Range('1', '2'), Digit, d);
    CatSplit(Lit('3'), Range('0', '1'), d);
  }

  /** `-DD` */
  lemma DashDayMatches(t: string)
    ensures Matches(Cat(Lit('-'), DayRe), t) <==> |t| == 3 && t[0] == '-' && IsDay(t[1..])
  {
    CatSplit(Lit('-'), DayRe, t);
    if |t| >= 1 {
      DayMatches(t[1..]);
    }
  }

  /** `MM-DD` */
  lemma MonthDayMatches(t: string)
    ensures Matches(Cat(MonthRe, Cat(Lit('-'), DayRe)), t) <==> IsMonthDay(t)
  {
    assert FixedWidth(MonthRe) && Width(MonthRe) == 2;
    CatSplit(MonthRe, Cat(Lit('-'), DayRe), t);
    if |t| >= 2 {
      MonthMatches(t[..2]);
      DashDayMatches(t[2..]);
      if |t| >= 3 {
        assert t[2..][1..] == t[3..];
      }
    }
  }

  /** `-MM-DD` */
  lemma DashMonthDayMatches(t: string)
    ensures Matches(Cat(Lit('-'), Cat(MonthRe, Cat(Lit('-'), DayRe))), t) <==>
              |t| == 6 && t[0] == '-' && IsMonthDay(t[1..])
  {
    CatSplit(Lit('-'), Cat(MonthRe, Cat(Lit('-'), DayRe)), t);
    if |t| >= 1 {
      MonthDayMatches(t[1..]);
    }
  }

  /** The date pattern accepts exactly the date-shaped strings. */
  lemma DateMatches(s: string)
    ensures Matches(DateRe, s) <==> IsDateShaped(s)
  {
    RepeatDigitWidth(4);
    CatSplit(Repeat(Digit, 4), Cat(Lit('-'), Cat(MonthRe, Cat(Lit('-'), DayRe))), s);
    if |s| >= 4 {
      DigitsMatch(4, s[..4]);
      DashMonthDayMatches(s[4..]);
      if |s| == 10 {
        assert s[4..][1..] == s[5..];
        assert s[5..][..2] == s[5..7] && s[5..][3..] == s[8..];
      }
    }
  }

  /** `isValidDateFormat(v)` is `v === 'no'` or the date pattern's test; so, "no"
      apart, every accepted value has length 10. */
  lemma ValidDateFormatIsRegexTest(v: string)
    ensures IsValidDateFormat(v) <==> v == "no" || Matches(DateRe, v)
    ensures IsValidDateFormat(v) && v != "no" ==> |v| == 10
  {
    DateMatches(v);
  }

  /** The date check looks at the month and the day separately: February 31st
      passes. */
  lemma DateIgnoresMonthLength()
    ensures IsValidDateFormat("2023-02-31")
  {
    var s := "2023-02-31";
    assert s[..4] == "2023" && s[5..7] == "02" && s[8..] == "31";
  }

  /** Month 13 and day 00 do not pass. */
  lemma DateRejectsOutOfRange()
    ensures !IsValidDateFormat("2023-13-01") && !IsValidDateFormat("2023-01-00")
  {
    var s, t := "2023-13-01", "2023-01-00";
    assert s[5..7] == "13" && t[8..] == "00";
  }

  /** A value that passed any of the three checks holds only digits, `-` and the
      letters of the sentinels "no" and "prop"; in particular no `=` and no line break. */
  lemma ValidatedCharacters(v: string)
    requires IsValid8Digit(v) || IsValid6Digit(v) || IsValidDateFormat(v)
    ensures forall i :: 0 <= i < |v| ==> IsValueChar(v[i])
    ensures '=' !in v && '\n' !in v
  {
    if IsDateShaped(v) {
      forall i | 0 <= i < |v| ensures IsValueChar(v[i]) {
        if i < 4 { assert v[..4][i] == v[i]; }
        else if 5 <= i < 7 { assert v[5..7][i - 5] == v[i]; }
        else if 8 <= i { assert v[8..][i - 8] == v[i]; }
      }
    }
  }
}
