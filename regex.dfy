/** The fragment of JavaScript regular expressions the validators use: character
    ranges, concatenation, alternation and fixed repetition. A pattern written between
    `^` and `$` (without the `m` flag) must match the whole input, so `test` is
    whole-string matching here. */
module Regex {

  datatype Re =
    | Empty                       // matches only the empty string
    | Range(lo: char, hi: char)   // one character in lo..hi, as `[0-9]` or `\d`
    | Cat(first: Re, second: Re)  // `first` then `second`
    | Alt(left: Re, right: Re)    // `left|right`

  /** A single literal character. */
  function Lit(c: char): Re {
    Range(c, c)
  }

  /** `r{n}`. */
  function Repeat(r: Re, n: nat): Re {
    if n == 0 then Empty else Cat(r, Repeat(r, n - 1))
  }

  /** `s` as a whole is in the language of `r`. */
  predicate Matches(r: Re, s: string)
    decreases r
  {
    match r
    case Empty => s == []
    case Range(lo, hi) => |s| == 1 && lo <= s[0] <= hi
    case Cat(a, b) => exists k :: 0 <= k <= |s| && Matches(a, s[..k]) && Matches(b, s[k..])
    case Alt(a, b) => Matches(a, s) || Matches(b, s)
  }

  /** The length of every match, for patterns where all matches have one length. */
  function Width(r: Re): nat {
    match r
    case Empty => 0
    case Range(_, _) => 1
    case Cat(a, b) => Width(a) + Width(b)
    case Alt(a, _) => Width(a)
  }

  predicate FixedWidth(r: Re) {
    match r
    case Empty => true
    case Range(_, _) => true
    case Cat(a, b) => FixedWidth(a) && FixedWidth(b)
    case Alt(a, b) => FixedWidth(a) && FixedWidth(b) && Width(a) == Width(b)
  }

  /** Every match of a fixed-width pattern has its width. */
  lemma {:induction false} MatchLength(r: Re, s: string)
    requires FixedWidth(r) && Matches(r, s)
    ensures |s| == Width(r)
  {
    match r
    case Empty =>
    case Range(_, _) =>
    case Cat(a, b) =>
      var k :| 0 <= k <= |s| && Matches(a, s[..k]) && Matches(b, s[k..]);
      MatchLength(a, s[..k]);
      MatchLength(b, s[k..]);
    case Alt(a, b) =>
      if Matches(a, s) { MatchLength(a, s); } else { MatchLength(b, s); }
  }

  /** After a fixed-width pattern there is only one place to cut the input. */
  lemma CatSplit(a: Re, b: Re, s: string)
    requires FixedWidth(a)
    ensures Matches(Cat(a, b), s) <==>
              Width(a) <= |s| && Matches(a, s[..Width(a)]) && Matches(b, s[Width(a)..])
  {
    if Matches(Cat(a, b), s) {
      var k :| 0 <= k <= |s| && Matches(a, s[..k]) && Matches(b, s[k..]);
      MatchLength(a, s[..k]);
    }
  }

  /** `[lo-hi]{n}` matches exactly the strings of `n` characters in lo..hi. */
  lemma {:induction false} RepeatRange(lo: char, hi: char, n: nat, s: string)
    ensures Matches(Repeat(Range(lo, hi), n), s) <==>
              |s| == n && forall i :: 0 <= i < |s| ==> lo <= s[i] <= hi
  {
    if n > 0 {
      CatSplit(Range(lo, hi), Repeat(Range(lo, hi), n - 1), s);
      if |s| >= 1 {
        RepeatRange(lo, hi, n - 1, s[1..]);
        assert forall i :: 1 <= i < |s| ==> s[i] == s[1..][i - 1];
      }
    }
  }
}
