/** The JavaScript string operations the dialog relies on: `trim`, `startsWith`,
    `split` on one character and `join`. */
module Text {

  /** The characters `String.prototype.trim` removes: ECMAScript WhiteSpace (tab,
      vertical tab, form feed, space, no-break space, byte order mark and every other
      Unicode space separator) and LineTerminator (line feed, carriage return, line
      and paragraph separators). */
  predicate IsJsWhitespace(c: char) {
    c == '\t' || c == '\n' || c == '\U{000B}' || c == '\U{000C}' || c == '\r' || c == ' '
    || c == '\U{00A0}' || c == '\U{1680}' || ('\U{2000}' <= c <= '\U{200A}')
    || c == '\U{2028}' || c == '\U{2029}' || c == '\U{202F}' || c == '\U{205F}'
    || c == '\U{3000}' || c == '\U{FEFF}'
  }

  predicate IsBlank(s: string) {
    forall i :: 0 <= i < |s| ==> IsJsWhitespace(s[i])
  }

  /** How many whitespace characters `s` starts with. */
  function LeadingBlanks(s: string): (n: nat)
    ensures n <= |s|
  {
    if s != [] && IsJsWhitespace(s[0]) then 1 + LeadingBlanks(s[1..]) else 0
  }

  /** The length of `s` without its trailing whitespace. */
  function TrailingBlanksStart(s: string): (n: nat)
    ensures n <= |s|
  {
    if s != [] && IsJsWhitespace(s[|s| - 1]) then TrailingBlanksStart(s[..|s| - 1]) else |s|
  }

  /** `s.trim()`. */
  function Trim(s: string): (r: string)
    ensures |r| <= |s|
  {
    var t := s[LeadingBlanks(s)..];
    t[..TrailingBlanksStart(t)]
  }

  lemma {:induction false} LeadingBlanksSpec(s: string)
    ensures IsBlank(s[..LeadingBlanks(s)])
    ensures LeadingBlanks(s) < |s| ==> !IsJsWhitespace(s[LeadingBlanks(s)])
  {
    if s != [] && IsJsWhitespace(s[0]) {
      LeadingBlanksSpec(s[1..]);
      assert s[..LeadingBlanks(s)] == [s[0]] + s[1..][..LeadingBlanks(s[1..])];
    }
  }

  lemma {:induction false} TrailingBlanksSpec(s: string)
    ensures IsBlank(s[TrailingBlanksStart(s)..])
    ensures 0 < TrailingBlanksStart(s) ==> !IsJsWhitespace(s[TrailingBlanksStart(s) - 1])
  {
    if s != [] && IsJsWhitespace(s[|s| - 1]) {
      var p := s[..|s| - 1];
      TrailingBlanksSpec(p);
      assert s[TrailingBlanksStart(s)..] == p[TrailingBlanksStart(p)..] + [s[|s| - 1]];
    }
  }

  /** What `trim` promises: the result is a slice of `s` with whitespace on neither
      end, everything around it is whitespace, and it is empty exactly when `s` is all
      whitespace (which is how `!value.trim()` tests for an empty input). */
  lemma TrimSpec(s: string)
    ensures Trim(s) == [] <==> IsBlank(s)
    ensures Trim(s) != [] ==> !IsJsWhitespace(Trim(s)[0]) && !IsJsWhitespace(Trim(s)[|Trim(s)| - 1])
    ensures exists i :: 0 <= i && OccursAt(s, Trim(s), i) && IsBlank(s[..i]) && IsBlank(s[i + |Trim(s)|..])
  {
    var i := LeadingBlanks(s);
    var t := s[i..];
    var j := TrailingBlanksStart(t);
    LeadingBlanksSpec(s);
    TrailingBlanksSpec(t);
    assert OccursAt(s, Trim(s), i);
    assert s[i + |Trim(s)|..] == t[j..];
    if Trim(s) == [] {
      assert s == s[..i] + t[j..];
    }
  }

  /** `r` is the slice of `s` that starts at index `i`. */
  predicate OccursAt(s: string, r: string, i: nat) {
    i + |r| <= |s| && s[i..i + |r|] == r
  }

  /** Trimming a string that has no whitespace at either end leaves it as it is. */
  lemma TrimmedIsFixed(s: string)
    requires s == [] || (!IsJsWhitespace(s[0]) && !IsJsWhitespace(s[|s| - 1]))
    ensures Trim(s) == s
  {
  }

  /** `trim` is idempotent. */
  lemma TrimIdempotent(s: string)
    ensures Trim(Trim(s)) == Trim(s)
  {
    TrimSpec(s);
    TrimmedIsFixed(Trim(s));
  }

  /** `s.startsWith(prefix)`. */
  predicate StartsWith(s: string, prefix: string) {
    |prefix| <= |s| && s[..|prefix|] == prefix
  }

  /** `parts.join(sep)` for a one-character separator. */
  function Join(parts: seq<string>, sep: char): string {
    if |parts| == 0 then ""
    else if |parts| == 1 then parts[0]
    else parts[0] + [sep] + Join(parts[1..], sep)
  }

  /** `s.split(sep)` for a one-character separator. */
  function Split(s: string, sep: char): (parts: seq<string>)
    ensures |parts| >= 1
  {
    if s == [] then [""]
    else
      var rest := Split(s[1..], sep);
      if s[0] == sep then [""] + rest
      else [[s[0]] + rest[0]] + rest[1..]
  }

  /** What `split` promises: the pieces hold no separator, joining them back gives
      `s`, and there are several exactly when `s` holds the separator. */
  lemma {:induction false} SplitSpec(s: string, sep: char)
    ensures forall i :: 0 <= i < |Split(s, sep)| ==> sep !in Split(s, sep)[i]
    ensures Join(Split(s, sep), sep) == s
    ensures sep in s <==> |Split(s, sep)| >= 2
  {
    if s != [] {
      var rest := Split(s[1..], sep);
      SplitSpec(s[1..], sep);
      if s[0] == sep {
        assert s == [sep] + Join(rest, sep);
      } else {
        var parts := Split(s, sep);
        assert parts == [[s[0]] + rest[0]] + rest[1..];
        if |rest| >= 2 {
          assert Join(rest, sep) == rest[0] + [sep] + Join(rest[1..], sep);
          assert parts[1..] == rest[1..];
        }
        assert forall i :: 1 <= i < |parts| ==> parts[i] == rest[i];
      }
    }
  }

  /** A string without the separator splits into itself alone. */
  lemma {:induction false} SplitWithoutSeparator(s: string, sep: char)
    requires sep !in s
    ensures Split(s, sep) == [s]
  {
    if s != [] {
      SplitWithoutSeparator(s[1..], sep);
      assert [s[0]] + s[1..] == s;
    }
  }

  /** Splitting `a + sep + b`, where `a` has no separator, yields `a` and then the
      pieces of `b`. */
  lemma {:induction false} SplitAfterPiece(a: string, sep: char, b: string)
    requires sep !in a
    ensures Split(a + [sep] + b, sep) == [a] + Split(b, sep)
  {
    var s := a + [sep] + b;
    if a == [] {
      assert s[1..] == b;
    } else {
      assert s[1..] == a[1..] + [sep] + b;
      SplitAfterPiece(a[1..], sep, b);
      assert [a[0]] + a[1..] == a;
    }
  }

  /** `split` undoes `join` when no piece holds the separator. */
  lemma {:induction false} SplitJoin(parts: seq<string>, sep: char)
    requires |parts| >= 1
    requires forall i :: 0 <= i < |parts| ==> sep !in parts[i]
    ensures Split(Join(parts, sep), sep) == parts
  {
    if |parts| == 1 {
      SplitWithoutSeparator(parts[0], sep);
    } else {
      SplitJoin(parts[1..], sep);
      SplitAfterPiece(parts[0], sep, Join(parts[1..], sep));
      assert [parts[0]] + parts[1..] == parts;
    }
  }

  /** Every character of a joined string is the separator or a character of one of
      the pieces; so when `ok` holds of those, it holds of the whole result. */
  lemma {:induction false} JoinWithin(parts: seq<string>, sep: char, ok: char -> bool)
    requires ok(sep)
    requires forall i, k :: 0 <= i < |parts| && 0 <= k < |parts[i]| ==> ok(parts[i][k])
    ensures forall k :: 0 <= k < |Join(parts, sep)| ==> ok(Join(parts, sep)[k])
  {
    if |parts| >= 2 {
      JoinWithin(parts[1..], sep, ok);
      var rest := Join(parts[1..], sep);
      forall k | 0 <= k < |Join(parts, sep)| ensures ok(Join(parts, sep)[k]) {
        if k < |parts[0]| {
          assert Join(parts, sep)[k] == parts[0][k];
        } else if k > |parts[0]| {
          assert Join(parts, sep)[k] == rest[k - |parts[0]| - 1];
        }
      }
    }
  }
}
