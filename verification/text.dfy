/** The string operations the numbering rules rely on: Python's
    `str(n)`, `int(s)`, `s.split(sep)` and `s.startswith(p)`, and the SQL
    `SUBSTR` used by the document journal. */
module Text {
  import opened Base

  predicate IsDigit(c: char) {
    '0' <= c <= '9'
  }

  predicate AllDigits(s: string) {
    forall i :: 0 <= i < |s| ==> IsDigit(s[i])
  }

  function DigitChar(d: nat): (c: char)
    requires d < 10
    ensures IsDigit(c)
  {
    ('0' as int + d) as char
  }

  function DigitValue(c: char): (d: nat)
    requires IsDigit(c)
    ensures d < 10 && DigitChar(d) == c
  {
    c as int - '0' as int
  }

  /** Python's `str(n)` for a non-negative integer: decimal digits,
      without leading zeros. */
  function NatToString(n: nat): (s: string)
    ensures 1 <= |s| && AllDigits(s)
    ensures n < 10 <==> |s| == 1
    ensures |s| > 1 ==> s[0] != '0'
    decreases n
  {
    if n < 10 then [DigitChar(n)] else NatToString(n / 10) + [DigitChar(n % 10)]
  }

  /** The value of a string of decimal digits, read left to right. */
  function DigitsValue(s: string): nat
    requires AllDigits(s)
  {
    if s == [] then 0 else DigitsValue(s[..|s| - 1]) * 10 + DigitValue(s[|s| - 1])
  }

  /** Python's `int(s)` on a string without surrounding blanks: an optional
      sign followed by at least one decimal digit; anything else is the
      `ValueError` case, `None`. */
  function ParseInt(s: string): (r: Option<int>)
    ensures r.Some? ==> 1 <= |s|
    ensures r.Some? && '-' !in s ==> r.value >= 0
    ensures AllDigits(s) && s != [] ==> r == Some(DigitsValue(s))
  {
    if |s| > 0 && (s[0] == '+' || s[0] == '-') then
      var body := s[1..];
      if body != [] && AllDigits(body) then
        Some(if s[0] == '-' then 0 - DigitsValue(body) else DigitsValue(body))
      else None
    else if s != [] && AllDigits(s) then Some(DigitsValue(s))
    else None
  }

  lemma {:induction false} DigitsValueOfNatToString(n: nat)
    ensures DigitsValue(NatToString(n)) == n
    decreases n
  {
    if n >= 10 {
      var s := NatToString(n);
      DigitsValueOfNatToString(n / 10);
      assert s[..|s| - 1] == NatToString(n / 10);
    }
  }

  /** `int(str(n)) == n`: the decimal text of a number reads back as it. */
  lemma ParseIntOfNatToString(n: nat)
    ensures ParseInt(NatToString(n)) == Some(n)
  {
    DigitsValueOfNatToString(n);
  }

  /** Python's `s.split(sep)`: the pieces between occurrences of `sep`,
      always at least one (the empty string splits into `[""]`). */
  function Split(s: string, sep: char): (parts: seq<string>)
    ensures 1 <= |parts|
    ensures forall i :: 0 <= i < |parts| ==> sep !in parts[i]
  {
    if s == [] then [[]]
    else
      var rest := Split(s[1..], sep);
      if s[0] == sep then [[]] + rest
      else [[s[0]] + rest[0]] + rest[1..]
  }

  /** `sep.join(parts)`, the inverse of `Split`. */
  function Join(parts: seq<string>, sep: char): string
    requires 1 <= |parts|
  {
    if |parts| == 1 then parts[0] else parts[0] + [sep] + Join(parts[1..], sep)
  }

  lemma {:induction false} JoinSplit(s: string, sep: char)
    ensures Join(Split(s, sep), sep) == s
  {
    if s != [] {
      var rest := Split(s[1..], sep);
      JoinSplit(s[1..], sep);
      if s[0] != sep {
        if |rest| == 1 {
          assert Split(s, sep) == [[s[0]] + rest[0]];
        } else {
          assert Split(s, sep)[1..] == rest[1..];
        }
      }
    }
  }

  /** Text free of the separator splits into itself alone. */
  lemma {:induction false} SplitWithoutSeparator(s: string, sep: char)
    requires sep !in s
    ensures Split(s, sep) == [s]
  {
    if s != [] {
      SplitWithoutSeparator(s[1..], sep);
      assert s[0] != sep;
      assert [s[0]] + s[1..] == s;
    }
  }

  /** A separator-free head joined to a tail splits off as the first piece. */
  lemma {:induction false} SplitAfterHead(head: string, sep: char, tail: string)
    requires sep !in head
    ensures Split(head + [sep] + tail, sep) == [head] + Split(tail, sep)
  {
    if head == [] {
      assert head + [sep] + tail == [sep] + tail;
    } else {
      var whole := head + [sep] + tail;
      SplitAfterHead(head[1..], sep, tail);
      assert whole[0] == head[0] && whole[0] != sep;
      assert whole[1..] == head[1..] + [sep] + tail;
      assert [head[0]] + head[1..] == head;
    }
  }

  /** `"<head>-<tail>".split("-") == [head, tail]` when neither contains `-`. */
  lemma SplitPair(head: string, sep: char, tail: string)
    requires sep !in head && sep !in tail
    ensures Split(head + [sep] + tail, sep) == [head, tail]
  {
    SplitAfterHead(head, sep, tail);
    SplitWithoutSeparator(tail, sep);
  }

  /** The piece after the last separator, Python's `s.split(sep)[-1]`. */
  function LastPiece(s: string, sep: char): string {
    var parts := Split(s, sep);
    parts[|parts| - 1]
  }

  /** Python's `s.startswith(p)` (and Django's `__startswith` lookup). */
  predicate StartsWith(s: string, p: string) {
    |p| <= |s| && s[..|p|] == p
  }

  /** SQL `SUBSTR(s, start)` with a 1-based start position: the text from
      that position onward, empty when the string is shorter. */
  function Substr(s: string, start: nat): (r: string)
    requires 1 <= start
    ensures start - 1 <= |s| ==> s == s[..start - 1] + r
    ensures start - 1 > |s| ==> r == []
  {
    if start - 1 <= |s| then s[start - 1..] else []
  }

  /** `sub` occurs in `s` starting at index `i`. */
  predicate OccursAt(s: string, sub: string, i: int) {
    0 <= i <= |s| - |sub| && s[i..i + |sub|] == sub
  }

  /** Python's `sub in s` for strings. */
  predicate Contains(s: string, sub: string) {
    exists i | 0 <= i <= |s| :: OccursAt(s, sub, i)
  }

  /** The longest run of decimal digits at the start of `s`. */
  function LeadingDigits(s: string): (r: string)
    ensures AllDigits(r) && StartsWith(s, r)
    ensures |r| < |s| ==> !IsDigit(s[|r|])
  {
    if s != [] && IsDigit(s[0]) then [s[0]] + LeadingDigits(s[1..]) else []
  }

  /** SQLite's `CAST(s AS INTEGER)`: an optional sign followed by the
      digits that come next; text with no digits there reads as 0. */
  function SqlInteger(s: string): int {
    if s != [] && (s[0] == '+' || s[0] == '-') then
      var v := DigitsValue(LeadingDigits(s[1..]));
      if s[0] == '-' then 0 - v else v
    else DigitsValue(LeadingDigits(s))
  }

  lemma {:induction false} LeadingDigitsOfDigits(s: string)
    requires AllDigits(s)
    ensures LeadingDigits(s) == s
  {
    if s != [] {
      LeadingDigitsOfDigits(s[1..]);
    }
  }

  /** Where Python's `int(s)` succeeds, SQLite's cast reads the same value. */
  lemma SqlIntegerAgreesWithParseInt(s: string)
    requires ParseInt(s).Some?
    ensures SqlInteger(s) == ParseInt(s).value
  {
    if s[0] == '+' || s[0] == '-' {
      LeadingDigitsOfDigits(s[1..]);
    } else {
      LeadingDigitsOfDigits(s);
    }
  }

  /** The case folding of SQLite's `LIKE`: ASCII capitals become small
      letters; every other character, Cyrillic included, is kept. */
  function LowerAscii(c: char): char {
    if 'A' <= c <= 'Z' then (c as int + 32) as char else c
  }

  function FoldAscii(s: string): (r: string)
    ensures |r| == |s|
    ensures forall i :: 0 <= i < |s| ==> r[i] == LowerAscii(s[i])
  {
    seq(|s|, i requires 0 <= i < |s| => LowerAscii(s[i]))
  }

  /** Django's `__icontains` on SQLite, `LIKE '%sub%'`: containment up to
      the case of ASCII letters. */
  predicate IContains(s: string, sub: string) {
    Contains(FoldAscii(s), FoldAscii(sub))
  }

  lemma FoldSlice(s: string, i: int, j: int)
    requires 0 <= i <= j <= |s|
    ensures FoldAscii(s)[i..j] == FoldAscii(s[i..j])
  {
  }

  /** An exact occurrence is also a case-blind one. */
  lemma ContainsIsIContains(s: string, sub: string)
    requires Contains(s, sub)
    ensures IContains(s, sub)
  {
    var i :| 0 <= i <= |s| && OccursAt(s, sub, i);
    FoldSlice(s, i, i + |sub|);
    assert OccursAt(FoldAscii(s), FoldAscii(sub), i);
  }

  /** Changing the ASCII case of the searched text changes nothing. */
  lemma IContainsIgnoresCase(s: string, sub: string)
    ensures IContains(FoldAscii(s), sub) <==> IContains(s, sub)
    ensures IContains(s, FoldAscii(sub)) <==> IContains(s, sub)
  {
    assert FoldAscii(FoldAscii(s)) == FoldAscii(s);
    assert FoldAscii(FoldAscii(sub)) == FoldAscii(sub);
  }
}
