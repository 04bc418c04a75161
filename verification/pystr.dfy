/** The operations on Python `str` values that the core relies on, each with
    Python's own semantics (code-point strings, `str.isspace` whitespace, `int()`
    parsing, code-point lexicographic comparison). */
module PyStr {
  import opened Wrappers

  // ---------------------------------------------------------------------------
  // Prefixes, suffixes, substrings

  /** `s.startswith(prefix)` */
  predicate StartsWith(s: string, prefix: string) {
    |prefix| <= |s| && s[..|prefix|] == prefix
  }

  /** `s.endswith(suffix)` */
  predicate EndsWith(s: string, suffix: string) {
    |suffix| <= |s| && s[|s| - |suffix|..] == suffix
  }

  /** `t in s` */
  predicate Contains(s: string, t: string)
    decreases |s|
  {
    StartsWith(s, t) || (|s| > 0 && Contains(s[1..], t))
  }

  /** An occurrence of `t` at any position makes `t in s` true. */
  lemma {:induction false} ContainsAt(s: string, t: string, i: nat)
    requires i + |t| <= |s| && s[i..i + |t|] == t
    ensures Contains(s, t)
  {
    if i == 0 {
      assert s[..|t|] == t;
    } else {
      assert s[1..][i - 1..i - 1 + |t|] == s[i..i + |t|];
      ContainsAt(s[1..], t, i - 1);
    }
  }

  /** Two prefixes of one string are prefixes of each other. */
  lemma PrefixesCompare(s: string, a: string, b: string)
    requires StartsWith(s, a) && StartsWith(s, b) && |a| <= |b|
    ensures StartsWith(b, a)
  {
    assert b[..|a|] == s[..|b|][..|a|];
  }

  /** The index of the first line that starts with `prefix`: where a search
      for `^(prefix).*$` in MULTILINE mode finds its match. */
  function FirstWithPrefix(lines: seq<string>, prefix: string): (r: Option<nat>)
    ensures r.Some? ==> r.value < |lines|
  {
    if |lines| == 0 then None
    else if StartsWith(lines[0], prefix) then Some(0)
    else match FirstWithPrefix(lines[1..], prefix)
      case None => None
      case Some(k) => Some(k + 1)
  }

  /** The line found has the prefix, no line before it has it, and none is
      found exactly when no line has it. */
  lemma {:induction false} FirstWithPrefixIsFirst(lines: seq<string>, prefix: string)
    ensures FirstWithPrefix(lines, prefix).Some? ==> StartsWith(lines[FirstWithPrefix(lines, prefix).value], prefix)
    ensures FirstWithPrefix(lines, prefix).Some? ==>
      forall j :: 0 <= j < FirstWithPrefix(lines, prefix).value ==> !StartsWith(lines[j], prefix)
    ensures FirstWithPrefix(lines, prefix).None? <==> forall j :: 0 <= j < |lines| ==> !StartsWith(lines[j], prefix)
    decreases |lines|
  {
    if |lines| > 0 && !StartsWith(lines[0], prefix) {
      FirstWithPrefixIsFirst(lines[1..], prefix);
      assert forall j :: 1 <= j < |lines| ==> lines[j] == lines[1..][j - 1];
    }
  }

  // ---------------------------------------------------------------------------
  // split / join

  /** `s.split(sep)` for a one-character separator: there is always at least
      one piece, and an empty string splits into one empty piece. */
  function Split(s: string, sep: char): (parts: seq<string>)
    ensures |parts| >= 1
    decreases |s|
  {
    if |s| == 0 then [""]
    else if s[0] == sep then [""] + Split(s[1..], sep)
    else
      var rest := Split(s[1..], sep);
      [[s[0]] + rest[0]] + rest[1..]
  }

  /** `sep.join(parts)` */
  function Join(parts: seq<string>, sep: string): string
  {
    if |parts| == 0 then ""
    else if |parts| == 1 then parts[0]
    else parts[0] + sep + Join(parts[1..], sep)
  }

  /** No piece of a split contains the separator. */
  lemma {:induction false} SplitPiecesLackSeparator(s: string, sep: char)
    ensures forall k :: 0 <= k < |Split(s, sep)| ==> sep !in Split(s, sep)[k]
    decreases |s|
  {
    if |s| > 0 {
      SplitPiecesLackSeparator(s[1..], sep);
    }
  }

  /** Joining the pieces of a split with the separator gives the string back. */
  lemma {:induction false} JoinSplit(s: string, sep: char)
    ensures Join(Split(s, sep), [sep]) == s
    decreases |s|
  {
    if |s| > 0 {
      JoinSplit(s[1..], sep);
      var rest := Split(s[1..], sep);
      if s[0] != sep && |rest| > 1 {
        assert Join(rest, [sep]) == rest[0] + [sep] + Join(rest[1..], [sep]);
        assert Join([[s[0]] + rest[0]] + rest[1..], [sep])
            == [s[0]] + rest[0] + [sep] + Join(rest[1..], [sep]);
      }
      assert [s[0]] + s[1..] == s;
    }
  }

  /** A string without the separator splits into itself. */
  lemma {:induction false} SplitWithoutSeparator(s: string, sep: char)
    requires sep !in s
    ensures Split(s, sep) == [s]
    decreases |s|
  {
    if |s| > 0 {
      SplitWithoutSeparator(s[1..], sep);
      assert [s[0]] + s[1..] == s;
    }
  }

  /** Splitting at the first separator peels off the text before it. */
  lemma {:induction false} SplitAtFirst(a: string, b: string, sep: char)
    requires sep !in a
    ensures Split(a + [sep] + b, sep) == [a] + Split(b, sep)
    decreases |a|
  {
    var s := a + [sep] + b;
    if |a| == 0 {
      assert s[0] == sep && s[1..] == b;
    } else {
      assert s[0] == a[0] && s[1..] == a[1..] + [sep] + b;
      SplitAtFirst(a[1..], b, sep);
      assert [a[0]] + a[1..] == a;
    }
  }

  /** Splitting a join of separator-free pieces gives the pieces back. */
  lemma {:induction false} SplitJoin(parts: seq<string>, sep: char)
    requires |parts| >= 1
    requires forall k :: 0 <= k < |parts| ==> sep !in parts[k]
    ensures Split(Join(parts, [sep]), sep) == parts
    decreases |parts|
  {
    if |parts| == 1 {
      SplitWithoutSeparator(parts[0], sep);
    } else {
      SplitJoin(parts[1..], sep);
      SplitAtFirst(parts[0], Join(parts[1..], [sep]), sep);
      assert [parts[0]] + parts[1..] == parts;
    }
  }

  /** A two-line text splits into its two lines. */
  lemma SplitTwoLines(first: string, second: string)
    requires '\n' !in first && '\n' !in second
    ensures Split(first + "\n" + second, '\n') == [first, second]
  {
    assert first + "\n" + second == first + ['\n'] + second;
    SplitAtFirst(first, second, '\n');
    SplitWithoutSeparator(second, '\n');
  }

  /** A three-line text splits into its three lines. */
  lemma SplitThreeLines(first: string, second: string, third: string)
    requires '\n' !in first && '\n' !in second && '\n' !in third
    ensures Split(first + "\n" + second + "\n" + third, '\n') == [first, second, third]
  {
    assert first + "\n" + second + "\n" + third == first + ['\n'] + (second + "\n" + third);
    SplitAtFirst(first, second + "\n" + third, '\n');
    SplitTwoLines(second, third);
  }

  /** A string holding the separator splits into at least two pieces. */
  lemma SplitHasSecond(s: string, sep: char)
    requires sep in s
    ensures |Split(s, sep)| >= 2
  {
    if |Split(s, sep)| == 1 {
      JoinSplit(s, sep);
      SplitPiecesLackSeparator(s, sep);
    }
  }

  // ---------------------------------------------------------------------------
  // Whitespace and strip

  /** `c.isspace()`: the characters Python's `str.strip()` removes. */
  predicate IsSpace(c: char) {
    ('\t' <= c <= '\r') || ('\U{1C}' <= c <= ' ') || c == '\U{85}' || c == '\U{A0}'
    || c == '\U{1680}' || ('\U{2000}' <= c <= '\U{200A}') || c == '\U{2028}' || c == '\U{2029}'
    || c == '\U{202F}' || c == '\U{205F}' || c == '\U{3000}'
  }

  /** `s.strip()`: leading and then trailing whitespace removed. */
  function Strip(s: string): string
    decreases |s|
  {
    if |s| > 0 && IsSpace(s[0]) then Strip(s[1..])
    else if |s| > 0 && IsSpace(s[|s| - 1]) then Strip(s[..|s| - 1])
    else s
  }

  /** The strip of a string has no whitespace at either end. */
  lemma {:induction false} StripEnds(s: string)
    ensures |Strip(s)| > 0 ==> !IsSpace(Strip(s)[0]) && !IsSpace(Strip(s)[|Strip(s)| - 1])
    decreases |s|
  {
    if |s| > 0 && IsSpace(s[0]) {
      StripEnds(s[1..]);
    } else if |s| > 0 && IsSpace(s[|s| - 1]) {
      StripEnds(s[..|s| - 1]);
    }
  }

  /** Stripping is idempotent. */
  lemma StripIdempotent(s: string)
    ensures Strip(Strip(s)) == Strip(s)
  {
    StripEnds(s);
    StripFixesTrimmed(Strip(s));
  }

  /** A string with no whitespace at either end is its own strip. */
  lemma StripFixesTrimmed(s: string)
    requires |s| > 0 ==> !IsSpace(s[0]) && !IsSpace(s[|s| - 1])
    ensures Strip(s) == s
  {
  }

  // ---------------------------------------------------------------------------
  // Python int() on decimal strings

  predicate IsDigit(c: char) {
    '0' <= c <= '9'
  }

  predicate AllDigits(s: string) {
    forall i :: 0 <= i < |s| ==> IsDigit(s[i])
  }

  function DigitValue(c: char): nat
    requires IsDigit(c)
  {
    (c as int) - ('0' as int)
  }

  /** The value of a string of decimal digits; leading zeros add nothing. */
  function Value(s: string): nat
    requires AllDigits(s)
  {
    if |s| == 0 then 0 else 10 * Value(s[..|s| - 1]) + DigitValue(s[|s| - 1])
  }

  function Pow10(n: nat): nat {
    if n == 0 then 1 else 10 * Pow10(n - 1)
  }

  /** The digits-and-underscores body `int()` accepts after an optional sign,
      with its value: digits, with single underscores allowed only between
      two digits; anything else is refused. */
  function ParseNumeral(b: string): (r: Option<nat>)
    decreases |b|
  {
    if |b| == 0 || !IsDigit(b[|b| - 1]) then None
    else if |b| == 1 then Some(DigitValue(b[0]))
    else
      var init := b[..|b| - 1];
      var head := if init[|init| - 1] == '_' then init[..|init| - 1] else init;
      match ParseNumeral(head)
      case None => None
      case Some(v) => Some(10 * v + DigitValue(b[|b| - 1]))
  }

  /** `int(s)`: surrounding whitespace is ignored, then an optional sign and a
      numeral; anything else raises ValueError. */
  function ParseInt(s: string): (r: Result<int>)
    ensures r.Raise? ==> r.error == ValueError
  {
    var t := Strip(s);
    var signed := |t| > 0 && (t[0] == '-' || t[0] == '+');
    match ParseNumeral(if signed then t[1..] else t)
    case None => Raise(ValueError)
    case Some(v) =>
      var n: int := v;
      Ok(if signed && t[0] == '-' then -n else n)
  }

  /** A digit string is a numeral whose value is its decimal value. */
  lemma {:induction false} ParseNumeralOfDigits(s: string)
    requires |s| > 0 && AllDigits(s)
    ensures ParseNumeral(s) == Some(Value(s))
    decreases |s|
  {
    if |s| > 1 {
      ParseNumeralOfDigits(s[..|s| - 1]);
    }
  }

  /** `int()` of a non-empty digit string is its decimal value. */
  lemma ParseIntOfDigits(s: string)
    requires |s| > 0 && AllDigits(s)
    ensures ParseInt(s) == Ok(Value(s))
  {
    assert IsDigit(s[0]) && IsDigit(s[|s| - 1]);
    StripFixesTrimmed(s);
    ParseNumeralOfDigits(s);
  }

  /** `int()` rejects the empty string. */
  lemma ParseIntOfEmpty()
    ensures ParseInt("") == Raise(ValueError)
  {
    assert Strip("") == "";
  }

  lemma {:induction false} ValueAppend(a: string, b: string)
    requires AllDigits(a) && AllDigits(b)
    ensures AllDigits(a + b)
    ensures Value(a + b) == Value(a) * Pow10(|b|) + Value(b)
    decreases |b|
  {
    if |b| == 0 {
      assert a + b == a;
    } else {
      var b' := b[..|b| - 1];
      assert (a + b)[..|a + b| - 1] == a + b';
      ValueAppend(a, b');
      ShiftDigit(Value(a), Pow10(|b'|), Value(b'), DigitValue(b[|b| - 1]));
    }
  }

  lemma ShiftDigit(v: nat, p: nat, w: nat, d: nat)
    ensures 10 * (v * p + w) + d == v * (10 * p) + (10 * w + d)
  {
  }

  lemma {:induction false} ValueBound(s: string)
    requires AllDigits(s)
    ensures Value(s) < Pow10(|s|)
    decreases |s|
  {
    if |s| > 0 {
      ValueBound(s[..|s| - 1]);
    }
  }

  /** A higher leading digit outweighs any remainder below the same power. */
  lemma LeadingDigitOutweighs(x: nat, y: nat, p: nat, ra: nat, rb: nat)
    requires x < y && ra < p
    ensures x * p + ra < y * p + rb
  {
    assert y * p == (y - x - 1) * p + x * p + p;
  }

  // ---------------------------------------------------------------------------
  // Lexicographic comparison

  /** `a < b` on Python strings: code-point lexicographic order, where a proper
      prefix is smaller. */
  predicate StrLess(a: string, b: string)
    decreases |a|
  {
    if |a| == 0 then |b| > 0
    else if |b| == 0 then false
    else if a[0] != b[0] then a[0] < b[0]
    else StrLess(a[1..], b[1..])
  }

  /** The leading digit of a digit string weighs `Pow10` of the rest's length. */
  lemma ValueFront(s: string)
    requires AllDigits(s) && |s| > 0
    ensures Value(s) == DigitValue(s[0]) * Pow10(|s| - 1) + Value(s[1..])
    ensures Value(s[1..]) < Pow10(|s| - 1)
  {
    assert s == [s[0]] + s[1..];
    ValueAppend([s[0]], s[1..]);
    assert Value([s[0]]) == DigitValue(s[0]);
    ValueBound(s[1..]);
  }

  /** Of two digit strings of one length that differ in the first digit, the
      one with the smaller first digit is numerically smaller. */
  lemma FirstDigitDecides(a: string, b: string)
    requires AllDigits(a) && AllDigits(b) && |a| == |b| > 0 && a[0] < b[0]
    ensures Value(a) < Value(b)
  {
    ValueFront(a);
    ValueFront(b);
    LeadingDigitOutweighs(DigitValue(a[0]), DigitValue(b[0]), Pow10(|a| - 1), Value(a[1..]), Value(b[1..]));
  }

  /** On digit strings of one length, string order is numeric order. */
  lemma {:induction false} StrLessMatchesValueOnEqualLength(a: string, b: string)
    requires AllDigits(a) && AllDigits(b) && |a| == |b|
    ensures StrLess(a, b) <==> Value(a) < Value(b)
    decreases |a|
  {
    if |a| > 0 {
      if a[0] == b[0] {
        ValueFront(a);
        ValueFront(b);
        StrLessMatchesValueOnEqualLength(a[1..], b[1..]);
      } else if a[0] < b[0] {
        FirstDigitDecides(a, b);
      } else {
        FirstDigitDecides(b, a);
      }
    }
  }

  // ---------------------------------------------------------------------------
  // Slicing, padding, replacing

  /** `s[:-4]` */
  function DropLast4(s: string): (r: string)
    ensures |r| == if |s| >= 4 then |s| - 4 else 0
    ensures StartsWith(s, r)
  {
    if |s| >= 4 then s[..|s| - 4] else ""
  }

  function Zeros(n: nat): (r: string)
    ensures |r| == n
  {
    if n == 0 then "" else "0" + Zeros(n - 1)
  }

  /** `n` zeros are all `0`. */
  lemma {:induction false} ZerosAreZeros(n: nat)
    ensures forall i :: 0 <= i < n ==> Zeros(n)[i] == '0'
  {
    if n > 0 {
      ZerosAreZeros(n - 1);
    }
  }

  /** `s.zfill(width)`: zeros are inserted after a leading sign, or at the
      front; a string already `width` long is returned as it is. */
  function ZFill(s: string, width: nat): (r: string)
    ensures |r| == if |s| >= width then |s| else width
  {
    if |s| >= width then s
    else if |s| > 0 && (s[0] == '+' || s[0] == '-') then [s[0]] + Zeros(width - |s|) + s[1..]
    else Zeros(width - |s|) + s
  }

  lemma {:induction false} ZerosValue(n: nat)
    ensures AllDigits(Zeros(n)) && Value(Zeros(n)) == 0
  {
    var z := Zeros(n);
    if n > 0 {
      ZerosValue(n - 1);
      ZerosAreZeros(n);
      ZerosAreZeros(n - 1);
      assert z == Zeros(n - 1) + "0";
    }
  }

  /** Padding a digit string keeps it a digit string with the same value and
      keeps its digits at the end: zfill never truncates. */
  lemma ZFillOfDigits(s: string, width: nat)
    requires AllDigits(s)
    ensures AllDigits(ZFill(s, width)) && Value(ZFill(s, width)) == Value(s)
    ensures EndsWith(ZFill(s, width), s)
  {
    if |s| < width {
      ZerosValue(width - |s|);
      ValueAppend(Zeros(width - |s|), s);
    }
  }

  /** `s.rsplit(sep, 1)[0]`: the text before the last `sep`, or all of `s`
      when there is no `sep`. */
  function BeforeLast(s: string, sep: char): (r: string)
    decreases |s|
  {
    if |s| == 0 then s
    else if s[|s| - 1] == sep then s[..|s| - 1]
    else if sep in s[..|s| - 1] then BeforeLast(s[..|s| - 1], sep)
    else s
  }

  /** Without `sep` the whole string is kept; otherwise what is kept is a
      prefix followed by `sep`, with no `sep` after it. */
  lemma {:induction false} BeforeLastSplits(s: string, sep: char)
    ensures sep !in s ==> BeforeLast(s, sep) == s
    ensures sep in s ==>
      var r := BeforeLast(s, sep);
      |r| < |s| && s[..|r|] == r && s[|r|] == sep && sep !in s[|r| + 1..]
    decreases |s|
  {
    if |s| > 0 && s[|s| - 1] != sep && sep in s[..|s| - 1] {
      BeforeLastSplits(s[..|s| - 1], sep);
      var r := BeforeLast(s, sep);
      assert s[|r| + 1..] == s[..|s| - 1][|r| + 1..] + [s[|s| - 1]];
    }
  }

  /** The text before a last separator is what precedes it. */
  lemma {:induction false} BeforeLastAppend(a: string, b: string, sep: char)
    requires sep !in b
    ensures BeforeLast(a + [sep] + b, sep) == a
    decreases |b|
  {
    var s := a + [sep] + b;
    if |b| == 0 {
      assert s[..|s| - 1] == a;
    } else {
      var b' := b[..|b| - 1];
      assert s[..|s| - 1] == a + [sep] + b';
      assert s[..|s| - 1][|a|] == sep;
      BeforeLastAppend(a, b', sep);
    }
  }

  /** `s.replace(c, t)` for a one-character `c`. */
  function ReplaceChar(s: string, c: char, t: string): string
    decreases |s|
  {
    if |s| == 0 then "" else (if s[0] == c then t else [s[0]]) + ReplaceChar(s[1..], c, t)
  }

  /** Replacing a character by itself changes nothing. */
  lemma {:induction false} ReplaceCharBySelf(s: string, c: char)
    ensures ReplaceChar(s, c, [c]) == s
    decreases |s|
  {
    if |s| > 0 {
      ReplaceCharBySelf(s[1..], c);
      assert [s[0]] + s[1..] == s;
    }
  }

  /** After replacing `c` by a text without `c`, no `c` is left. */
  lemma {:induction false} ReplaceCharRemoves(s: string, c: char, t: string)
    requires c !in t
    ensures c !in ReplaceChar(s, c, t)
    decreases |s|
  {
    if |s| > 0 {
      ReplaceCharRemoves(s[1..], c, t);
    }
  }

  /** A string without `c` is left alone. */
  lemma {:induction false} ReplaceCharAbsent(s: string, c: char, t: string)
    requires c !in s
    ensures ReplaceChar(s, c, t) == s
    decreases |s|
  {
    if |s| > 0 {
      ReplaceCharAbsent(s[1..], c, t);
      assert [s[0]] + s[1..] == s;
    }
  }

  /** `s.replace("\r\n", "\n")`, scanning left to right. */
  function ReplaceCrLf(s: string): string
    decreases |s|
  {
    if |s| >= 2 && s[0] == '\r' && s[1] == '\n' then "\n" + ReplaceCrLf(s[2..])
    else if |s| == 0 then ""
    else [s[0]] + ReplaceCrLf(s[1..])
  }

  /** A string without CR is left alone by the CR LF replacement. */
  lemma {:induction false} ReplaceCrLfWithoutCr(s: string)
    requires '\r' !in s
    ensures ReplaceCrLf(s) == s
    decreases |s|
  {
    if |s| > 0 {
      ReplaceCrLfWithoutCr(s[1..]);
      assert [s[0]] + s[1..] == s;
    }
  }

  // ---------------------------------------------------------------------------
  // splitlines

  /** The line boundaries of `str.splitlines()`. */
  predicate IsLineBreak(c: char) {
    c == '\n' || c == '\r' || c == '\U{0B}' || c == '\U{0C}' || c == '\U{1C}' || c == '\U{1D}'
    || c == '\U{1E}' || c == '\U{85}' || c == '\U{2028}' || c == '\U{2029}'
  }

  /** The pieces between line boundaries, "\r\n" counting as one boundary; like
      `Split`, there is always a last (possibly empty) piece. */
  function LinePieces(s: string): (pieces: seq<string>)
    ensures |pieces| >= 1
    decreases |s|
  {
    if |s| == 0 then [""]
    else if IsLineBreak(s[0]) then
      var k := if s[0] == '\r' && |s| > 1 && s[1] == '\n' then 2 else 1;
      [""] + LinePieces(s[k..])
    else
      var rest := LinePieces(s[1..]);
      [[s[0]] + rest[0]] + rest[1..]
  }

  /** `s.splitlines()`: the final boundary does not start an empty line, and
      the empty string has no lines. */
  function SplitLines(s: string): (lines: seq<string>)
  {
    var pieces := LinePieces(s);
    if pieces[|pieces| - 1] == "" then pieces[..|pieces| - 1] else pieces
  }

  /** No piece holds a line boundary. */
  lemma {:induction false} LinePiecesHaveNoBreaks(s: string)
    ensures forall k, i :: 0 <= k < |LinePieces(s)| && 0 <= i < |LinePieces(s)[k]| ==> !IsLineBreak(LinePieces(s)[k][i])
    decreases |s|
  {
    if |s| > 0 {
      if IsLineBreak(s[0]) {
        LinePiecesHaveNoBreaks(s[if s[0] == '\r' && |s| > 1 && s[1] == '\n' then 2 else 1..]);
      } else {
        LinePiecesHaveNoBreaks(s[1..]);
      }
    }
  }

  /** No line holds a line boundary. */
  lemma SplitLinesHaveNoBreaks(s: string)
    ensures forall k, i :: 0 <= k < |SplitLines(s)| && 0 <= i < |SplitLines(s)[k]| ==> !IsLineBreak(SplitLines(s)[k][i])
  {
    LinePiecesHaveNoBreaks(s);
  }
}
