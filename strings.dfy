/** The few JavaScript string operations the core relies on:
    `startsWith`, `split`/`join` on a one-character separator, `trim`,
    template-literal rendering of an integer (`${n}`) and `Number(s)`. */
module Strings {
  import opened Wrappers
  import opened Seqs

  /** An optional string that is truthy: present and not empty. This is
      also what Mongoose's `required` asks of a String path. */
  predicate Present(o: Option<string>) {
    o.Some? && o.value != ""
  }

  predicate StartsWith(s: string, prefix: string) {
    |prefix| <= |s| && s[..|prefix|] == prefix
  }

  /** Every occurrence of `c` in `s` replaced by `d`. */
  function ReplaceChar(s: string, c: char, d: string): string {
    if s == [] then [] else (if s[0] == c then d else [s[0]]) + ReplaceChar(s[1..], c, d)
  }

  /** `s.split(sep)` for a one-character separator: the pieces between
      consecutive separators, always at least one (`"".split(",")` is `[""]`). */
  function Split(s: string, sep: char): (parts: seq<string>)
    ensures |parts| >= 1
    ensures forall i, k | 0 <= i < |parts| && 0 <= k < |parts[i]| :: parts[i][k] != sep
    ensures |parts| - 1 == |s| - |ReplaceChar(s, sep, [])|
  {
    if s == [] then [[]]
    else
      var rest := Split(s[1..], sep);
      if s[0] == sep then [[]] + rest
      else [[s[0]] + rest[0]] + rest[1..]
  }

  /** `parts.join(sep)`. */
  function Join(parts: seq<string>, sep: string): string {
    if |parts| == 0 then []
    else if |parts| == 1 then parts[0]
    else parts[0] + sep + Join(parts[1..], sep)
  }

  /** `s.split(c).join(d)` replaces every `c` by `d`. */
  lemma {:induction false} JoinSplit(s: string, c: char, d: string)
    ensures Join(Split(s, c), d) == ReplaceChar(s, c, d)
  {
    if s != [] {
      var rest := Split(s[1..], c);
      JoinSplit(s[1..], c, d);
      if s[0] == c {
        JoinEmptyHead(rest, d);
      } else {
        JoinExtendHead(s[0], rest, d);
      }
    }
  }

  /** An empty first piece contributes only its separator. */
  lemma JoinEmptyHead(rest: seq<string>, d: string)
    requires |rest| >= 1
    ensures Join([[]] + rest, d) == d + Join(rest, d)
  {
    assert ([[]] + rest)[1..] == rest;
  }

  /** Prefixing the first piece with a character prefixes the join. */
  lemma JoinExtendHead(x: char, rest: seq<string>, d: string)
    requires |rest| >= 1
    ensures Join([[x] + rest[0]] + rest[1..], d) == [x] + Join(rest, d)
  {
    var parts := [[x] + rest[0]] + rest[1..];
    if |rest| > 1 {
      assert parts[1..] == rest[1..];
    }
  }

  /** Joining with the separator itself gives the input back. */
  lemma {:induction false} ReplaceCharSelf(s: string, c: char)
    ensures ReplaceChar(s, c, [c]) == s
  {
    if s != [] { ReplaceCharSelf(s[1..], c); }
  }

  /** The pieces split off before the first separator: splitting `p + [sep] + q`
      where `p` holds no separator gives `p` followed by the pieces of `q`. */
  lemma {:induction false} SplitFirst(p: string, sep: char, q: string)
    requires forall k | 0 <= k < |p| :: p[k] != sep
    ensures Split(p + [sep] + q, sep) == [p] + Split(q, sep)
  {
    if p == [] {
      assert p + [sep] + q == [sep] + q;
      assert ([sep] + q)[1..] == q;
    } else {
      var s := p + [sep] + q;
      assert s[0] == p[0];
      assert s[1..] == p[1..] + [sep] + q;
      SplitFirst(p[1..], sep, q);
      var rest := Split(s[1..], sep);
      assert rest == [p[1..]] + Split(q, sep);
      assert [p[0]] + rest[0] == p;
      assert rest[1..] == Split(q, sep);
    }
  }

  /** Joining pieces that hold no separator and splitting the result gives
      the pieces back: `split` undoes `join`. */
  lemma {:induction false} SplitJoin(parts: seq<string>, sep: char)
    requires |parts| >= 1
    requires forall i, k | 0 <= i < |parts| && 0 <= k < |parts[i]| :: parts[i][k] != sep
    ensures Split(Join(parts, [sep]), sep) == parts
    decreases |parts|
  {
    if |parts| == 1 {
      SplitNone(parts[0], sep);
    } else {
      SplitJoin(parts[1..], sep);
      assert forall k | 0 <= k < |parts[0]| :: parts[0][k] != sep;
      SplitFirst(parts[0], sep, Join(parts[1..], [sep]));
      assert [parts[0]] + parts[1..] == parts;
    }
  }

  /** A string without the separator splits into itself. */
  lemma {:induction false} SplitNone(s: string, sep: char)
    requires forall k | 0 <= k < |s| :: s[k] != sep
    ensures Split(s, sep) == [s]
  {
    if s != [] {
      SplitNone(s[1..], sep);
      assert [s[0]] + s[1..] == s;
    }
  }

  // ---------------------------------------------------------------------------
  // White space, as String.prototype.trim and Number() understand it

  /** ECMAScript WhiteSpace and LineTerminator code points. */
  predicate IsJsWhitespace(c: char) {
    c == '\t' || c == '\n' || c == '\U{000B}' || c == '\U{000C}' || c == '\r' || c == ' '
    || c == '\U{00A0}' || c == '\U{1680}' || ('\U{2000}' <= c <= '\U{200A}')
    || c == '\U{2028}' || c == '\U{2029}' || c == '\U{202F}' || c == '\U{205F}'
    || c == '\U{3000}' || c == '\U{FEFF}'
  }

  /** Every character of `s[i..j]` is white space. */
  predicate WhitespaceRange(s: string, i: nat, j: nat)
    requires i <= j <= |s|
    decreases j - i
  {
    i == j || (IsJsWhitespace(s[i]) && WhitespaceRange(s, i + 1, j))
  }

  /** How many white-space characters `s[i..]` starts with. */
  function LeadingSpace(s: string, i: nat): (n: nat)
    requires i <= |s|
    ensures i + n <= |s|
    decreases |s| - i
  {
    if i < |s| && IsJsWhitespace(s[i]) then 1 + LeadingSpace(s, i + 1) else 0
  }

  /** How many white-space characters `s[lo..hi]` ends with. */
  function TrailingSpace(s: string, lo: nat, hi: nat): (n: nat)
    requires lo <= hi <= |s|
    ensures lo + n <= hi
    decreases hi - lo
  {
    if lo < hi && IsJsWhitespace(s[hi - 1]) then 1 + TrailingSpace(s, lo, hi - 1) else 0
  }

  /** `s.trim()`: `s` without its leading and trailing white space. */
  function Trim(s: string): (r: string)
    ensures |r| <= |s|
  {
    var a := LeadingSpace(s, 0);
    s[a..|s| - TrailingSpace(s, a, |s|)]
  }

  lemma {:induction false} LeadingSpaceStops(s: string, i: nat)
    requires i <= |s|
    ensures i + LeadingSpace(s, i) == |s| || !IsJsWhitespace(s[i + LeadingSpace(s, i)])
    ensures WhitespaceRange(s, i, i + LeadingSpace(s, i))
    decreases |s| - i
  {
    if i < |s| && IsJsWhitespace(s[i]) {
      LeadingSpaceStops(s, i + 1);
    }
  }

  lemma {:induction false} TrailingSpaceStops(s: string, lo: nat, hi: nat)
    requires lo <= hi <= |s|
    ensures TrailingSpace(s, lo, hi) == hi - lo || !IsJsWhitespace(s[hi - TrailingSpace(s, lo, hi) - 1])
    ensures WhitespaceRange(s, hi - TrailingSpace(s, lo, hi), hi)
    decreases hi - lo
  {
    if lo < hi && IsJsWhitespace(s[hi - 1]) {
      TrailingSpaceStops(s, lo, hi - 1);
      WhitespaceRangeSnoc(s, hi - TrailingSpace(s, lo, hi), hi - 1);
    }
  }

  lemma {:induction false} WhitespaceRangeSnoc(s: string, i: nat, j: nat)
    requires i <= j < |s| && WhitespaceRange(s, i, j) && IsJsWhitespace(s[j])
    ensures WhitespaceRange(s, i, j + 1)
    decreases j - i
  {
    if i < j {
      WhitespaceRangeSnoc(s, i + 1, j);
    }
  }

  /** `s.trim()` is the middle of `s` between a white-space prefix and a
      white-space suffix, and neither end of it is white space. */
  lemma TrimMiddle(s: string)
    ensures var a := LeadingSpace(s, 0);
      var b := TrailingSpace(s, a, |s|);
      && Trim(s) == s[a..|s| - b]
      && WhitespaceRange(s, 0, a) && WhitespaceRange(s, |s| - b, |s|)
      && (Trim(s) == [] || (!IsJsWhitespace(Trim(s)[0]) && !IsJsWhitespace(Trim(s)[|Trim(s)| - 1])))
  {
    var a := LeadingSpace(s, 0);
    LeadingSpaceStops(s, 0);
    TrailingSpaceStops(s, a, |s|);
  }

  /** A string with no white space at either end is its own trim. */
  lemma TrimUnchanged(s: string)
    requires s == [] || (!IsJsWhitespace(s[0]) && !IsJsWhitespace(s[|s| - 1]))
    ensures Trim(s) == s
  {
  }

  // ---------------------------------------------------------------------------
  // Decimal integers: `${n}` and Number(s)

  predicate IsDigit(c: char) { '0' <= c <= '9' }

  function DigitChar(d: nat): char
    requires d < 10
  {
    "0123456789"[d]
  }

  function DigitValue(c: char): nat
    requires IsDigit(c)
  {
    (c as int - '0' as int) as nat
  }

  predicate AllDigits(s: string) {
    |s| >= 1 && forall k | 0 <= k < |s| :: IsDigit(s[k])
  }

  /** The decimal digits of a natural number, most significant first. */
  function Digits(n: nat): (r: string)
    ensures AllDigits(r)
  {
    if n < 10 then [DigitChar(n)] else Digits(n / 10) + [DigitChar(n % 10)]
  }

  /** `${n}`: the template-literal rendering of an integer. */
  function DecimalString(n: int): string {
    if n < 0 then "-" + Digits(-n) else Digits(n)
  }

  /** The value of a non-empty string of decimal digits. */
  function DigitsValue(s: string): nat
    requires AllDigits(s)
  {
    if |s| == 1 then DigitValue(s[0])
    else DigitsValue(s[..|s| - 1]) * 10 + DigitValue(s[|s| - 1])
  }

  /** `Number(s)` for the forms this model covers: after trimming white space,
      the empty string is 0 and an optional sign followed by decimal digits is
      that integer. `None` stands for NaN (and for the fractional, exponent and
      hexadecimal forms that the model does not cover). */
  function StringToNumber(s: string): Option<int> {
    TrimmedToNumber(Trim(s))
  }

  /** `Number` of a string that has already been trimmed. */
  function TrimmedToNumber(t: string): Option<int> {
    if t == [] then Some(0)
    else if t[0] == '-' && AllDigits(t[1..]) then Some(0 - DigitsValue(t[1..]) as int)
    else if t[0] == '+' && AllDigits(t[1..]) then Some(DigitsValue(t[1..]))
    else if AllDigits(t) then Some(DigitsValue(t))
    else None
  }

  lemma {:induction false} DigitsValueOfDigits(n: nat)
    ensures DigitsValue(Digits(n)) == n
  {
    if n >= 10 {
      var r := Digits(n);
      assert r[..|r| - 1] == Digits(n / 10);
      DigitsValueOfDigits(n / 10);
    }
  }

  /** `Number(`${n}`)` is `n`: the rendering and the parse are inverse. */
  lemma NumberOfDecimalString(n: int)
    ensures StringToNumber(DecimalString(n)) == Some(n)
  {
    if n < 0 {
      NumberOfNegative(n);
    } else {
      NumberOfDigits(n);
    }
  }

  lemma NumberOfDigits(n: nat)
    ensures StringToNumber(DecimalString(n)) == Some(n)
  {
    TrimDecimal(n);
    NumberOfUntrimmed(DecimalString(n));
    TrimmedOfDigits(n);
  }

  lemma NumberOfNegative(n: int)
    requires n < 0
    ensures StringToNumber(DecimalString(n)) == Some(n)
  {
    TrimDecimal(n);
    NumberOfUntrimmed(DecimalString(n));
    TrimmedOfNegative(n);
  }

  lemma TrimmedOfDigits(n: nat)
    ensures TrimmedToNumber(DecimalString(n)) == Some(n)
  {
    NumberOfUnsigned(DecimalString(n));
    DigitsValueOfDigits(n);
  }

  lemma TrimmedOfNegative(n: int)
    requires n < 0
    ensures TrimmedToNumber(DecimalString(n)) == Some(n)
  {
    var m: nat := -n;
    NumberOfMinus(DecimalString(n), Digits(m));
    DigitsValueOfDigits(m);
    assert 0 - DigitsValue(Digits(m)) == n;
  }

  lemma NumberOfUntrimmed(s: string)
    requires Trim(s) == s
    ensures StringToNumber(s) == TrimmedToNumber(s)
  {
  }

  /** `Number` of digits with no white space around them. */
  lemma NumberOfUnsigned(s: string)
    requires AllDigits(s)
    ensures TrimmedToNumber(s) == Some(DigitsValue(s))
  {
    assert IsDigit(s[0]);
  }

  /** `Number` of a minus sign and digits with no white space around them. */
  lemma NumberOfMinus(s: string, d: string)
    requires s == "-" + d && AllDigits(d)
    ensures TrimmedToNumber(s) == Some(0 - DigitsValue(d))
  {
    ConsAppend('-', d);
    assert s[1..] == d;
  }

  lemma TrimDecimal(n: int)
    ensures Trim(DecimalString(n)) == DecimalString(n)
  {
    var s := DecimalString(n);
    DecimalStringHasNoWhitespace(n);
    assert !IsJsWhitespace(s[0]) && !IsJsWhitespace(s[|s| - 1]);
    TrimUnchanged(s);
  }

  lemma DecimalStringHasNoWhitespace(n: int)
    ensures forall k | 0 <= k < |DecimalString(n)| :: !IsJsWhitespace(DecimalString(n)[k])
  {
    var s := DecimalString(n);
    forall k | 0 <= k < |s| ensures !IsJsWhitespace(s[k]) {
      if n < 0 && k > 0 {
        assert s[k] == Digits(-n)[k - 1];
      }
      assert IsDigit(s[k]) || s[k] == '-';
    }
  }

  /** The most significant decimal digit of `n`. */
  function LeadingDigit(n: nat): (d: nat)
    ensures d < 10
  {
    if n < 10 then n else LeadingDigit(n / 10)
  }

  lemma {:induction false} DigitsStartWithLeadingDigit(n: nat)
    ensures Digits(n)[0] == DigitChar(LeadingDigit(n))
  {
    if n >= 10 { DigitsStartWithLeadingDigit(n / 10); }
  }
}
