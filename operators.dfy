/** The operator rewrite of `APIFeatures.filter`: every whole word `gte`,
    `gt`, `lt` or `lte` of the serialized filter gets a `$` in front of it, so
    that `?price[gte]=500` becomes the MongoDB condition `{price: {$gte: "500"}}`.

    A word is a maximal run of the characters JavaScript's `\b` counts as
    word characters (ASCII letters, digits and `_`). `Rewrite` works run by
    run; `RewriteAt` is the reference reading of the regular expression
    `\b(gte|gt|lt|lte)\b` with the `g` flag, position by position. */
module Operators {
  import opened Wrappers
  import opened Strings
  import opened Json
  import opened Seqs

  predicate IsWordChar(c: char) {
    'a' <= c <= 'z' || 'A' <= c <= 'Z' || '0' <= c <= '9' || c == '_'
  }

  predicate AllWordChars(s: string) {
    forall i :: 0 <= i < |s| ==> IsWordChar(s[i])
  }

  predicate NoWordChars(s: string) {
    forall i :: 0 <= i < |s| ==> !IsWordChar(s[i])
  }

  /** The length of the word run that `s` starts with. */
  function RunLength(s: string): (n: nat)
    ensures n <= |s|
    ensures n == |s| || !IsWordChar(s[n])
  {
    if s == [] || !IsWordChar(s[0]) then 0 else 1 + RunLength(s[1..])
  }

  /** The run `RunLength` measures is made of word characters. */
  lemma {:induction false} RunLengthWords(s: string)
    ensures AllWordChars(s[..RunLength(s)])
    decreases |s|
  {
    if s != [] && IsWordChar(s[0]) {
      var m := RunLength(s[1..]);
      RunLengthWords(s[1..]);
      assert s[..1 + m] == [s[0]] + s[1..][..m];
    }
  }

  predicate IsOperator(w: string) {
    w == "gte" || w == "gt" || w == "lt" || w == "lte"
  }

  /** `$${matchedWord}` for an operator word, the word itself otherwise. */
  function Tag(w: string): string {
    if IsOperator(w) then "$" + w else w
  }

  /** `s.replace(/\b(gte|gt|lt|lte)\b/g, ...)`, word run by word run. */
  function Rewrite(s: string): string
    decreases |s|
  {
    if s == [] then []
    else if !IsWordChar(s[0]) then [s[0]] + Rewrite(s[1..])
    else
      var n := RunLength(s);
      Tag(s[..n]) + Rewrite(s[n..])
  }

  /** How many word runs of `s` are operator words. */
  function OperatorCount(s: string): nat
    decreases |s|
  {
    if s == [] then 0
    else if !IsWordChar(s[0]) then OperatorCount(s[1..])
    else
      var n := RunLength(s);
      (if IsOperator(s[..n]) then 1 else 0) + OperatorCount(s[n..])
  }

  // ---------------------------------------------------------------------------
  // The regular expression, position by position

  /** The regular expression matches the word `w` at position `i`: a word
      boundary, `w`, a word boundary. */
  predicate MatchAt(s: string, i: nat, w: string) {
    LiteralAt(s, i, w) && i + |w| <= |s|
    && (i == 0 || !IsWordChar(s[i - 1]))
    && (i + |w| == |s| || !IsWordChar(s[i + |w|]))
  }

  /** The characters of `w` appear in `s` from position `i` on, compared one
      at a time as a regular-expression engine does. */
  predicate LiteralAt(s: string, i: nat, w: string)
    decreases |w|
  {
    w == [] || (i < |s| && s[i] == w[0] && LiteralAt(s, i + 1, w[1..]))
  }

  lemma {:induction false} LiteralAtSlice(s: string, i: nat, w: string)
    requires i <= |s|
    ensures LiteralAt(s, i, w) <==> i + |w| <= |s| && s[i..i + |w|] == w
    decreases |w|
  {
    if w != [] && i < |s| {
      LiteralAtSlice(s, i + 1, w[1..]);
      if i + |w| <= |s| {
        SliceCons(s, i, i + |w|);
        ConsTail(w);
        ConsEq(s[i], s[i + 1..i + |w|], w[0], w[1..]);
      }
    }
  }

  predicate OperatorAt(s: string, i: nat) {
    MatchAt(s, i, "gte") || MatchAt(s, i, "gt") || MatchAt(s, i, "lt") || MatchAt(s, i, "lte")
  }

  /** The text from position `i` on, with `$` inserted wherever a match starts. */
  function RewriteAt(s: string, i: nat): string
    requires i <= |s|
    decreases |s| - i
  {
    if i == |s| then [] else Mark(s, i) + [s[i]] + RewriteAt(s, i + 1)
  }

  /** What the replacement puts before position `i`. */
  function Mark(s: string, i: nat): string {
    if OperatorAt(s, i) then "$" else []
  }

  /** Every character of `s[i..j]` is a word character. */
  predicate WordRange(s: string, i: nat, j: nat)
    requires i <= j <= |s|
  {
    AllWordChars(s[i..j])
  }

  /** Inside a word run no match can start. */
  lemma {:induction false} RewriteAtInsideRun(s: string, i: nat, j: nat)
    requires i < j <= |s|
    requires WordRange(s, i, j)
    requires j == |s| || !IsWordChar(s[j])
    ensures RewriteAt(s, i + 1) == s[i + 1..j] + RewriteAt(s, j)
    decreases j - i
  {
    if i + 1 < j {
      assert IsWordChar(s[i]);
      NoMatchAfterWordChar(s, i);
      RewriteAtStep(s, i + 1);
      RewriteAtInsideRun(s, i + 1, j);
      SliceCons(s, i + 1, j);
      AppendAssoc([s[i + 1]], s[i + 2..j], RewriteAt(s, j));
    }
  }

  lemma RewriteAtStep(s: string, i: nat)
    requires i < |s|
    ensures RewriteAt(s, i) == Mark(s, i) + [s[i]] + RewriteAt(s, i + 1)
  {
  }

  /** No match starts right after a word character. */
  lemma NoMatchAfterWordChar(s: string, i: nat)
    requires i + 1 < |s| && IsWordChar(s[i])
    ensures Mark(s, i + 1) == []
  {
  }

  /** No match starts at a character that is not a word character. */
  lemma NoMatchAtNonWord(s: string, i: nat)
    requires i < |s| && !IsWordChar(s[i])
    ensures Mark(s, i) == []
  {
  }

  /** At the start of a word run, a match starts exactly when the run is an
      operator word. */
  lemma OperatorAtRun(s: string, i: nat, j: nat)
    requires i < j <= |s|
    requires i == 0 || !IsWordChar(s[i - 1])
    requires WordRange(s, i, j)
    requires j == |s| || !IsWordChar(s[j])
    ensures OperatorAt(s, i) <==> IsOperator(s[i..j])
  {
    LiteralAtSlice(s, i, "gte");
    LiteralAtSlice(s, i, "gt");
    LiteralAtSlice(s, i, "lt");
    LiteralAtSlice(s, i, "lte");
  }

  /** The word-run rewrite is the regular expression's replacement. */
  lemma {:induction false} RewriteIsRegexReplace(s: string)
    ensures Rewrite(s) == RewriteAt(s, 0)
  {
    RewriteFrom(s, 0);
    assert s[0..] == s;
  }

  /** No word run crosses position `i`. */
  predicate Boundary(s: string, i: nat)
    requires i <= |s|
  {
    i == 0 || i == |s| || !IsWordChar(s[i - 1]) || !IsWordChar(s[i])
  }

  /** A word run starts at position `i`. */
  predicate WordStart(s: string, i: nat) {
    i < |s| && IsWordChar(s[i]) && (i == 0 || !IsWordChar(s[i - 1]))
  }

  /** From position `i` on, the word-run rewrite and the regular expression
      produce the same text. */
  predicate Agrees(s: string, i: nat)
    requires i <= |s|
  {
    Rewrite(s[i..]) == RewriteAt(s, i)
  }

  lemma {:induction false} RewriteFrom(s: string, i: nat)
    requires i <= |s|
    requires Boundary(s, i)
    ensures Agrees(s, i)
    decreases |s| - i, 1
  {
    if i < |s| {
      if !IsWordChar(s[i]) {
        RewriteFrom(s, i + 1);
        RewriteFromNonWord(s, i);
      } else {
        assert WordStart(s, i);
        RewriteFromWord(s, i);
      }
    }
  }

  lemma {:induction false} RewriteFromWord(s: string, i: nat)
    requires WordStart(s, i)
    ensures Agrees(s, i)
    decreases |s| - i, 0
  {
    var n := RunEnd(s, i);
    RewriteFrom(s, i + n);
    RewriteFromWordStep(s, i, n);
  }

  lemma RewriteFromWordStep(s: string, i: nat, n: nat)
    requires WordStart(s, i)
    requires n == RunLength(s[i..]) && i + n <= |s|
    requires Agrees(s, i + n)
    ensures Agrees(s, i)
  {
    RewriteAtWordRun(s, i, n);
    RewriteRunSplit(s, i, n);
  }

  /** Where the word run starting at position `i` ends. */
  lemma RunEnd(s: string, i: nat) returns (n: nat)
    requires WordStart(s, i)
    ensures n == RunLength(s[i..]) && i + n <= |s|
    ensures Boundary(s, i + n)
  {
    n := RunAt(s, i);
  }

  lemma RewriteAtWordRun(s: string, i: nat, n: nat)
    requires WordStart(s, i)
    requires n == RunLength(s[i..])
    ensures i + n <= |s|
    ensures RewriteAt(s, i) == Tag(s[i..i + n]) + RewriteAt(s, i + n)
  {
    var m := RunAt(s, i);
    RewriteAtRun(s, i, n);
  }

  lemma RewriteFromNonWord(s: string, i: nat)
    requires i < |s| && !IsWordChar(s[i])
    requires Agrees(s, i + 1)
    ensures Agrees(s, i)
  {
    NoMatchAtNonWord(s, i);
    RewriteAtStep(s, i);
    DropCons(s, i);
    RewriteNonWordStep(s[i..]);
  }

  /** The word run starting at position `i`, in terms of `s` itself. */
  lemma RunAt(s: string, i: nat) returns (n: nat)
    requires i < |s| && IsWordChar(s[i])
    ensures n == RunLength(s[i..]) && 0 < n && i + n <= |s|
    ensures WordRange(s, i, i + n)
    ensures i + n == |s| || !IsWordChar(s[i + n])
  {
    var t := s[i..];
    n := RunLength(t);
    RunLengthWords(t);
    assert t[..n] == s[i..i + n];
    forall k | i <= k < i + n ensures IsWordChar(s[k]) { assert s[k] == t[..n][k - i]; }
    if n < |t| { assert t[n] == s[i + n]; }
  }

  /** `Rewrite` on the suffix at `i` tags the run found there. */
  lemma RewriteRunSplit(s: string, i: nat, n: nat)
    requires i < |s| && IsWordChar(s[i])
    requires n == RunLength(s[i..]) && i + n <= |s|
    ensures Rewrite(s[i..]) == Tag(s[i..i + n]) + Rewrite(s[i + n..])
  {
    DropSlices(s, i, n);
    DropCons(s, i);
    RewriteWordStep(s[i..]);
  }

  /** From the start of a word run, the reference rewrite tags the whole run. */
  lemma RewriteAtRun(s: string, i: nat, n: nat)
    requires 0 < n && i + n <= |s|
    requires WordRange(s, i, i + n)
    requires i == 0 || !IsWordChar(s[i - 1])
    requires i + n == |s| || !IsWordChar(s[i + n])
    ensures RewriteAt(s, i) == Tag(s[i..i + n]) + RewriteAt(s, i + n)
  {
    RewriteAtInsideRun(s, i, i + n);
    RewriteAtRunJoin(s, i, n);
  }

  lemma RewriteAtRunJoin(s: string, i: nat, n: nat)
    requires 0 < n && i + n <= |s|
    requires WordRange(s, i, i + n)
    requires i == 0 || !IsWordChar(s[i - 1])
    requires i + n == |s| || !IsWordChar(s[i + n])
    requires RewriteAt(s, i + 1) == s[i + 1..i + n] + RewriteAt(s, i + n)
    ensures RewriteAt(s, i) == Tag(s[i..i + n]) + RewriteAt(s, i + n)
  {
    MarkAtRun(s, i, n);
    RewriteAtStep(s, i);
    RegroupRun(Mark(s, i), s, i, n, RewriteAt(s, i + n));
  }

  lemma RegroupRun(m: string, s: string, i: nat, n: nat, r: string)
    requires 0 < n && i + n <= |s|
    ensures m + [s[i]] + (s[i + 1..i + n] + r) == (m + s[i..i + n]) + r
  {
    assert s[i..i + n] == [s[i]] + s[i + 1..i + n];
  }

  lemma MarkAtRun(s: string, i: nat, n: nat)
    requires 0 < n && i + n <= |s|
    requires WordRange(s, i, i + n)
    requires i == 0 || !IsWordChar(s[i - 1])
    requires i + n == |s| || !IsWordChar(s[i + n])
    ensures Mark(s, i) + s[i..i + n] == Tag(s[i..i + n])
  {
    OperatorAtRun(s, i, i + n);
  }

  // ---------------------------------------------------------------------------
  // What the rewrite changes

  /** The rewrite adds one `$` per operator word and nothing else. */
  lemma {:induction false} RewriteLength(s: string)
    ensures |Rewrite(s)| == |s| + OperatorCount(s)
    decreases |s|
  {
    if s != [] {
      if !IsWordChar(s[0]) {
        RewriteLength(s[1..]);
      } else {
        var n := RunLength(s);
        RewriteLength(s[n..]);
      }
    }
  }

  /** Text without operator words is left exactly as it is. */
  lemma {:induction false} RewriteOperatorFree(s: string)
    requires OperatorCount(s) == 0
    ensures Rewrite(s) == s
    decreases |s|
  {
    if s != [] {
      if !IsWordChar(s[0]) {
        RewriteOperatorFree(s[1..]);
        assert [s[0]] + s[1..] == s;
      } else {
        var n := RunLength(s);
        RewriteOperatorFree(s[n..]);
        assert s[..n] + s[n..] == s;
      }
    }
  }

  /** The rewrite leaves the text alone exactly when it holds no operator word. */
  lemma RewriteUnchangedIff(s: string)
    ensures Rewrite(s) == s <==> OperatorCount(s) == 0
  {
    RewriteLength(s);
    if OperatorCount(s) == 0 {
      RewriteOperatorFree(s);
    }
  }

  // ---------------------------------------------------------------------------
  // Rewriting pieces

  lemma {:induction false} RunLengthAppend(a: string, b: string)
    requires b == [] || !IsWordChar(b[0])
    requires AllWordChars(a)
    ensures RunLength(a + b) == |a|
  {
    if a == [] {
      assert a + b == b;
    } else {
      assert (a + b)[1..] == a[1..] + b;
      assert AllWordChars(a[1..]) by {
        forall k | 0 <= k < |a| - 1 ensures IsWordChar(a[1..][k]) { assert a[1..][k] == a[k + 1]; }
      }
      RunLengthAppend(a[1..], b);
    }
  }

  /** The rewrite works on two pieces separately when no word joins them. */
  lemma {:induction false} RewriteAppend(a: string, b: string)
    requires a == [] || b == [] || !IsWordChar(a[|a| - 1]) || !IsWordChar(b[0])
    ensures Rewrite(a + b) == Rewrite(a) + Rewrite(b)
    decreases |a|
  {
    if a == [] {
      assert a + b == b;
    } else if !IsWordChar(a[0]) {
      RewriteAppend(a[1..], b);
      RewriteAppendNonWord(a, b);
    } else {
      var n := RunLength(a);
      RunLengthPrefix(a, b);
      if n < |a| {
        LastOfDrop(a, n);
      }
      RewriteAppend(a[n..], b);
      RewriteAppendWord(a, b, n);
    }
  }

  lemma RewriteAppendNonWord(a: string, b: string)
    requires a != [] && !IsWordChar(a[0])
    requires Rewrite(a[1..] + b) == Rewrite(a[1..]) + Rewrite(b)
    ensures Rewrite(a + b) == Rewrite(a) + Rewrite(b)
  {
    RewriteNonWordStep(a);
    TailOfAppend(a, b);
    RewriteNonWordStep(a + b);
    AppendAssoc([a[0]], Rewrite(a[1..]), Rewrite(b));
  }

  lemma RewriteAppendWord(a: string, b: string, n: nat)
    requires a != [] && IsWordChar(a[0]) && n == RunLength(a) && RunLength(a + b) == n
    requires Rewrite(a[n..] + b) == Rewrite(a[n..]) + Rewrite(b)
    ensures Rewrite(a + b) == Rewrite(a) + Rewrite(b)
  {
    RewriteWordStep(a);
    TailOfAppend(a, b);
    RewriteWordStep(a + b);
    SliceOfAppend(a, n, b);
    AppendAssoc(Tag(a[..n]), Rewrite(a[n..]), Rewrite(b));
  }

  lemma RewriteNonWordStep(s: string)
    requires s != [] && !IsWordChar(s[0])
    ensures Rewrite(s) == [s[0]] + Rewrite(s[1..])
  {
  }

  lemma RewriteWordStep(s: string)
    requires s != [] && IsWordChar(s[0])
    ensures Rewrite(s) == Tag(s[..RunLength(s)]) + Rewrite(s[RunLength(s)..])
  {
  }

  /** Appending text to a word-initial string does not lengthen its first
      run, unless the text continues a run that reaches the end. */
  lemma RunLengthPrefix(a: string, b: string)
    requires a != [] && IsWordChar(a[0])
    requires a == [] || b == [] || !IsWordChar(a[|a| - 1]) || !IsWordChar(b[0]) || RunLength(a) < |a|
    ensures RunLength(a + b) == RunLength(a)
  {
    var n := RunLength(a);
    RunLengthWords(a);
    if n < |a| {
      RunLengthAppend(a[..n], a[n..] + b);
      TakeDropAppend(a, n, b);
    } else {
      assert a[..n] == a;
      RunLengthAppend(a, b);
    }
  }

  lemma {:induction false} RewriteNoWordChars(s: string)
    requires NoWordChars(s)
    ensures Rewrite(s) == s
  {
    if s != [] {
      assert NoWordChars(s[1..]) by {
        forall k | 0 <= k < |s| - 1 ensures !IsWordChar(s[1..][k]) { assert s[1..][k] == s[k + 1]; }
      }
      RewriteNoWordChars(s[1..]);
      assert [s[0]] + s[1..] == s;
    }
  }

  /** A word followed by a non-word character is rewritten as one token. */
  lemma RewriteWordThen(w: string, b: string)
    requires w != [] && AllWordChars(w)
    requires b == [] || !IsWordChar(b[0])
    ensures Rewrite(w + b) == Tag(w) + Rewrite(b)
  {
    RunLengthAppend(w, b);
    SliceOfAppend(w, |w|, b);
    TakeAll(w);
    RewriteWordStep(w + b);
  }

  /** Words that merely contain an operator are not operators. */
  lemma RewriteExamplesUntouched()
    ensures Rewrite("gtx") == "gtx"
    ensures Rewrite("lte_a") == "lte_a"
  {
    RewriteWordThen("gtx", []);
    assert "gtx" + [] == "gtx";
    RewriteWordThen("lte_a", []);
    assert "lte_a" + [] == "lte_a";
  }

  // ---------------------------------------------------------------------------
  // The rewrite seen from the filter object

  /** What the rewrite of the serialized text does to one string of the
      filter (a key or a value). A word after a control character is left
      alone: JSON.stringify writes that character as an escape ending in a
      letter or digit (`\n`, `\u0001`), which joins the word, and no operator
      word starts with `b`, `t`, `n`, `f`, `r` or `u`. */
  function RewriteContent(s: string): string
    decreases |s|
  {
    if s == [] then []
    else if IsWordChar(s[0]) then
      var n := RunLength(s);
      Tag(s[..n]) + RewriteContent(s[n..])
    else if s[0] < ' ' then
      var n := RunLength(s[1..]);
      [s[0]] + s[1..][..n] + RewriteContent(s[1..][n..])
    else [s[0]] + RewriteContent(s[1..])
  }

  function RewriteValue(v: Value): Value {
    match v
    case Str(s) => Str(RewriteContent(s))
    case Bool(_) => v
    case Obj(fs) => Obj(RewriteFields(fs))
  }

  function RewriteFields(fs: seq<Field>): seq<Field> {
    if fs == [] then [] else [Field(RewriteContent(fs[0].key), RewriteValue(fs[0].val))] + RewriteFields(fs[1..])
  }

  /** Characters JSON.stringify copies as they are. */
  predicate Plain(s: string) {
    forall i :: 0 <= i < |s| ==> s[i] >= ' ' && s[i] != '"' && s[i] != '\\'
  }

  lemma {:induction false} EscapePlain(s: string)
    requires Plain(s)
    ensures Escape(s) == s
  {
    if s != [] {
      assert Plain(s[1..]) by {
        forall k | 0 <= k < |s| - 1 ensures s[1..][k] >= ' ' && s[1..][k] != '"' && s[1..][k] != '\\' {
          assert s[1..][k] == s[k + 1];
        }
      }
      EscapePlain(s[1..]);
      assert [s[0]] + s[1..] == s;
    }
  }

  lemma EscapeTag(w: string)
    requires AllWordChars(w)
    ensures Escape(Tag(w)) == Tag(w)
  {
    assert Plain(Tag(w)) by {
      if IsOperator(w) {
        forall k | 0 <= k < |Tag(w)| ensures Tag(w)[k] >= ' ' && Tag(w)[k] != '"' && Tag(w)[k] != '\\' {
          if k > 0 { assert Tag(w)[k] == w[k - 1]; }
        }
      }
    }
    EscapePlain(Tag(w));
  }

  /** The escape of a text that starts with a non-word character starts with one. */
  lemma EscapeStartsNonWord(t: string)
    requires t != [] && !IsWordChar(t[0])
    ensures Escape(t) != [] && !IsWordChar(Escape(t)[0])
  {
    assert Escape(t) == EscapeChar(t[0]) + Escape(t[1..]);
  }

  /** A control character is escaped as a backslash and a word that cannot
      begin an operator. */
  lemma EscapeControl(c: char) returns (letters: string)
    requires c < ' '
    ensures ControlLetters(c, letters)
  {
    letters := EscapeChar(c)[1..];
    if c == '\U{0008}' || c == '\t' || c == '\n' || c == '\U{000C}' || c == '\r' {
      EscapeNamedControl(c);
    } else {
      EscapeUnicodeControl(c);
    }
  }

  /** `EscapeChar(c)` is a backslash followed by `letters`, a word that
      cannot begin an operator. */
  predicate ControlLetters(c: char, letters: string) {
    EscapeChar(c) == "\\" + letters
    && letters != [] && AllWordChars(letters) && letters[0] != 'g' && letters[0] != 'l'
  }

  lemma EscapeNamedControl(c: char)
    requires c == '\U{0008}' || c == '\t' || c == '\n' || c == '\U{000C}' || c == '\r'
    ensures ControlLetters(c, EscapeChar(c)[1..])
  {
  }

  lemma EscapeUnicodeControl(c: char)
    requires c < ' '
    requires c != '\U{0008}' && c != '\t' && c != '\n' && c != '\U{000C}' && c != '\r'
    ensures ControlLetters(c, EscapeChar(c)[1..])
  {
    var hi, lo := c as int / 16, c as int % 16;
    var letters := "u00" + [HexDigit(hi), HexDigit(lo)];
    assert EscapeChar(c) == "\\" + letters;
    ConsAppend('\\', letters);
    HexDigitWord(hi);
    HexDigitWord(lo);
  }

  lemma HexDigitWord(d: nat)
    requires d < 16
    ensures IsWordChar(HexDigit(d))
  {
  }

  /** Any other non-word character is escaped without word characters. */
  lemma EscapeOtherNonWord(c: char)
    requires c >= ' ' && !IsWordChar(c)
    ensures NoWordChars(EscapeChar(c))
  {
  }

  lemma NonOperatorStart(w: string)
    requires w != [] && w[0] != 'g' && w[0] != 'l'
    ensures Tag(w) == w
  {
  }

  /** The regular expression applied to an escaped string escapes the string's
      own rewrite. */
  lemma {:induction false} RewriteEscape(s: string)
    ensures Rewrite(Escape(s)) == Escape(RewriteContent(s))
    decreases |s|
  {
    if s == [] {
    } else if IsWordChar(s[0]) {
      var n := RunLength(s);
      var w, rest := s[..n], s[n..];
      RewriteEscape(rest);
      RewriteEscapeWord(s, n);
    } else if s[0] < ' ' {
      var t := s[1..];
      var n := RunLength(t);
      RewriteEscape(t[n..]);
      RewriteEscapeControl(s, n);
    } else {
      RewriteEscape(s[1..]);
      RewriteEscapeOther(s);
    }
  }

  lemma RewriteEscapeWord(s: string, n: nat)
    requires s != [] && IsWordChar(s[0]) && n == RunLength(s)
    requires Rewrite(Escape(s[n..])) == Escape(RewriteContent(s[n..]))
    ensures Rewrite(Escape(s)) == Escape(RewriteContent(s))
  {
    var w, rest := s[..n], s[n..];
    EscapeWordRun(s, n);
    RewriteWordThen(w, Escape(rest));
    RewriteContentWordStep(s);
    EscapeTagThen(w, RewriteContent(rest));
  }

  /** The escape of a text that starts with a word: the word, then the escape
      of the rest, which does not start with a word character. */
  lemma EscapeWordRun(s: string, n: nat)
    requires s != [] && IsWordChar(s[0]) && n == RunLength(s)
    ensures 0 < n && AllWordChars(s[..n])
    ensures Escape(s) == s[..n] + Escape(s[n..])
    ensures Escape(s[n..]) == [] || !IsWordChar(Escape(s[n..])[0])
  {
    RunLengthWords(s);
    TakeDrop(s, n);
    EscapeAppend(s[..n], s[n..]);
    EscapeWord(s[..n]);
    if n < |s| {
      DropCons(s, n);
      EscapeStartsNonWord(s[n..]);
    }
  }

  lemma RewriteContentWordStep(s: string)
    requires s != [] && IsWordChar(s[0])
    ensures RewriteContent(s) == Tag(s[..RunLength(s)]) + RewriteContent(s[RunLength(s)..])
  {
  }

  lemma RewriteContentControlStep(s: string)
    requires s != [] && !IsWordChar(s[0]) && s[0] < ' '
    ensures RewriteContent(s)
         == [s[0]] + s[1..][..RunLength(s[1..])] + RewriteContent(s[1..][RunLength(s[1..])..])
  {
  }

  lemma RewriteContentOtherStep(s: string)
    requires s != [] && !IsWordChar(s[0]) && s[0] >= ' '
    ensures RewriteContent(s) == [s[0]] + RewriteContent(s[1..])
  {
  }

  lemma EscapeTagThen(w: string, r: string)
    requires AllWordChars(w)
    ensures Escape(Tag(w) + r) == Tag(w) + Escape(r)
  {
    EscapeAppend(Tag(w), r);
    EscapeTag(w);
  }

  lemma RewriteEscapeControl(s: string, n: nat)
    requires s != [] && !IsWordChar(s[0]) && s[0] < ' ' && n == RunLength(s[1..])
    requires Rewrite(Escape(s[1..][n..])) == Escape(RewriteContent(s[1..][n..]))
    ensures Rewrite(Escape(s)) == Escape(RewriteContent(s))
  {
    var w, rest := s[1..][..n], s[1..][n..];
    var letters := EscapeControl(s[0]);
    ControlRunSplit(s, n);
    RewriteContentControlStep(s);
    EscapedControlRun(s[0], letters, w, rest);
    EscapedControlRun(s[0], letters, w, RewriteContent(rest));
    ControlWord(s[0], letters, w);
    RewriteControlRun(letters + w, Escape(rest));
  }

  /** A text that starts with a control character: that character, the word
      after it and the rest. */
  lemma ControlRunSplit(s: string, n: nat)
    requires s != [] && !IsWordChar(s[0]) && n == RunLength(s[1..])
    ensures s == [s[0]] + s[1..][..n] + s[1..][n..]
    ensures AllWordChars(s[1..][..n])
    ensures Escape(s[1..][n..]) == [] || !IsWordChar(Escape(s[1..][n..])[0])
  {
    var t := s[1..];
    RunLengthWords(t);
    TakeDrop(t, n);
    ConsTail(s);
    AppendAssoc([s[0]], t[..n], t[n..]);
    if n < |t| {
      DropCons(t, n);
      EscapeStartsNonWord(t[n..]);
    }
  }

  /** The letters of a control escape and the word after them form one word
      that is not an operator. */
  lemma ControlWord(c: char, letters: string, w: string)
    requires ControlLetters(c, letters)
    requires AllWordChars(w)
    ensures letters + w != [] && AllWordChars(letters + w)
    ensures (letters + w)[0] != 'g' && (letters + w)[0] != 'l'
  {
  }

  /** The escape of a control character, the word after it and the rest. */
  lemma EscapedControlRun(c: char, letters: string, w: string, rest: string)
    requires EscapeChar(c) == "\\" + letters
    requires AllWordChars(w)
    ensures Escape([c] + w + rest) == "\\" + (letters + w) + Escape(rest)
  {
    EscapeAppend([c] + w, rest);
    EscapeAppend([c], w);
    EscapeWord(w);
    EscapeSingle(c);
    Regroup("\\", letters, w, Escape(rest));
  }

  lemma Regroup(a: string, b: string, c: string, d: string)
    ensures a + b + c + d == a + (b + c) + d
  {
  }

  lemma EscapeSingle(c: char)
    ensures Escape([c]) == EscapeChar(c)
  {
    assert Escape([c]) == EscapeChar(c) + Escape([]);
  }

  lemma EscapeWord(w: string)
    requires AllWordChars(w)
    ensures Escape(w) == w
  {
    EscapePlain(w);
  }

  lemma RewriteControlRun(word: string, tail: string)
    requires word != [] && AllWordChars(word) && word[0] != 'g' && word[0] != 'l'
    requires tail == [] || !IsWordChar(tail[0])
    ensures Rewrite("\\" + word + tail) == "\\" + word + Rewrite(tail)
  {
    var x := word + tail;
    AppendAssoc("\\", word, tail);
    ConsAppend('\\', x);
    RewriteNonWordStep("\\" + x);
    RewriteWordThen(word, tail);
    NonOperatorStart(word);
    AppendAssoc("\\", word, Rewrite(tail));
  }

  lemma RewriteEscapeOther(s: string)
    requires s != [] && !IsWordChar(s[0]) && s[0] >= ' '
    requires Rewrite(Escape(s[1..])) == Escape(RewriteContent(s[1..]))
    ensures Rewrite(Escape(s)) == Escape(RewriteContent(s))
  {
    var e := EscapeChar(s[0]);
    EscapeOtherNonWord(s[0]);
    assert Escape(s) == e + Escape(s[1..]);
    RewriteAppend(e, Escape(s[1..]));
    RewriteNoWordChars(e);
    RewriteContentOtherStep(s);
    EscapeAppend([s[0]], RewriteContent(s[1..]));
    EscapeSingle(s[0]);
  }

  lemma RewriteQuote(s: string)
    ensures Rewrite(Quote(s)) == Quote(RewriteContent(s))
  {
    RewriteEscape(s);
    RewriteAppend("\"" + Escape(s), "\"");
    RewriteAppend("\"", Escape(s));
    RewriteNoWordChars("\"");
  }

  /** Rewriting the serialized filter serializes the rewritten filter. */
  lemma {:induction false} RewriteSerialize(v: Value)
    ensures Rewrite(Serialize(v)) == Serialize(RewriteValue(v))
    decreases v, 1
  {
    match v
    case Str(s) => RewriteQuote(s);
    case Bool(b) => RewriteBoolWords();
    case Obj(fs) =>
      RewriteSerializeFields(fs);
      RewriteBraces(SerializeFields(fs), SerializeFields(RewriteFields(fs)));
  }

  lemma RewriteBoolWords()
    ensures Rewrite("true") == "true" && Rewrite("false") == "false"
  {
    RewriteWordThen("true", []);
    TakeAll("true");
    RewriteWordThen("false", []);
    TakeAll("false");
  }

  lemma RewriteBraces(x: string, y: string)
    requires Rewrite(x) == y
    ensures Rewrite("{" + x + "}") == "{" + y + "}"
  {
    RewriteAppend("{" + x, "}");
    RewriteAppend("{", x);
    RewriteNoWordChars("{");
    RewriteNoWordChars("}");
  }

  lemma {:induction false} RewriteSerializeFields(fs: seq<Field>)
    ensures Rewrite(SerializeFields(fs)) == SerializeFields(RewriteFields(fs))
    decreases fs, 0
  {
    if fs != [] {
      RewriteSerialize(fs[0].val);
      RewriteMemberOf(fs[0]);
      RewriteFieldsStep(fs);
      if |fs| > 1 {
        RewriteSerializeFields(fs[1..]);
        RewriteCommaJoin(Member(fs[0]), SerializeFields(fs[1..]));
      }
    }
  }

  /** The serialization of one member, `"key":value`. */
  function Member(f: Field): string {
    Quote(f.key) + ":" + Serialize(f.val)
  }

  lemma RewriteMemberOf(f: Field)
    requires Rewrite(Serialize(f.val)) == Serialize(RewriteValue(f.val))
    ensures Rewrite(Member(f)) == Member(Field(RewriteContent(f.key), RewriteValue(f.val)))
  {
    RewriteQuote(f.key);
    RewriteMember(Quote(f.key), Serialize(f.val));
  }

  lemma RewriteFieldsStep(fs: seq<Field>)
    requires fs != []
    ensures SerializeFields(fs)
         == if |fs| == 1 then Member(fs[0]) else Member(fs[0]) + "," + SerializeFields(fs[1..])
    ensures var g := RewriteFields(fs); var m := Member(Field(RewriteContent(fs[0].key), RewriteValue(fs[0].val)));
      SerializeFields(g) == if |fs| == 1 then m else m + "," + SerializeFields(RewriteFields(fs[1..]))
  {
    var g := RewriteFields(fs);
    var f := Field(RewriteContent(fs[0].key), RewriteValue(fs[0].val));
    ConsAppend(f, RewriteFields(fs[1..]));
    if |fs| == 1 {
      assert RewriteFields(fs[1..]) == [];
    }
  }

  lemma RewriteCommaJoin(m: string, rest: string)
    ensures Rewrite(m + "," + rest) == Rewrite(m) + "," + Rewrite(rest)
  {
    RewriteAppend(m + ",", rest);
    RewriteAppend(m, ",");
    RewriteNoWordChars(",");
  }

  /** A member `"key":value` is rewritten part by part. */
  lemma RewriteMember(q: string, sv: string)
    requires q != [] && q[|q| - 1] == '"'
    ensures Rewrite(q + ":" + sv) == Rewrite(q) + ":" + Rewrite(sv)
  {
    RewriteAppend(q + ":", sv);
    RewriteAppend(q, ":");
    RewriteNoWordChars(":");
  }

  /** The operator conditions `APIFeatures.filter` hands to the query: the
      filter object rewritten key by key and value by value. */
  lemma ParseRewritten(v: Value)
    ensures Parse(Rewrite(Serialize(v))) == Some(Normalize(RewriteValue(v)))
  {
    RewriteSerialize(v);
    ParseOfSerialize(RewriteValue(v));
  }

  // ---------------------------------------------------------------------------
  // Filters without operator words

  /** No key or string of `v` holds an operator word. */
  predicate OperatorFree(v: Value) {
    match v
    case Str(s) => OperatorCount(s) == 0
    case Bool(_) => true
    case Obj(fs) => FieldsOperatorFree(fs)
  }

  predicate FieldsOperatorFree(fs: seq<Field>) {
    fs == [] || (OperatorCount(fs[0].key) == 0 && OperatorFree(fs[0].val) && FieldsOperatorFree(fs[1..]))
  }

  lemma {:induction false} RewriteContentOperatorFree(s: string)
    requires OperatorCount(s) == 0
    ensures RewriteContent(s) == s
    decreases |s|
  {
    if s == [] {
    } else if IsWordChar(s[0]) {
      var n := RunLength(s);
      OperatorCountWordStep(s);
      RewriteContentOperatorFree(s[n..]);
      OperatorFreeWordStep(s, n);
    } else if s[0] < ' ' {
      var n := ControlRunOperatorFree(s);
      RewriteContentOperatorFree(s[1..][n..]);
      OperatorFreeControlStep(s, n);
    } else {
      OperatorCountNonWordStep(s);
      RewriteContentOperatorFree(s[1..]);
      RewriteContentOtherStep(s);
      ConsTail(s);
    }
  }

  lemma OperatorCountWordStep(s: string)
    requires s != [] && IsWordChar(s[0])
    ensures OperatorCount(s)
         == (if IsOperator(s[..RunLength(s)]) then 1 else 0) + OperatorCount(s[RunLength(s)..])
  {
  }

  lemma OperatorCountNonWordStep(s: string)
    requires s != [] && !IsWordChar(s[0])
    ensures OperatorCount(s) == OperatorCount(s[1..])
  {
  }

  lemma OperatorFreeWordStep(s: string, n: nat)
    requires s != [] && IsWordChar(s[0]) && n == RunLength(s)
    requires !IsOperator(s[..n]) && RewriteContent(s[n..]) == s[n..]
    ensures RewriteContent(s) == s
  {
    RewriteContentWordStep(s);
    TakeDrop(s, n);
  }

  lemma OperatorFreeControlStep(s: string, n: nat)
    requires s != [] && !IsWordChar(s[0]) && s[0] < ' ' && n == RunLength(s[1..])
    requires RewriteContent(s[1..][n..]) == s[1..][n..]
    ensures RewriteContent(s) == s
  {
    RewriteContentControlStep(s);
    ControlRunSplit(s, n);
  }

  /** The word after a control character holds no operator either. */
  lemma ControlRunOperatorFree(s: string) returns (n: nat)
    requires s != [] && !IsWordChar(s[0]) && OperatorCount(s) == 0
    ensures n == RunLength(s[1..]) && OperatorCount(s[1..][n..]) == 0
  {
    var t := s[1..];
    n := RunLength(t);
    OperatorCountNonWordStep(s);
    if n == 0 {
      assert t[n..] == t;
    } else {
      OperatorCountWordStep(t);
    }
  }

  lemma {:induction false} RewriteValueOperatorFree(v: Value)
    requires OperatorFree(v)
    ensures RewriteValue(v) == v
    decreases v, 1
  {
    match v
    case Str(s) => RewriteContentOperatorFree(s);
    case Bool(_) =>
    case Obj(fs) => RewriteFieldsOperatorFree(fs);
  }

  lemma {:induction false} RewriteFieldsOperatorFree(fs: seq<Field>)
    requires FieldsOperatorFree(fs)
    ensures RewriteFields(fs) == fs
    decreases fs, 0
  {
    if fs != [] {
      RewriteContentOperatorFree(fs[0].key);
      RewriteValueOperatorFree(fs[0].val);
      RewriteFieldsOperatorFree(fs[1..]);
      assert [fs[0]] + fs[1..] == fs;
    }
  }

  /** A filter without operator words comes back from the
      stringify/replace/parse step exactly as it went in. */
  lemma OperatorFreeFilterUnchanged(v: Value)
    requires WellFormed(v) && OperatorFree(v)
    ensures Parse(Rewrite(Serialize(v))) == Some(v)
  {
    ParseRewritten(v);
    RewriteValueOperatorFree(v);
    NormalizeWellFormed(v);
  }

  /** `?price[gte]=500`: the comparison key becomes a MongoDB operator. */
  lemma FilterExample()
    ensures var q := Obj([Field("price", Obj([Field("gte", Str("500"))]))]);
      Parse(Rewrite(Serialize(q))) == Some(Obj([Field("price", Obj([Field("$gte", Str("500"))]))]))
  {
    var q := Obj([Field("price", Obj([Field("gte", Str("500"))]))]);
    var r := Obj([Field("price", Obj([Field("$gte", Str("500"))]))]);
    ParseRewritten(q);
    RewriteExampleValue();
    ExampleWellFormed();
    NormalizeWellFormed(r);
  }

  lemma RewriteExampleValue()
    ensures RewriteValue(Obj([Field("price", Obj([Field("gte", Str("500"))]))]))
         == Obj([Field("price", Obj([Field("$gte", Str("500"))]))])
  {
    ExampleContents();
    RewriteSingleField("gte", Str("500"));
    assert RewriteValue(Obj([Field("gte", Str("500"))])) == Obj([Field("$gte", Str("500"))]);
    RewriteSingleField("price", Obj([Field("gte", Str("500"))]));
  }

  lemma ExampleContents()
    ensures RewriteContent("price") == "price"
    ensures RewriteContent("gte") == "$gte"
    ensures RewriteContent("500") == "500"
  {
    ExamplePrice();
    ExampleGte();
    ExampleNumber();
  }

  lemma ExamplePrice()
    ensures RewriteContent("price") == "price"
  {
    RewriteContentWord("price");
  }

  lemma ExampleGte()
    ensures RewriteContent("gte") == "$gte"
  {
    RewriteContentWord("gte");
  }

  lemma ExampleNumber()
    ensures RewriteContent("500") == "500"
  {
    RewriteContentWord("500");
  }

  lemma RewriteSingleField(k: string, v: Value)
    ensures RewriteFields([Field(k, v)]) == [Field(RewriteContent(k), RewriteValue(v))]
  {
    assert [Field(k, v)][1..] == [];
  }

  lemma ExampleWellFormed()
    ensures WellFormed(Obj([Field("price", Obj([Field("$gte", Str("500"))]))]))
  {
    var inner := [Field("$gte", Str("500"))];
    assert inner[1..] == [];
    assert FieldsWellFormed(inner);
    var outer := [Field("price", Obj(inner))];
    assert outer[1..] == [];
    assert FieldsWellFormed(outer);
  }

  lemma RewriteContentWord(w: string)
    requires w != [] && AllWordChars(w)
    ensures RewriteContent(w) == Tag(w)
  {
    RunLengthAppend(w, []);
    assert w + [] == w;
  }

  /** A newline before `gt` keeps it from being rewritten: the serialized
      text reads `\ngt`, one word. */
  lemma GluedExample()
    ensures RewriteContent("\ngt") == "\ngt"
  {
    var t := "gt";
    RunLengthAppend(t, []);
    assert t + [] == t;
    assert "\ngt"[1..] == t;
  }
}
