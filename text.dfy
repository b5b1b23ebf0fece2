/** The Python string operations the pipeline is built from, over ASCII:
    `lower()`, the substring test `p in s`, slicing `s[:n]`, `strip()`,
    `split()` with no argument, and the first run of digits found by the
    pattern `(\d+)` followed by `int(...)`. */
module Text {
  import opened Wrappers

  /** Whitespace as `str.split()` and `str.strip()` treat it (its ASCII part). */
  predicate IsSpace(c: char) {
    c == ' ' || ('\t' <= c <= '\r') || ('\U{001C}' <= c <= '\U{001F}')
  }

  predicate IsDigit(c: char) {
    '0' <= c <= '9'
  }

  predicate NoSpace(s: string) {
    forall i :: 0 <= i < |s| ==> !IsSpace(s[i])
  }

  predicate AllDigits(s: string) {
    forall i :: 0 <= i < |s| ==> IsDigit(s[i])
  }

  predicate NoDigit(s: string) {
    forall i :: 0 <= i < |s| ==> !IsDigit(s[i])
  }

  function LowerChar(c: char): char {
    if 'A' <= c <= 'Z' then (c as int + 32) as char else c
  }

  /** `s.lower()` */
  function Lower(s: string): string {
    seq(|s|, i requires 0 <= i < |s| => LowerChar(s[i]))
  }

  lemma LowerIdempotent(s: string)
    ensures Lower(Lower(s)) == Lower(s)
  {
  }

  /** Lowercasing creates no whitespace. */
  lemma LowerNoSpace(s: string)
    requires NoSpace(s)
    ensures NoSpace(Lower(s))
  {
  }

  lemma LowerAppend(a: string, b: string)
    ensures Lower(a + b) == Lower(a) + Lower(b)
  {
  }

  // ---------------------------------------------------------------------------
  // Substrings

  predicate StartsWith(s: string, p: string) {
    |p| <= |s| && s[..|p|] == p
  }

  /** `p` occurs in `s` starting at index `i`. */
  predicate OccursAt(s: string, p: string, i: int) {
    0 <= i && i + |p| <= |s| && s[i..i + |p|] == p
  }

  /** `p in s` for two strings. */
  predicate Contains(s: string, p: string) {
    exists i :: 0 <= i <= |s| - |p| && OccursAt(s, p, i)
  }

  lemma OccursContains(s: string, p: string, i: int)
    requires OccursAt(s, p, i)
    ensures Contains(s, p)
  {
  }

  /** `any(w in text for w in words)` */
  predicate AnyOccurs(text: string, words: seq<string>) {
    exists i :: 0 <= i < |words| && Contains(text, words[i])
  }

  /** A substring of a suffix is a substring of the whole. */
  lemma ContainsFromSuffix(s: string, t: string, p: string)
    requires |t| <= |s| && t == s[|s| - |t|..]
    requires Contains(t, p)
    ensures Contains(s, p)
  {
    var i :| 0 <= i <= |t| - |p| && OccursAt(t, p, i);
    var off := |s| - |t|;
    assert s[off + i..off + i + |p|] == t[i..i + |p|];
    OccursContains(s, p, off + i);
  }

  /** If some character of `p` never appears in `s`, then `p` is not in `s`. */
  lemma MissingCharNotContained(s: string, p: string, j: nat)
    requires j < |p|
    requires forall k :: 0 <= k < |s| ==> s[k] != p[j]
    ensures !Contains(s, p)
  {
    forall i | 0 <= i <= |s| - |p|
      ensures !OccursAt(s, p, i)
    {
      assert s[i..i + |p|][j] == s[i + j];
    }
  }

  lemma ContainsIsShorter(s: string, p: string)
    requires Contains(s, p)
    ensures |p| <= |s|
  {
  }

  /** A substring of either half is a substring of the concatenation. */
  lemma ContainsInConcat(a: string, b: string, p: string)
    requires Contains(a, p) || Contains(b, p)
    ensures Contains(a + b, p)
  {
    if Contains(a, p) {
      var i :| 0 <= i <= |a| - |p| && OccursAt(a, p, i);
      assert (a + b)[i..i + |p|] == a[i..i + |p|];
      OccursContains(a + b, p, i);
    } else {
      var i :| 0 <= i <= |b| - |p| && OccursAt(b, p, i);
      assert (a + b)[|a| + i..|a| + i + |p|] == b[i..i + |p|];
      OccursContains(a + b, p, |a| + i);
    }
  }

  /** Lowering both sides keeps an occurrence. */
  lemma ContainsLower(s: string, p: string)
    requires Contains(s, p)
    ensures Contains(Lower(s), Lower(p))
  {
    var i :| 0 <= i <= |s| - |p| && OccursAt(s, p, i);
    assert Lower(s)[i..i + |p|] == Lower(p);
    OccursContains(Lower(s), Lower(p), i);
  }

  /** A prefix that lowercases to `p` puts `p` at the front of `Lower(s)`. */
  lemma LowerPrefixOccurs(s: string, p: string)
    requires |p| <= |s| && Lower(s[..|p|]) == p
    ensures OccursAt(Lower(s), p, 0) && Contains(Lower(s), p)
  {
    assert Lower(s)[..|p|] == Lower(s[..|p|]);
    OccursContains(Lower(s), p, 0);
  }

  // ---------------------------------------------------------------------------
  // Slicing

  /** `s[:n]` for a non-negative `n` */
  function Take<T>(s: seq<T>, n: nat): (r: seq<T>)
    ensures |r| == if |s| <= n then |s| else n
    ensures |r| <= |s| && r == s[..|r|]
  {
    if |s| <= n then s else s[..n]
  }

  /** The three parts of `a + b + c` can be sliced back out of it. */
  lemma ThreeParts(a: string, b: string, c: string)
    ensures var s := a + b + c;
      |s| == |a| + |b| + |c| && s[..|a|] == a && s[|s| - |c|..] == c && s[|a|..|s| - |c|] == b
  {
    var s := a + b + c;
    assert s == a + (b + c);
    assert s[..|a|] == a;
    assert s[|a|..] == b + c;
    assert (b + c)[..|b|] == b;
    assert s[|s| - |c|..] == (b + c)[|b|..];
  }

  lemma MiddleSlice(a: string, b: string, c: string, n: nat)
    requires n <= |c|
    ensures (a + b + c)[|a|..|a| + |b| + n] == b + c[..n]
  {
    var s := a + b + c;
    forall k | 0 <= k < |b| + n
      ensures s[|a|..|a| + |b| + n][k] == (b + c[..n])[k]
    {
      if k < |b| {
        assert s[|a| + k] == b[k];
      } else {
        assert s[|a| + k] == c[k - |b|];
      }
    }
  }

  // ---------------------------------------------------------------------------
  // strip()

  function StripLeft(s: string): (r: string)
    ensures |r| <= |s| && r == s[|s| - |r|..]
    ensures r == [] || !IsSpace(r[0])
    ensures forall i :: 0 <= i < |s| - |r| ==> IsSpace(s[i])
  {
    if s != [] && IsSpace(s[0]) then StripLeft(s[1..]) else s
  }

  function StripRight(s: string): (r: string)
    ensures |r| <= |s| && r == s[..|r|]
    ensures r == [] || !IsSpace(r[|r| - 1])
    ensures forall i :: |r| <= i < |s| ==> IsSpace(s[i])
  {
    if s != [] && IsSpace(s[|s| - 1]) then StripRight(s[..|s| - 1]) else s
  }

  /** A string with no whitespace at either end. */
  predicate IsStripped(s: string) {
    s == [] || (!IsSpace(s[0]) && !IsSpace(s[|s| - 1]))
  }

  /** `s.strip()` */
  function Strip(s: string): string {
    StripRight(StripLeft(s))
  }

  /** strip() drops exactly the whitespace at both ends: its result has none
      there, it is the slice of the input that starts at `i`, and everything
      cut off is whitespace. */
  lemma StripShape(s: string)
    ensures IsStripped(Strip(s))
    ensures var i := |s| - |StripLeft(s)|;
      i + |Strip(s)| <= |s| && s[i..i + |Strip(s)|] == Strip(s)
      && (forall k :: 0 <= k < i ==> IsSpace(s[k]))
      && (forall k :: i + |Strip(s)| <= k < |s| ==> IsSpace(s[k]))
  {
    StripEnds(s);
    StripSlice(s);
    StripCutsTail(s);
  }

  lemma StripEnds(s: string)
    ensures IsStripped(Strip(s))
  {
    var l := StripLeft(s);
    var r := StripRight(l);
    if r != [] {
      assert r[0] == l[0];
    }
  }

  lemma StripSlice(s: string)
    ensures var i := |s| - |StripLeft(s)|;
      i + |Strip(s)| <= |s| && s[i..i + |Strip(s)|] == Strip(s)
  {
    var l := StripLeft(s);
    PrefixOfSuffix(s, |s| - |l|, StripRight(l));
  }

  /** A prefix of the suffix from `i` is the slice that starts at `i`. */
  lemma PrefixOfSuffix(s: string, i: nat, r: string)
    requires i <= |s| && |r| <= |s| - i && r == s[i..][..|r|]
    ensures s[i..i + |r|] == r
  {
  }

  lemma StripCutsTail(s: string)
    ensures var i := |s| - |StripLeft(s)|;
      forall k :: i + |Strip(s)| <= k < |s| ==> IsSpace(s[k])
  {
    var l := StripLeft(s);
    var r := StripRight(l);
    var i := |s| - |l|;
    assert l == s[i..];
    forall k | i + |r| <= k < |s| ensures IsSpace(s[k]) {
      assert s[k] == l[k - i];
      assert IsSpace(l[k - i]);
    }
  }

  lemma StripFixpoint(s: string)
    requires IsStripped(s)
    ensures Strip(s) == s
  {
  }

  lemma StripIdempotent(s: string)
    ensures Strip(Strip(s)) == Strip(s)
  {
    StripShape(s);
    StripFixpoint(Strip(s));
  }

  lemma StripLeftSkipsSpaces(w: string, s: string)
    requires forall i :: 0 <= i < |w| ==> IsSpace(w[i])
    ensures StripLeft(w + s) == StripLeft(s)
  {
    var r := StripLeft(s);
    var a := |s| - |r|;
    SpacesBeforeSuffix(w, s, a);
    StripLeftAt(w + s, |w| + a);
  }

  /** Whitespace `w` in front of a string whose first `a` characters are
      whitespace gives a string whose first `|w| + a` characters are
      whitespace, followed by the same suffix. */
  lemma SpacesBeforeSuffix(w: string, s: string, a: nat)
    requires a <= |s|
    requires forall i :: 0 <= i < |w| ==> IsSpace(w[i])
    requires forall i :: 0 <= i < a ==> IsSpace(s[i])
    ensures forall i :: 0 <= i < |w| + a ==> IsSpace((w + s)[i])
    ensures (w + s)[|w| + a..] == s[a..]
  {
    var x := w + s;
    forall i | 0 <= i < |w| + a
      ensures IsSpace(x[i])
    {
      if i >= |w| {
        assert x[i] == s[i - |w|];
      }
    }
    assert x[|w|..] == s;
  }

  /** strip's left cut is the first position that is not whitespace. */
  lemma StripLeftAt(x: string, a: nat)
    requires a <= |x| && forall i :: 0 <= i < a ==> IsSpace(x[i])
    requires a == |x| || !IsSpace(x[a])
    ensures StripLeft(x) == x[a..]
  {
    var r := StripLeft(x);
    var b := |x| - |r|;
    assert b < |x| ==> x[b] == r[0];
    assert b == a;
  }

  lemma StripRightSkipsSpaces(s: string, w: string)
    requires forall i :: 0 <= i < |w| ==> IsSpace(w[i])
    ensures StripRight(s + w) == StripRight(s)
    decreases |w|
  {
    if w != [] {
      assert (s + w)[..|s + w| - 1] == s + w[..|w| - 1];
      StripRightSkipsSpaces(s, w[..|w| - 1]);
    } else {
      assert s + w == s;
    }
  }

  // ---------------------------------------------------------------------------
  // split()

  /** The suffix that starts at the first non-whitespace character. */
  function SkipSpaces(s: string): (r: string)
    ensures |r| <= |s| && r == s[|s| - |r|..]
    ensures r == [] || !IsSpace(r[0])
  {
    if s != [] && IsSpace(s[0]) then SkipSpaces(s[1..]) else s
  }

  /** The longest prefix without whitespace. */
  function WordPrefix(s: string): (r: string)
    ensures |r| <= |s| && r == s[..|r|]
    ensures NoSpace(r)
    ensures |r| == |s| || IsSpace(s[|r|])
  {
    if s == [] || IsSpace(s[0]) then [] else [s[0]] + WordPrefix(s[1..])
  }

  /** `s.split()`: the maximal runs of non-whitespace characters, in order. */
  function Split(s: string): seq<string>
    decreases |s|
  {
    var t := SkipSpaces(s);
    if t == [] then []
    else
      var w := WordPrefix(t);
      assert w != [] by { assert !IsSpace(t[0]); }
      [w] + Split(t[|w|..])
  }

  /** Every token of split() is non-empty and free of whitespace. */
  lemma {:induction false} SplitToken(s: string)
    ensures forall k :: 0 <= k < |Split(s)| ==> Split(s)[k] != [] && NoSpace(Split(s)[k])
    decreases |s|
  {
    if Split(s) != [] {
      var w, rest := SplitStep(s);
      SplitToken(rest);
      TokensCons(w, Split(rest), Split(s));
    }
  }

  /** One step of split(): the first word, and the text after it. */
  lemma SplitStep(s: string) returns (w: string, rest: string)
    requires Split(s) != []
    ensures w != [] && NoSpace(w) && |rest| < |s|
    ensures Split(s) == [w] + Split(rest)
  {
    var t := SkipSpaces(s);
    assert !IsSpace(t[0]);
    w := WordPrefix(t);
    rest := t[|w|..];
  }

  lemma TokensCons(w: string, tail: seq<string>, all: seq<string>)
    requires all == [w] + tail && w != [] && NoSpace(w)
    requires forall k :: 0 <= k < |tail| ==> tail[k] != [] && NoSpace(tail[k])
    ensures forall k :: 0 <= k < |all| ==> all[k] != [] && NoSpace(all[k])
  {
    assert forall k :: 0 < k < |all| ==> all[k] == tail[k - 1];
  }

  /** A single word splits to itself. */
  lemma SplitWord(w: string)
    requires w != [] && NoSpace(w)
    ensures Split(w) == [w]
  {
    assert SkipSpaces(w) == w;
    WordPrefixAll(w);
    assert w[|w|..] == [];
  }

  lemma {:induction false} WordPrefixAll(w: string)
    requires NoSpace(w)
    ensures WordPrefix(w) == w
  {
    if w != [] {
      WordPrefixAll(w[1..]);
    }
  }

  /** Splitting a word followed by a space and more text yields the word first. */
  lemma {:induction false} SplitFirstWord(w: string, rest: string)
    requires w != [] && NoSpace(w)
    ensures Split(w + " " + rest) == [w] + Split(rest)
  {
    var s := w + " " + rest;
    assert s[0] == w[0];
    assert SkipSpaces(s) == s;
    WordPrefixThenSpace(w, rest);
    assert s[|w|..] == " " + rest;
    assert Split(s) == [w] + Split(" " + rest);
    assert SkipSpaces(" " + rest) == SkipSpaces(rest) by {
      assert (" " + rest)[0] == ' ';
      assert (" " + rest)[1..] == rest;
    }
    SplitSameStart(" " + rest, rest);
  }

  /** split() only looks at the text from its first non-whitespace character. */
  lemma SplitSameStart(a: string, b: string)
    requires SkipSpaces(a) == SkipSpaces(b)
    ensures Split(a) == Split(b)
  {
  }

  lemma {:induction false} WordPrefixThenSpace(w: string, rest: string)
    requires NoSpace(w)
    ensures WordPrefix(w + " " + rest) == w
  {
    if w == [] {
      assert (w + " " + rest)[0] == ' ';
    } else {
      assert (w + " " + rest)[1..] == w[1..] + " " + rest;
      WordPrefixThenSpace(w[1..], rest);
    }
  }

  // ---------------------------------------------------------------------------
  // The first run of digits, as `re.search(r'(\d+)', text)` and `int(...)`.

  function DigitValue(c: char): nat
    requires IsDigit(c)
  {
    c as int - '0' as int
  }

  function DigitChar(d: nat): char
    requires d < 10
  {
    ('0' as int + d) as char
  }

  /** The number a string of decimal digits denotes (leading zeros allowed). */
  function DigitsValue(d: string): nat
    requires AllDigits(d)
  {
    if d == [] then 0 else DigitsValue(d[..|d| - 1]) * 10 + DigitValue(d[|d| - 1])
  }

  /** The decimal representation of `n`, as `str(n)` gives it. */
  function NatToDigits(n: nat): (r: string)
    ensures r != [] && AllDigits(r)
  {
    if n < 10 then [DigitChar(n)] else NatToDigits(n / 10) + [DigitChar(n % 10)]
  }

  lemma {:induction false} DigitsRoundTrip(n: nat)
    ensures DigitsValue(NatToDigits(n)) == n
  {
    if n >= 10 {
      var d := NatToDigits(n);
      assert d[..|d| - 1] == NatToDigits(n / 10);
      DigitsRoundTrip(n / 10);
    }
  }

  function SkipNonDigits(s: string): (r: string)
    ensures |r| <= |s| && r == s[|s| - |r|..]
    ensures r == [] || IsDigit(r[0])
    ensures forall i :: 0 <= i < |s| - |r| ==> !IsDigit(s[i])
  {
    if s != [] && !IsDigit(s[0]) then
      var r := SkipNonDigits(s[1..]);
      assert forall i :: 1 <= i < |s| - |r| ==> s[i] == s[1..][i - 1];
      r
    else s
  }

  function DigitRun(s: string): (r: string)
    ensures |r| <= |s| && r == s[..|r|] && AllDigits(r)
    ensures |r| == |s| || !IsDigit(s[|r|])
  {
    if s == [] || !IsDigit(s[0]) then [] else [s[0]] + DigitRun(s[1..])
  }

  /** The value of the first run of digits in `s`, if there is one. */
  function FirstNumber(s: string): (r: Option<nat>)
    ensures r.None? <==> NoDigit(s)
  {
    var t := SkipNonDigits(s);
    if t == [] then
      None
    else
      assert IsDigit(s[|s| - |t|]);
      Some(DigitsValue(DigitRun(t)))
  }

  /** The count a scraper reads from a text: its first number, or 0. */
  function CountIn(text: Option<string>): (n: nat)
    ensures text.None? || NoDigit(text.value) ==> n == 0
    ensures text.Some? && !NoDigit(text.value) ==> Some(n) == FirstNumber(text.value)
  {
    if text.None? then 0
    else match FirstNumber(text.value)
      case Some(n) => n
      case None => 0
  }

  lemma {:induction false} SkipNonDigitsPrefix(p: string, t: string)
    requires NoDigit(p)
    requires t == [] || IsDigit(t[0])
    ensures SkipNonDigits(p + t) == t
  {
    if p != [] {
      assert (p + t)[1..] == p[1..] + t;
      SkipNonDigitsPrefix(p[1..], t);
    }
  }

  lemma {:induction false} DigitRunPrefix(d: string, q: string)
    requires AllDigits(d)
    requires q == [] || !IsDigit(q[0])
    ensures DigitRun(d + q) == d
  {
    if d != [] {
      assert (d + q)[1..] == d[1..] + q;
      DigitRunPrefix(d[1..], q);
    } else {
      assert d + q == q;
    }
  }

  /** The number written after digit-free text is read back exactly,
      e.g. "▲ 150 points" gives 150. */
  lemma FirstNumberReadsBack(p: string, n: nat, q: string)
    requires NoDigit(p)
    requires q == [] || !IsDigit(q[0])
    ensures FirstNumber(p + NatToDigits(n) + q) == Some(n)
  {
    var d := NatToDigits(n);
    assert p + d + q == p + (d + q);
    SkipNonDigitsPrefix(p, d + q);
    DigitRunPrefix(d, q);
    DigitsRoundTrip(n);
  }
}
