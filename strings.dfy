/**
 * Character-string operations of Python's `str` that the modelled code relies on:
 * `lower`, `strip`, `startswith`/`endswith`, `in` (substring), `replace` of one
 * character, `split(",")`, `",".join`, `str(int)` and `int(str)`.
 */
module Strings {
  import opened Wrappers

  // ---------------------------------------------------------------------------
  // Prefixes, suffixes, substrings

  predicate StartsWith(s: string, prefix: string) {
    |prefix| <= |s| && s[..|prefix|] == prefix
  }

  lemma StartsWithAppend(a: string, b: string)
    ensures StartsWith(a + b, a)
  {
    assert (a + b)[..|a|] == a;
  }

  predicate EndsWith(s: string, suffix: string) {
    |suffix| <= |s| && s[|s| - |suffix|..] == suffix
  }

  /** Python's `sub in s`. */
  predicate Contains(s: string, sub: string)
    decreases |s|
  {
    StartsWith(s, sub) || (|s| > 0 && Contains(s[1..], sub))
  }

  lemma {:induction false} ContainsAt(s: string, sub: string, i: nat)
    requires i + |sub| <= |s| && s[i..i + |sub|] == sub
    ensures Contains(s, sub)
    decreases i
  {
    if i > 0 {
      assert s[1..][i - 1..i - 1 + |sub|] == s[i..i + |sub|];
      ContainsAt(s[1..], sub, i - 1);
    }
  }

  // ---------------------------------------------------------------------------
  // Case mapping (ASCII letters only)

  function LowerChar(c: char): char {
    if 'A' <= c <= 'Z' then (c as int - 'A' as int + 'a' as int) as char else c
  }

  /** Python's `str.lower()`, restricted to the ASCII letters. */
  function Lower(s: string): (r: string)
    ensures |r| == |s|
    ensures forall i :: 0 <= i < |s| ==> r[i] == LowerChar(s[i])
  {
    seq(|s|, i requires 0 <= i < |s| => LowerChar(s[i]))
  }

  lemma LowerIdempotent(s: string)
    ensures Lower(Lower(s)) == Lower(s)
  {
    assert forall i :: 0 <= i < |s| ==> LowerChar(LowerChar(s[i])) == LowerChar(s[i]);
  }

  lemma LowerSuffix(s: string, n: nat)
    requires n <= |s|
    ensures Lower(s)[|s| - n..] == Lower(s[|s| - n..])
  {
  }

  // ---------------------------------------------------------------------------
  // Whitespace and strip

  /** The characters for which Python's `str.isspace()` holds. */
  predicate IsSpace(c: char) {
    ('\U{0009}' <= c <= '\U{000D}') || ('\U{001C}' <= c <= '\U{0020}')
    || c == '\U{0085}' || c == '\U{00A0}' || c == '\U{1680}'
    || ('\U{2000}' <= c <= '\U{200A}') || c == '\U{2028}' || c == '\U{2029}'
    || c == '\U{202F}' || c == '\U{205F}' || c == '\U{3000}'
  }

  /** The first position at or after `i` that does not hold whitespace (|s| if none). */
  function SkipSpace(s: string, i: nat): (r: nat)
    requires i <= |s|
    ensures i <= r <= |s|
    ensures r == |s| || !IsSpace(s[r])
    decreases |s| - i
  {
    if i < |s| && IsSpace(s[i]) then SkipSpace(s, i + 1) else i
  }

  /** Everything `SkipSpace` passes over is whitespace. */
  lemma {:induction false} SkipSpaceSkipsSpace(s: string, i: nat, k: nat)
    requires i <= |s| && i <= k < SkipSpace(s, i)
    ensures IsSpace(s[k])
    decreases |s| - i
  {
    if k > i {
      SkipSpaceSkipsSpace(s, i + 1, k);
    }
  }

  /** The end of `s[lo..j]` once its trailing whitespace is dropped. */
  function BackSpace(s: string, lo: nat, j: nat): (r: nat)
    requires lo <= j <= |s|
    ensures lo <= r <= j
    ensures r == lo || !IsSpace(s[r - 1])
    decreases j
  {
    if j > lo && IsSpace(s[j - 1]) then BackSpace(s, lo, j - 1) else j
  }

  /** Everything `BackSpace` drops is whitespace. */
  lemma {:induction false} BackSpaceSkipsSpace(s: string, lo: nat, j: nat, k: nat)
    requires lo <= j <= |s| && BackSpace(s, lo, j) <= k < j
    ensures IsSpace(s[k])
    decreases j
  {
    if k < j - 1 {
      BackSpaceSkipsSpace(s, lo, j - 1, k);
    }
  }

  /** Python's `str.strip()` without arguments: drop leading, then trailing whitespace. */
  function Strip(s: string): string
  {
    var i := SkipSpace(s, 0);
    s[i..BackSpace(s, i, |s|)]
  }

  /** `strip` keeps one contiguous piece of its input and removes only whitespace around it. */
  lemma StripIsTrimmedSlice(s: string)
    ensures exists i, j ::
              && 0 <= i <= j <= |s| && Strip(s) == s[i..j]
              && (forall k :: 0 <= k < i ==> IsSpace(s[k]))
              && (forall k :: j <= k < |s| ==> IsSpace(s[k]))
    ensures Strip(s) == [] || (!IsSpace(Strip(s)[0]) && !IsSpace(Strip(s)[|Strip(s)| - 1]))
  {
    var i := SkipSpace(s, 0);
    var j := BackSpace(s, i, |s|);
    forall k | 0 <= k < i ensures IsSpace(s[k]) {
      SkipSpaceSkipsSpace(s, 0, k);
    }
    forall k | j <= k < |s| ensures IsSpace(s[k]) {
      BackSpaceSkipsSpace(s, i, |s|, k);
    }
    StripEnds(s);
  }

  /** A stripped text neither starts nor ends with whitespace. */
  lemma StripEnds(s: string)
    ensures Strip(s) == [] || (!IsSpace(Strip(s)[0]) && !IsSpace(Strip(s)[|Strip(s)| - 1]))
  {
    var i := SkipSpace(s, 0);
    var j := BackSpace(s, i, |s|);
    var r := Strip(s);
    if r != [] {
      assert r[0] == s[i] && r[|r| - 1] == s[j - 1];
    }
  }

  /** `strip` brings in no character its input lacks. */
  lemma StripKeepsOut(s: string, c: char)
    requires c !in s
    ensures c !in Strip(s)
  {
    var i := SkipSpace(s, 0);
    var r := Strip(s);
    forall q | 0 <= q < |r| ensures r[q] != c {
      assert r[q] == s[i + q];
    }
  }

  lemma StripIdempotent(s: string)
    ensures Strip(Strip(s)) == Strip(s)
  {
    var r := Strip(s);
    StripEnds(s);
    assert SkipSpace(r, 0) == 0;
    assert BackSpace(r, 0, |r|) == |r|;
    assert r[0..|r|] == r;
  }

  // ---------------------------------------------------------------------------
  // Character replacement and counting

  /** Python's `s.replace(c, d)` for single characters `c` and `d`. */
  function ReplaceChar(s: string, c: char, d: char): (r: string)
    ensures |r| == |s|
    ensures forall i :: 0 <= i < |s| ==> r[i] == (if s[i] == c then d else s[i])
  {
    seq(|s|, i requires 0 <= i < |s| => if s[i] == c then d else s[i])
  }

  function Count(s: string, c: char): (n: nat)
    ensures n <= |s|
    ensures n == 0 <==> c !in s
  {
    if s == [] then 0 else (if s[0] == c then 1 else 0) + Count(s[1..], c)
  }

  lemma {:induction false} CountAppend(a: string, b: string, c: char)
    ensures Count(a + b, c) == Count(a, c) + Count(b, c)
  {
    if a != [] {
      assert (a + b)[1..] == a[1..] + b;
      CountAppend(a[1..], b, c);
    } else {
      assert a + b == b;
    }
  }

  // ---------------------------------------------------------------------------
  // split and join on one separator character

  function IndexOf(s: string, c: char): (i: nat)
    requires c in s
    ensures i < |s| && s[i] == c && c !in s[..i]
  {
    if s[0] == c then 0 else 1 + IndexOf(s[1..], c)
  }

  /** Python's `s.split(sep)` for a one-character separator. */
  function Split(s: string, sep: char): (parts: seq<string>)
    ensures |parts| >= 1
    decreases |s|
  {
    if sep !in s then [s]
    else
      var i := IndexOf(s, sep);
      [s[..i]] + Split(s[i + 1..], sep)
  }

  /** Python's `sep.join(parts)`. */
  function Join(parts: seq<string>, sep: string): string
  {
    if |parts| == 0 then ""
    else if |parts| == 1 then parts[0]
    else parts[0] + sep + Join(parts[1..], sep)
  }

  /** Splitting on a character and joining with it again gives back the original text. */
  lemma {:induction false} JoinSplit(s: string, sep: char)
    ensures Join(Split(s, sep), [sep]) == s
    decreases |s|
  {
    if sep in s {
      var i := IndexOf(s, sep);
      JoinSplit(s[i + 1..], sep);
      assert Split(s, sep)[1..] == Split(s[i + 1..], sep);
      assert s == s[..i] + [sep] + s[i + 1..];
    }
  }

  /** Joining pieces free of the separator and splitting again gives back the pieces. */
  lemma {:induction false} SplitJoin(parts: seq<string>, sep: char)
    requires |parts| >= 1
    requires forall k :: 0 <= k < |parts| ==> sep !in parts[k]
    ensures Split(Join(parts, [sep]), sep) == parts
  {
    if |parts| > 1 {
      var p := parts[0];
      var rest := Join(parts[1..], [sep]);
      var s := Join(parts, [sep]);
      assert s == p + [sep] + rest;
      assert s[|p|] == sep;
      assert s[..|p|] == p;
      assert IndexOf(s, sep) == |p|;
      assert s[|p| + 1..] == rest;
      SplitJoin(parts[1..], sep);
    }
  }

  /** Past the first occurrence of `c`, the count drops by one. */
  lemma CountFirst(s: string, i: nat, c: char)
    requires i < |s| && s[i] == c && c !in s[..i]
    ensures Count(s, c) == 1 + Count(s[i + 1..], c)
  {
    assert s == s[..i] + s[i..];
    CountAppend(s[..i], s[i..], c);
    assert s[i..][1..] == s[i + 1..];
  }

  lemma {:induction false} SplitLength(s: string, sep: char)
    ensures |Split(s, sep)| == Count(s, sep) + 1
    decreases |s|
  {
    if sep in s {
      var i := IndexOf(s, sep);
      SplitLength(s[i + 1..], sep);
      assert Split(s, sep) == [s[..i]] + Split(s[i + 1..], sep);
      CountFirst(s, i, sep);
    }
  }

  lemma {:induction false} SplitPiecesFree(s: string, sep: char)
    ensures forall k :: 0 <= k < |Split(s, sep)| ==> sep !in Split(s, sep)[k]
    decreases |s|
  {
    if sep in s {
      var i := IndexOf(s, sep);
      SplitPiecesFree(s[i + 1..], sep);
      var parts := Split(s, sep);
      assert parts == [s[..i]] + Split(s[i + 1..], sep);
      forall k | 0 <= k < |parts| ensures sep !in parts[k] {
        if k > 0 { assert parts[k] == Split(s[i + 1..], sep)[k - 1]; }
      }
    }
  }

  /** `split(sep)` yields exactly one more piece than there are separators, none containing it. */
  lemma SplitCount(s: string, sep: char)
    ensures |Split(s, sep)| == Count(s, sep) + 1
    ensures forall k :: 0 <= k < |Split(s, sep)| ==> sep !in Split(s, sep)[k]
  {
    SplitLength(s, sep);
    SplitPiecesFree(s, sep);
  }

  // ---------------------------------------------------------------------------
  // Decimal numerals: Python's str(int) and int(str)

  predicate IsDigit(c: char) { '0' <= c <= '9' }

  function DigitChar(d: nat): (c: char)
    requires d < 10
    ensures IsDigit(c)
  {
    ('0' as int + d) as char
  }

  function DigitValue(c: char): (d: nat)
    requires IsDigit(c)
    ensures d < 10
  {
    c as int - '0' as int
  }

  /** Decimal digits of a natural number, without leading zeros. */
  function ShowNat(n: nat): (s: string)
    ensures |s| >= 1
    ensures forall i :: 0 <= i < |s| ==> IsDigit(s[i])
  {
    if n < 10 then [DigitChar(n)] else ShowNat(n / 10) + [DigitChar(n % 10)]
  }

  /** Python's `str(n)` for an integer, with a leading '-' for negative values. */
  function Show(n: int): string
  {
    if n < 0 then "-" + ShowNat(-n) else ShowNat(n)
  }

  function DigitsValue(s: string): nat
    requires forall i :: 0 <= i < |s| ==> IsDigit(s[i])
  {
    if s == [] then 0 else DigitsValue(s[..|s| - 1]) * 10 + DigitValue(s[|s| - 1])
  }

  predicate AllDigits(s: string) {
    |s| > 0 && forall i :: 0 <= i < |s| ==> IsDigit(s[i])
  }

  /**
   * Python's `int(s)` on a plain numeral: an optional '+' or '-' sign followed by one
   * or more ASCII digits (leading zeros allowed). None stands for the ValueError.
   */
  function ParseInt(s: string): (r: Option<int>)
    ensures r.Some? ==> AllDigits(s) || (|s| > 1 && s[0] in "+-" && AllDigits(s[1..]))
  {
    if AllDigits(s) then Some(DigitsValue(s))
    else if |s| > 1 && s[0] == '+' && AllDigits(s[1..]) then Some(DigitsValue(s[1..]))
    else if |s| > 1 && s[0] == '-' && AllDigits(s[1..]) then Some(-(DigitsValue(s[1..]) as int))
    else None
  }

  lemma {:induction false} DigitsValueShowNat(n: nat)
    ensures DigitsValue(ShowNat(n)) == n
  {
    if n >= 10 {
      var s := ShowNat(n);
      assert s[..|s| - 1] == ShowNat(n / 10);
      DigitsValueShowNat(n / 10);
    }
  }

  lemma ParseShowNat(n: nat)
    ensures ParseInt(ShowNat(n)) == Some(n)
  {
    assert AllDigits(ShowNat(n));
    DigitsValueShowNat(n);
  }

  lemma ParseShowNegative(n: nat)
    requires n > 0
    ensures ParseInt("-" + ShowNat(n)) == Some(-(n as int))
  {
    var s := "-" + ShowNat(n);
    assert s[1..] == ShowNat(n);
    assert AllDigits(s[1..]);
    assert !IsDigit(s[0]);
    DigitsValueShowNat(n);
  }

  /** Reading back what `str` printed gives the same integer. */
  lemma ParseShow(n: int)
    ensures ParseInt(Show(n)) == Some(n)
  {
    if n < 0 {
      ParseShowNegative(-n);
    } else {
      ParseShowNat(n);
    }
  }

  /** Different numbers print differently. */
  lemma ShowNatDistinct(a: nat, b: nat)
    requires a != b
    ensures ShowNat(a) != ShowNat(b)
  {
    DigitsValueShowNat(a);
    DigitsValueShowNat(b);
  }
}
