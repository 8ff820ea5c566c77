/** String helpers with the meaning of the Python built-ins the two Python services call:
    `str.strip`, `str.lower`, `str.title`, `str.split`, `str.replace`, the
    `in` substring test and the slice `s[:k]`. Where Python consults Unicode
    tables (whitespace, case, `\d`) this model keeps to ASCII. */
module Text {
  import opened Basics

  /** `str.isspace` on one ASCII character: tab, line feed, vertical tab,
      form feed, carriage return, the four separators 0x1C-0x1F and space. */
  predicate IsSpace(c: char) {
    var n := c as int;
    (9 <= n <= 13) || (28 <= n <= 31) || n == 32
  }

  predicate IsDigit(c: char) { '0' <= c <= '9' }

  predicate IsLetter(c: char) { ('a' <= c <= 'z') || ('A' <= c <= 'Z') }

  predicate AllSpace(s: string) { forall k :: 0 <= k < |s| ==> IsSpace(s[k]) }

  /** No whitespace at either end. */
  predicate Trimmed(s: string) { s == [] || (!IsSpace(s[0]) && !IsSpace(s[|s| - 1])) }

  predicate AllDigits(s: string) { forall k :: 0 <= k < |s| ==> IsDigit(s[k]) }

  predicate HasDigit(s: string) { exists k :: 0 <= k < |s| && IsDigit(s[k]) }

  // ---------------------------------------------------------------- strip

  function TrimStart(s: string): (r: string)
    ensures |r| <= |s| && r == s[|s| - |r|..]
    ensures AllSpace(s[..|s| - |r|])
    ensures r == [] || !IsSpace(r[0])
  {
    if |s| > 0 && IsSpace(s[0]) then
      var t := TrimStart(s[1..]);
      assert s[..|s| - |t|] == [s[0]] + s[1..][..|s| - 1 - |t|];
      t
    else s
  }

  function TrimEnd(s: string): (r: string)
    ensures |r| <= |s| && r == s[..|r|]
    ensures AllSpace(s[|r|..])
    ensures r == [] || !IsSpace(r[|r| - 1])
  {
    if |s| > 0 && IsSpace(s[|s| - 1]) then
      var t := TrimEnd(s[..|s| - 1]);
      assert s[|t|..] == s[..|s| - 1][|t|..] + [s[|s| - 1]];
      t
    else s
  }

  /** `s` is `r` with only whitespace cut from the front (the first `i`
      characters) and from the back. */
  predicate StripsTo(s: string, i: int, r: string) {
    && 0 <= i <= |s| - |r|
    && s[i..i + |r|] == r
    && AllSpace(s[..i])
    && AllSpace(s[i + |r|..])
  }

  /** `str.strip()`: the text between the leading and the trailing whitespace. */
  function Strip(s: string): (r: string)
    ensures Trimmed(r) && |r| <= |s|
  {
    TrimEnd(TrimStart(s))
  }

  /** `strip` removes whitespace and nothing else: the result is a slice of
      the text with only whitespace before and after it. */
  lemma StripRemovesOnlySpace(s: string)
    ensures exists i :: StripsTo(s, i, Strip(s))
  {
    var t := TrimStart(s);
    var r := TrimEnd(t);
    assert r == Strip(s);
    assert StripsTo(s, |s| - |t|, r) by {
      assert s[|s| - |t|..][..|r|] == s[|s| - |t|..|s| - |t| + |r|];
      assert s[|s| - |t| + |r|..] == t[|r|..];
    }
  }

  /** A text already free of surrounding whitespace is left alone by `strip`. */
  lemma StripOfStripped(s: string)
    requires Trimmed(s)
    ensures Strip(s) == s
  {
  }

  /** `strip` is idempotent. */
  lemma StripIdempotent(s: string)
    ensures Strip(Strip(s)) == Strip(s)
  {
    StripOfStripped(Strip(s));
  }

  // ---------------------------------------------------------------- case

  function LowerChar(c: char): char {
    if 'A' <= c <= 'Z' then (c as int + 32) as char else c
  }

  function UpperChar(c: char): char {
    if 'a' <= c <= 'z' then (c as int - 32) as char else c
  }

  /** `str.lower()` on ASCII letters; every other character is kept. */
  function Lower(s: string): (r: string)
    ensures |r| == |s|
    ensures forall k :: 0 <= k < |s| ==> r[k] == LowerChar(s[k])
  {
    seq(|s|, k requires 0 <= k < |s| => LowerChar(s[k]))
  }

  /** `str.title()` on ASCII: a letter that follows a letter is lower-cased,
      every other letter is upper-cased. */
  function Title(s: string): (r: string)
    ensures |r| == |s|
    ensures forall k :: 0 <= k < |s| ==>
      r[k] == (if k > 0 && IsLetter(s[k - 1]) then LowerChar(s[k]) else UpperChar(s[k]))
  {
    seq(|s|, k requires 0 <= k < |s| =>
      if k > 0 && IsLetter(s[k - 1]) then LowerChar(s[k]) else UpperChar(s[k]))
  }

  /** Title-casing changes case only: lower-casing undoes it. */
  lemma TitleThenLower(s: string)
    ensures Lower(Title(s)) == Lower(s)
  {
  }

  /** What title case means for `r` written from `s`: a letter that
      starts a word becomes a capital, a letter inside a word becomes
      small, and every other character is kept. */
  predicate TitleCased(s: string, r: string) {
    && |r| == |s|
    && (forall k :: 0 <= k < |s| && !IsLetter(s[k]) ==> r[k] == s[k])
    && (forall k :: 0 <= k < |s| && IsLetter(s[k]) && (k == 0 || !IsLetter(s[k - 1])) ==>
          'A' <= r[k] <= 'Z')
    && (forall k :: 0 < k < |s| && IsLetter(s[k]) && IsLetter(s[k - 1]) ==> 'a' <= r[k] <= 'z')
  }

  lemma TitleCase(s: string)
    ensures TitleCased(s, Title(s))
  {
    var r := Title(s);
    forall k | 0 <= k < |s|
      ensures && (!IsLetter(s[k]) ==> r[k] == s[k])
              && (IsLetter(s[k]) && (k == 0 || !IsLetter(s[k - 1])) ==> 'A' <= r[k] <= 'Z')
              && (k > 0 && IsLetter(s[k]) && IsLetter(s[k - 1]) ==> 'a' <= r[k] <= 'z')
    {
    }
  }

  // ---------------------------------------------------------------- search

  predicate OccursAt(s: string, w: string, i: int) {
    0 <= i && i + |w| <= |s| && s[i..i + |w|] == w
  }

  /** Python's `w in s` for strings. */
  predicate Contains(s: string, w: string) {
    exists i | 0 <= i <= |s| :: OccursAt(s, w, i)
  }

  /** End of the longest run of characters satisfying `p` that starts at `i`. */
  function SpanEnd(s: string, i: nat, p: char -> bool): (e: nat)
    requires i <= |s|
    ensures i <= e <= |s|
    ensures forall k :: i <= k < e ==> p(s[k])
    ensures e == |s| || !p(s[e])
    decreases |s| - i
  {
    if i < |s| && p(s[i]) then SpanEnd(s, i + 1, p) else i
  }

  /** A run of `p` characters from `i` to `e`, not followed by another
      one, is exactly the run `SpanEnd` measures. */
  lemma {:induction false} SpanEndAt(s: string, i: nat, e: nat, p: char -> bool)
    requires i <= e <= |s|
    requires forall k :: i <= k < e ==> p(s[k])
    requires e == |s| || !p(s[e])
    ensures SpanEnd(s, i, p) == e
    decreases e - i
  {
    if i < e {
      SpanEndAt(s, i + 1, e, p);
    }
  }

  /** The same for a run given as the text `w` found at `i`. */
  lemma SpanOver(s: string, i: nat, w: string, p: char -> bool)
    requires i + |w| <= |s| && s[i..i + |w|] == w
    requires forall k :: 0 <= k < |w| ==> p(w[k])
    requires i + |w| == |s| || !p(s[i + |w|])
    ensures SpanEnd(s, i, p) == i + |w|
  {
    forall k | i <= k < i + |w|
      ensures p(s[k])
    {
      assert s[k] == w[k - i];
    }
    SpanEndAt(s, i, i + |w|, p);
  }

  /** `s.replace(c, '')` for a single character `c`. */
  function Without(s: string, c: char): (r: string)
    ensures c !in r
    ensures forall x :: x in r ==> x in s
    ensures forall x :: x in s && x != c ==> x in r
  {
    if s == [] then []
    else if s[0] == c then Without(s[1..], c)
    else [s[0]] + Without(s[1..], c)
  }

  lemma WithoutAppend(a: string, b: string, c: char)
    ensures Without(a + b, c) == Without(a, c) + Without(b, c)
  {
    if a != [] {
      assert (a + b)[1..] == a[1..] + b;
      WithoutAppend(a[1..], b, c);
    } else {
      assert a + b == b;
    }
  }

  lemma WithoutAbsent(s: string, c: char)
    requires c !in s
    ensures Without(s, c) == s
  {
  }

  lemma WithoutTwice(s: string, c: char)
    ensures Without(Without(s, c), c) == Without(s, c)
  {
    WithoutAbsent(Without(s, c), c);
  }

  // ---------------------------------------------------------------- split

  /** `str.split(sep)` with an explicit one-character separator: empty
      pieces are kept and there is always at least one piece. */
  function Split(s: string, sep: char): (r: seq<string>)
    ensures |r| >= 1
    ensures forall k :: 0 <= k < |r| ==> sep !in r[k]
  {
    if s == [] then [[]]
    else
      var rest := Split(s[1..], sep);
      if s[0] == sep then [[]] + rest
      else [[s[0]] + rest[0]] + rest[1..]
  }

  /** `sep.join(parts)`. */
  function Join(parts: seq<string>, sep: char): string
    requires |parts| >= 1
  {
    if |parts| == 1 then parts[0] else parts[0] + [sep] + Join(parts[1..], sep)
  }

  /** Splitting loses nothing: joining the pieces gives the text back. */
  lemma {:induction false} SplitJoin(s: string, sep: char)
    ensures Join(Split(s, sep), sep) == s
  {
    if s != [] {
      var rest := Split(s[1..], sep);
      SplitJoin(s[1..], sep);
      if s[0] == sep {
        assert Split(s, sep)[1..] == rest;
      } else {
        var parts := Split(s, sep);
        assert parts[0] == [s[0]] + rest[0];
        if |rest| > 1 {
          assert parts[1..] == rest[1..];
          assert Join(rest, sep) == rest[0] + [sep] + Join(rest[1..], sep);
        }
      }
    }
  }

  // ---------------------------------------------------------------- slices

  /** Python's `s[:k]` for any integer `k`; a negative `k` drops `-k`
      elements from the end. */
  function PrefixSlice<T>(s: seq<T>, k: int): (r: seq<T>)
    ensures |r| == (if k >= 0 then Min(k, |s|) else Max(|s| + k, 0))
    ensures r == s[..|r|]
  {
    if k >= 0 then s[..Min(k, |s|)] else s[..Max(|s| + k, 0)]
  }

  // ---------------------------------------------------------------- numbers

  function DigitValue(c: char): nat
    requires IsDigit(c)
  {
    c as int - '0' as int
  }

  /** The natural number written in decimal by `ds`; the empty string is 0. */
  function NatOf(ds: string): nat
    requires AllDigits(ds)
  {
    if ds == [] then 0 else 10 * NatOf(ds[..|ds| - 1]) + DigitValue(ds[|ds| - 1])
  }
}
