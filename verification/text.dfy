/** String helpers standing in for the pieces of Go's `strings` and `strconv`
    packages and the character classes of Go's RE2 regular expressions that
    the renderers rely on. Strings are sequences of Unicode scalar values. */
module Text {

  datatype Option<T> = None | Some(value: T)

  /** `\s` in Go's RE2 syntax: exactly the five characters [\t\n\f\r ]. */
  predicate IsRegexSpace(c: char) {
    c == '\t' || c == '\n' || c == '\U{C}' || c == '\r' || c == ' '
  }

  /** unicode.IsSpace: the White_Space property, as `strings.TrimSpace` uses it. */
  predicate IsUnicodeSpace(c: char) {
    || c == '\t' || c == '\n' || c == '\U{B}' || c == '\U{C}' || c == '\r' || c == ' '
    || c == '\U{85}' || c == '\U{A0}' || c == '\U{1680}'
    || ('\U{2000}' <= c <= '\U{200A}')
    || c == '\U{2028}' || c == '\U{2029}' || c == '\U{202F}' || c == '\U{205F}' || c == '\U{3000}'
  }

  /** `strings.TrimSpace(s) == ""`. */
  predicate IsBlank(s: string) {
    forall i | 0 <= i < |s| :: IsUnicodeSpace(s[i])
  }

  predicate IsDigit(c: char) {
    '0' <= c <= '9'
  }

  /** All characters of s[i..j] equal c. */
  predicate RunOf(s: string, i: nat, j: nat, c: char)
    requires i <= j <= |s|
  {
    forall k | i <= k < j :: s[k] == c
  }

  /** Index of the first occurrence of c in s, or |s| when there is none. */
  function IndexOf(s: string, c: char): (k: nat)
    ensures k <= |s|
    ensures k < |s| ==> s[k] == c
    ensures forall i | 0 <= i < k :: s[i] != c
  {
    if |s| == 0 then 0
    else if s[0] == c then 0
    else 1 + IndexOf(s[1..], c)
  }

  /** Where a regex `.` run starting at 0 must stop: the first '\n'. */
  function LineEnd(s: string): nat {
    IndexOf(s, '\n')
  }

  /** What a greedy `(.*)` captures at the start of s: everything before the first '\n'. */
  function Head(s: string): (r: string)
    ensures r <= s
    ensures '\n' !in r
    ensures '\n' !in s ==> r == s
  {
    s[..LineEnd(s)]
  }

  /** Length of the longest prefix of s made of RE2 `\s` characters. */
  function SpaceRun(s: string): (k: nat)
    ensures k <= |s|
    ensures forall i | 0 <= i < k :: IsRegexSpace(s[i])
    ensures k < |s| ==> !IsRegexSpace(s[k])
  {
    if |s| == 0 || !IsRegexSpace(s[0]) then 0 else 1 + SpaceRun(s[1..])
  }

  /** Length of the run of ASCII digits in s starting at i. */
  function DigitRun(s: string, i: nat): (n: nat)
    requires i <= |s|
    ensures i + n <= |s|
    ensures forall k | i <= k < i + n :: IsDigit(s[k])
    ensures i + n < |s| ==> !IsDigit(s[i + n])
    decreases |s| - i
  {
    if i == |s| || !IsDigit(s[i]) then 0 else 1 + DigitRun(s, i + 1)
  }

  /** Length of the run of c in s starting at i. */
  function CharRun(s: string, i: nat, c: char): (n: nat)
    requires i <= |s|
    ensures i + n <= |s|
    ensures RunOf(s, i, i + n, c)
    ensures i + n < |s| ==> s[i + n] != c
    decreases |s| - i
  {
    if i == |s| || s[i] != c then 0 else 1 + CharRun(s, i + 1, c)
  }

  /** `strings.Repeat(string(c), n)` for a single character. */
  function Replicate(c: char, n: nat): (r: string)
    ensures |r| == n
    ensures forall i | 0 <= i < n :: r[i] == c
  {
    if n == 0 then [] else [c] + Replicate(c, n - 1)
  }

  /** `strings.TrimRight(s, cutset)`: drops every trailing character that occurs in cutset. */
  function TrimRight(s: string, cutset: string): (r: string)
    ensures r <= s
    ensures |r| == 0 || r[|r| - 1] !in cutset
    ensures forall i | |r| <= i < |s| :: s[i] in cutset
  {
    if |s| == 0 || s[|s| - 1] !in cutset then s else TrimRight(s[..|s| - 1], cutset)
  }

  /** `strings.TrimRight(s, "  ")` changes s exactly when s ends in one space: the
      second argument is a set of characters, not a suffix. */
  lemma TrimRightCutsetIsOneSpace(s: string)
    ensures TrimRight(s, "  ") != s <==> |s| > 0 && s[|s| - 1] == ' '
  {
  }

  predicate HasSuffix(s: string, t: string) {
    |t| <= |s| && s[|s| - |t|..] == t
  }

  /** `strings.Replace(s, string(c), t, 1)`. */
  function ReplaceFirst(s: string, c: char, t: string): (r: string)
    ensures c !in s ==> r == s
    ensures c in s ==> r == s[..IndexOf(s, c)] + t + s[IndexOf(s, c) + 1..]
  {
    var k := IndexOf(s, c);
    if k == |s| then s else s[..k] + t + s[k + 1..]
  }

  /** Number of positions of s holding a character of cs. */
  function CountIn(s: string, cs: set<char>): nat {
    if |s| == 0 then 0 else (if s[0] in cs then 1 else 0) + CountIn(s[1..], cs)
  }

  lemma {:induction false} CountInConcat(a: string, b: string, cs: set<char>)
    ensures CountIn(a + b, cs) == CountIn(a, cs) + CountIn(b, cs)
  {
    if |a| == 0 {
      assert a + b == b;
    } else {
      assert (a + b)[1..] == a[1..] + b;
      CountInConcat(a[1..], b, cs);
    }
  }

  lemma {:induction false} CountInNone(s: string, cs: set<char>)
    requires forall i | 0 <= i < |s| :: s[i] !in cs
    ensures CountIn(s, cs) == 0
  {
    if |s| > 0 {
      CountInNone(s[1..], cs);
    }
  }

  lemma {:induction false} CountInAll(s: string, cs: set<char>)
    requires forall i | 0 <= i < |s| :: s[i] in cs
    ensures CountIn(s, cs) == |s|
  {
    if |s| > 0 {
      CountInAll(s[1..], cs);
    }
  }

  /** A character that does not occur in s is not counted. */
  lemma {:induction false} CountInAbsent(s: string, c: char)
    requires c !in s
    ensures CountIn(s, {c}) == 0
  {
    CountInNone(s, {c});
  }

  /** A slice without counted characters counts zero. */
  lemma CountInSliceNone(s: string, i: nat, j: nat, cs: set<char>)
    requires i <= j <= |s|
    requires forall k | i <= k < j :: s[k] !in cs
    ensures CountIn(s[i..j], cs) == 0
  {
    forall k | 0 <= k < j - i
      ensures s[i..j][k] !in cs
    {
      assert s[i..j][k] == s[i + k];
    }
    CountInNone(s[i..j], cs);
  }

  /** A run of one counted character counts fully. */
  lemma CountInRun(s: string, i: nat, j: nat, c: char, cs: set<char>)
    requires i <= j <= |s| && RunOf(s, i, j, c) && c in cs
    ensures CountIn(s[i..j], cs) == j - i
  {
    forall k | 0 <= k < j - i
      ensures s[i..j][k] in cs
    {
      assert s[i..j][k] == s[i + k];
    }
    CountInAll(s[i..j], cs);
  }

  /** Replacing the slice s[a..e] by open + kept + close and cutting the rest
      down to a prefix tail loses at least d counted characters, when the slice
      held d more than kept and the escapes hold none. */
  lemma CountAfterSplice(s: string, a: nat, e: nat, open: string, kept: string, close: string, tail: string, cs: set<char>, d: nat)
    requires a <= e <= |s|
    requires CountIn(s[a..e], cs) >= CountIn(kept, cs) + d
    requires CountIn(open, cs) == 0 && CountIn(close, cs) == 0
    requires tail <= s[e..]
    ensures CountIn(s[..a] + open + kept + close + tail, cs) + d <= CountIn(s, cs)
    ensures CountIn(s[a..e], cs) == CountIn(kept, cs) + d && tail == s[e..] ==>
      CountIn(s[..a] + open + kept + close + tail, cs) + d == CountIn(s, cs)
  {
    assert s == s[..a] + s[a..e] + s[e..];
    CountInConcat(s[..a], s[a..e], cs);
    CountInConcat(s[..a] + s[a..e], s[e..], cs);
    CountInPrefix(s[e..], tail, cs);
    CountInConcat(s[..a], open, cs);
    CountInConcat(s[..a] + open, kept, cs);
    CountInConcat(s[..a] + open + kept, close, cs);
    CountInConcat(s[..a] + open + kept + close, tail, cs);
  }

  /** Counting is additive over adjacent slices. */
  lemma CountInSlices(s: string, i: nat, j: nat, k: nat, cs: set<char>)
    requires i <= j <= k <= |s|
    ensures CountIn(s[i..k], cs) == CountIn(s[i..j], cs) + CountIn(s[j..k], cs)
  {
    assert s[i..k] == s[i..j] + s[j..k];
    CountInConcat(s[i..j], s[j..k], cs);
  }

  lemma CountInPrefix(s: string, t: string, cs: set<char>)
    requires t <= s
    ensures CountIn(t, cs) <= CountIn(s, cs)
  {
    assert s == t + s[|t|..];
    CountInConcat(t, s[|t|..], cs);
  }

  /** strconv.Itoa for a non-negative number. */
  function Decimal(n: nat): (r: string)
    ensures |r| > 0
    ensures forall i | 0 <= i < |r| :: IsDigit(r[i])
    ensures r[0] == '0' ==> n == 0
  {
    if n < 10 then [(48 + n) as char] else Decimal(n / 10) + [(48 + n % 10) as char]
  }

  /** The number a string of decimal digits denotes (the inverse of Decimal). */
  function DigitsValue(s: string): nat
    requires forall i | 0 <= i < |s| :: IsDigit(s[i])
  {
    if |s| == 0 then 0
    else
      assert IsDigit(s[|s| - 1]);
      10 * DigitsValue(s[..|s| - 1]) + (s[|s| - 1] as int - 48)
  }

  lemma {:induction false} DecimalRoundTrip(n: nat)
    ensures DigitsValue(Decimal(n)) == n
  {
    if n >= 10 {
      var r := Decimal(n);
      assert r[..|r| - 1] == Decimal(n / 10);
      DecimalRoundTrip(n / 10);
    }
  }
}
