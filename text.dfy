/**
 * Character classes and string primitives with the meaning JavaScript gives them:
 * `\s` and `String.prototype.trim` whitespace, `includes`, `indexOf`, `startsWith`,
 * `split` on one character, and the ASCII case mapping a regex with the `i` flag uses.
 */
module Text {
  import opened Wrappers

  /** A prefix one longer is the prefix and the next element. */
  lemma TakeOneMore<T>(xs: seq<T>, i: nat)
    requires i < |xs|
    ensures xs[..i + 1] == xs[..i] + [xs[i]]
  {
  }

  /** The whitespace of JavaScript's `\s` and `trim`: WhiteSpace and LineTerminator code points. */
  predicate IsWs(c: char) {
    || c == ' ' || c == '\t' || c == '\n' || c == '\r' || c == '\U{B}' || c == '\U{C}'
    || c == '\U{A0}' || c == '\U{1680}' || ('\U{2000}' <= c <= '\U{200A}')
    || c == '\U{2028}' || c == '\U{2029}' || c == '\U{202F}' || c == '\U{205F}'
    || c == '\U{3000}' || c == '\U{FEFF}'
  }

  predicate IsDigit(c: char) { '0' <= c <= '9' }
  predicate IsUpper(c: char) { 'A' <= c <= 'Z' }
  predicate IsLower(c: char) { 'a' <= c <= 'z' }
  predicate IsLetter(c: char) { IsUpper(c) || IsLower(c) }
  predicate IsUpperOrDigit(c: char) { IsUpper(c) || IsDigit(c) }
  predicate IsAlnum(c: char) { IsLetter(c) || IsDigit(c) }

  function LowerChar(c: char): char { if IsUpper(c) then (c as int + 32) as char else c }
  function UpperChar(c: char): char { if IsLower(c) then (c as int - 32) as char else c }

  /** `toLowerCase` on the ASCII letters. */
  function ToLower(s: string): string { seq(|s|, i requires 0 <= i < |s| => LowerChar(s[i])) }

  /** `toUpperCase` on the ASCII letters. */
  function ToUpper(s: string): string { seq(|s|, i requires 0 <= i < |s| => UpperChar(s[i])) }

  /** How a regex with the `i` flag compares a text character with a pattern character. */
  predicate SameIc(a: char, b: char) { UpperChar(a) == UpperChar(b) }

  /** `t` occurs in `s` at index `i`. */
  predicate At(s: string, i: nat, t: string) {
    i + |t| <= |s| && s[i..i + |t|] == t
  }

  /** `t` occurs in `s` at index `i`, letters compared without case. */
  predicate AtIc(s: string, i: nat, t: string) {
    i + |t| <= |s| && forall k | 0 <= k < |t| :: SameIc(s[i + k], t[k])
  }

  /** The end of the longest run of characters satisfying `p` that starts at `i`. */
  function SkipWhile(s: string, i: nat, p: char -> bool): (j: nat)
    requires i <= |s|
    ensures i <= j <= |s|
    ensures forall k | i <= k < j :: p(s[k])
    ensures j == |s| || !p(s[j])
    decreases |s| - i
  {
    if i < |s| && p(s[i]) then SkipWhile(s, i + 1, p) else i
  }

  /** A run that ends where `p` first fails is what `SkipWhile` skips. */
  lemma {:induction false} SkipWhileRun(s: string, i: nat, j: nat, p: char -> bool)
    requires i <= j <= |s|
    requires forall k | i <= k < j :: p(s[k])
    requires j == |s| || !p(s[j])
    ensures SkipWhile(s, i, p) == j
    decreases j - i
  {
    if i < j { SkipWhileRun(s, i + 1, j, p); }
  }

  /** A slice of a run of `p` characters is again all `p` characters. */
  lemma SliceOfRun(s: string, i: nat, j: nat, a: nat, b: nat, p: char -> bool)
    requires i <= a <= b <= j <= |s|
    requires forall k | i <= k < j :: p(s[k])
    ensures forall k | 0 <= k < |s[a..b]| :: p(s[a..b][k])
  {
    forall k | 0 <= k < |s[a..b]| ensures p(s[a..b][k]) { assert s[a..b][k] == s[a + k]; }
  }

  function SkipWs(s: string, i: nat): (j: nat)
    requires i <= |s|
    ensures i <= j <= |s|
    ensures forall k | i <= k < j :: IsWs(s[k])
    ensures j == |s| || !IsWs(s[j])
  {
    SkipWhile(s, i, IsWs)
  }

  /** `\s+` at `i`: the end of a non-empty whitespace run, if one starts there. */
  function WsPlus(s: string, i: nat): (r: Option<nat>)
    requires i <= |s|
    ensures r.Some? ==> i < r.value <= |s|
  {
    if i < |s| && IsWs(s[i]) then Some(SkipWs(s, i)) else None
  }

  /** `s.indexOf(t, from)`: the first occurrence of `t` at or after `from`. */
  function IndexOf(s: string, t: string, from: nat): (r: Option<nat>)
    ensures r.Some? ==> from <= r.value && At(s, r.value, t)
    ensures r.Some? ==> forall j | from <= j < r.value :: !At(s, j, t)
    ensures r.None? ==> forall j | from <= j :: !At(s, j, t)
    decreases |s| - from
  {
    if from > |s| then None
    else if At(s, from, t) then Some(from)
    else IndexOf(s, t, from + 1)
  }

  /** The first occurrence from `from` on is the one `IndexOf` finds. */
  lemma IndexOfFirst(s: string, t: string, from: nat, i: nat)
    requires from <= i && At(s, i, t)
    requires forall j | from <= j < i :: !At(s, j, t)
    ensures IndexOf(s, t, from) == Some(i)
  {
  }

  /** `s.includes(t)`. */
  predicate Contains(s: string, t: string) {
    IndexOf(s, t, 0).Some?
  }

  lemma ContainsIff(s: string, t: string)
    ensures Contains(s, t) <==> exists j: nat :: At(s, j, t)
  {
    if Contains(s, t) {
      var j := IndexOf(s, t, 0).value;
      assert At(s, j, t);
    }
  }

  /** `s.startsWith(t)`. */
  predicate StartsWith(s: string, t: string) { At(s, 0, t) }

  /** The end of `s[lo..hi]` once trailing whitespace is dropped. */
  function TrimEndIndex(s: string, lo: nat, hi: nat): (b: nat)
    requires lo <= hi <= |s|
    ensures lo <= b <= hi
    ensures forall k | b <= k < hi :: IsWs(s[k])
    ensures b == lo || !IsWs(s[b - 1])
    decreases hi
  {
    if hi == lo || !IsWs(s[hi - 1]) then hi else TrimEndIndex(s, lo, hi - 1)
  }

  /** `s.trim()`. */
  function Trim(s: string): (r: string)
    ensures |r| == 0 || (!IsWs(r[0]) && !IsWs(r[|r| - 1]))
  {
    var a := SkipWs(s, 0);
    s[a..TrimEndIndex(s, a, |s|)]
  }

  /** Every character of `s` is whitespace (so `s.trim().length === 0`). */
  predicate IsBlank(s: string) {
    forall i | 0 <= i < |s| :: IsWs(s[i])
  }

  lemma TrimEmptyIffBlank(s: string)
    ensures Trim(s) == "" <==> IsBlank(s)
  {
    var a := SkipWs(s, 0);
    var b := TrimEndIndex(s, a, |s|);
    if Trim(s) == "" {
      assert a == b;
      assert a == |s|;
    }
  }

  /** Trimming never lengthens. */
  lemma TrimShorter(s: string)
    ensures |Trim(s)| <= |s|
  {
  }

  /** `s.split(sep)` for a one-character separator: always at least one part. */
  function Split(s: string, sep: char): (parts: seq<string>)
    ensures |parts| >= 1
    decreases |s|
  {
    var i := SkipWhile(s, 0, c => c != sep);
    if i == |s| then [s] else [s[..i]] + Split(s[i + 1..], sep)
  }

  /** A string without the separator splits into itself. */
  lemma SplitNoSep(s: string, sep: char)
    requires forall i | 0 <= i < |s| :: s[i] != sep
    ensures Split(s, sep) == [s]
  {
  }

  /** Splitting at the first separator of `a + [sep] + b`, when `a` holds none. */
  lemma SplitFirst(a: string, sep: char, b: string)
    requires forall i | 0 <= i < |a| :: a[i] != sep
    ensures Split(a + [sep] + b, sep) == [a] + Split(b, sep)
  {
    var s := a + [sep] + b;
    var i := SkipWhile(s, 0, c => c != sep);
    assert s[|a|] == sep;
    assert forall k | 0 <= k < |a| :: s[k] == a[k];
    assert i == |a|;
    assert s[..i] == a;
    assert s[i + 1..] == b;
  }

  /** Two separators give at least three parts. */
  lemma {:induction false} SplitTwoSeps(s: string, sep: char, i: nat, j: nat)
    requires i < j < |s| && s[i] == sep && s[j] == sep
    ensures |Split(s, sep)| >= 3
    decreases |s|
  {
    var k := SkipWhile(s, 0, c => c != sep);
    assert k <= i;
    var rest := s[k + 1..];
    if k < i {
      assert rest[i - k - 1] == sep && rest[j - k - 1] == sep;
      SplitTwoSeps(rest, sep, i - k - 1, j - k - 1);
    } else {
      assert rest[j - k - 1] == sep;
      var k2 := SkipWhile(rest, 0, c => c != sep);
      assert k2 < |rest|;
    }
  }
}
