/**
 * The pattern-matching vocabulary the extractor's regular expressions are written in.
 *
 * Each regular expression of the extractor becomes an anchored matcher: a function that,
 * given the text and a start position, says whether the pattern matches there and what its
 * capture groups hold, choosing among alternatives in the order a backtracking engine tries
 * them (greedy quantifiers longest first, lazy ones shortest first). `FirstMatch` then gives
 * `String.prototype.match` (leftmost match) and one `RegExp.exec` step, and `AllMatches` the
 * loop `while ((m = re.exec(text)) !== null)` over a pattern with the `g` flag.
 */
module Scan {
  import opened Wrappers
  import opened Text

  /** Where a pattern matched, and what it yielded there. */
  datatype Found<T> = Found(pos: nat, value: T)

  /** The leftmost position at or after `from` where the anchored pattern `m` matches. */
  function FirstMatch<T>(s: string, from: nat, m: (string, nat) -> Option<T>): (r: Option<Found<T>>)
    ensures r.Some? ==> from <= r.value.pos <= |s| && m(s, r.value.pos) == Some(r.value.value)
    ensures r.Some? ==> forall p | from <= p < r.value.pos :: m(s, p).None?
    ensures r.None? ==> forall p | from <= p <= |s| :: m(s, p).None?
    decreases |s| + 1 - from
  {
    if from > |s| then None
    else
      match m(s, from)
      case Some(v) => Some(Found(from, v))
      case None => FirstMatch(s, from + 1, m)
  }

  /** `s.match(re)` without the `g` flag: what the leftmost match yields. */
  function Search<T>(s: string, m: (string, nat) -> Option<T>): (r: Option<T>)
    ensures r.Some? <==> exists p | 0 <= p <= |s| :: m(s, p).Some?
  {
    match FirstMatch(s, 0, m)
    case None => None
    case Some(f) => Some(f.value)
  }

  /** Every match of `m` in `s` ends after it starts and inside the text. */
  predicate Advances<T>(s: string, m: (string, nat) -> Option<T>, endOf: T -> nat)
  {
    forall p | 0 <= p <= |s| && m(s, p).Some? :: p < endOf(m(s, p).value) <= |s|
  }

  /**
   * The matches a `g`-flag `exec` loop sees when started with `lastIndex = from`: each search
   * resumes where the previous match ended, and the loop stops at the first failed search.
   */
  function AllMatches<T>(s: string, from: nat, m: (string, nat) -> Option<T>, endOf: T -> nat): seq<Found<T>>
    requires Advances(s, m, endOf)
    decreases |s| + 1 - from
  {
    match FirstMatch(s, from, m)
    case None => []
    case Some(f) => [f] + AllMatches(s, endOf(f.value), m, endOf)
  }

  /** One turn of the `exec` loop: the first match found, then the matches after its end. */
  lemma AllMatchesCons<T>(s: string, from: nat, m: (string, nat) -> Option<T>, endOf: T -> nat, f: Found<T>)
    requires Advances(s, m, endOf) && FirstMatch(s, from, m) == Some(f)
    ensures from <= f.pos < endOf(f.value) <= |s|
    ensures AllMatches(s, from, m, endOf) == [f] + AllMatches(s, endOf(f.value), m, endOf)
  {
  }

  /**
   * One turn of an `exec` loop started at `start`: when the matches seen so far are followed by
   * the matches from `from` on, the next match found is the next one seen.
   */
  lemma AllMatchesStep<T>(s: string, start: nat, from: nat, m: (string, nat) -> Option<T>, endOf: T -> nat,
                          seen: seq<Found<T>>, f: Found<T>)
    requires Advances(s, m, endOf)
    requires AllMatches(s, start, m, endOf) == seen + AllMatches(s, from, m, endOf)
    requires FirstMatch(s, from, m) == Some(f)
    ensures from <= f.pos < endOf(f.value) <= |s|
    ensures AllMatches(s, start, m, endOf) == (seen + [f]) + AllMatches(s, endOf(f.value), m, endOf)
  {
    AllMatchesCons(s, from, m, endOf, f);
  }

  /** The loop ends with every match seen once the search fails. */
  lemma AllMatchesDone<T>(s: string, start: nat, from: nat, m: (string, nat) -> Option<T>, endOf: T -> nat,
                          seen: seq<Found<T>>)
    requires Advances(s, m, endOf)
    requires AllMatches(s, start, m, endOf) == seen + AllMatches(s, from, m, endOf)
    requires FirstMatch(s, from, m).None?
    ensures AllMatches(s, start, m, endOf) == seen
  {
    assert AllMatches(s, from, m, endOf) == [];
  }

  /** Where the search for the `k`-th match of a loop started at `from` begins. */
  function ResumeAt<T>(from: nat, ms: seq<Found<T>>, endOf: T -> nat, k: nat): nat
    requires k <= |ms|
  {
    if k == 0 then from else endOf(ms[k - 1].value)
  }

  /** Each match was found where its search resumed or later, ends after it starts, and is genuine. */
  ghost predicate MatchesGenuine<T>(s: string, from: nat, m: (string, nat) -> Option<T>, endOf: T -> nat, ms: seq<Found<T>>)
  {
    forall k | 0 <= k < |ms| :: m(s, ms[k].pos) == Some(ms[k].value)
      && ResumeAt(from, ms, endOf, k) <= ms[k].pos < endOf(ms[k].value) <= |s|
  }

  /** No match starts between where a search resumed and the match it returned. */
  predicate NoneSkipped<T>(s: string, from: nat, m: (string, nat) -> Option<T>, endOf: T -> nat, ms: seq<Found<T>>)
  {
    forall k, p | 0 <= k < |ms| && ResumeAt(from, ms, endOf, k) <= p < ms[k].pos :: m(s, p).None?
  }

  /** No match starts after the last search resumed. */
  predicate NoneAfter<T>(s: string, from: nat, m: (string, nat) -> Option<T>, endOf: T -> nat, ms: seq<Found<T>>)
  {
    forall p | ResumeAt(from, ms, endOf, |ms|) <= p <= |s| :: m(s, p).None?
  }

  lemma ResumeShift<T>(from: nat, f: Found<T>, rest: seq<Found<T>>, endOf: T -> nat, k: nat)
    requires 1 <= k <= |rest| + 1
    ensures ResumeAt(from, [f] + rest, endOf, k) == ResumeAt(endOf(f.value), rest, endOf, k - 1)
  {
    if k > 1 {
      assert ([f] + rest)[k - 1] == rest[k - 2];
    }
  }

  lemma {:induction false} AllMatchesGenuine<T>(s: string, from: nat, m: (string, nat) -> Option<T>, endOf: T -> nat)
    requires Advances(s, m, endOf)
    ensures MatchesGenuine(s, from, m, endOf, AllMatches(s, from, m, endOf))
    decreases |s| + 1 - from
  {
    var ms := AllMatches(s, from, m, endOf);
    match FirstMatch(s, from, m)
    case None =>
    case Some(f) =>
      var e := endOf(f.value);
      var rest := AllMatches(s, e, m, endOf);
      AllMatchesGenuine(s, e, m, endOf);
      assert ms == [f] + rest;
      forall k | 0 <= k < |ms|
        ensures m(s, ms[k].pos) == Some(ms[k].value)
        ensures ResumeAt(from, ms, endOf, k) <= ms[k].pos < endOf(ms[k].value) <= |s|
      {
        if k > 0 {
          assert ms[k] == rest[k - 1];
          ResumeShift(from, f, rest, endOf, k);
        }
      }
  }

  lemma {:induction false} AllMatchesNoneSkipped<T>(s: string, from: nat, m: (string, nat) -> Option<T>, endOf: T -> nat)
    requires Advances(s, m, endOf)
    ensures NoneSkipped(s, from, m, endOf, AllMatches(s, from, m, endOf))
    decreases |s| + 1 - from
  {
    var ms := AllMatches(s, from, m, endOf);
    match FirstMatch(s, from, m)
    case None =>
    case Some(f) =>
      var e := endOf(f.value);
      var rest := AllMatches(s, e, m, endOf);
      AllMatchesNoneSkipped(s, e, m, endOf);
      assert ms == [f] + rest;
      forall k, p | 0 <= k < |ms| && ResumeAt(from, ms, endOf, k) <= p < ms[k].pos
        ensures m(s, p).None?
      {
        if k > 0 {
          assert ms[k] == rest[k - 1];
          ResumeShift(from, f, rest, endOf, k);
        }
      }
  }

  lemma {:induction false} AllMatchesNoneAfter<T>(s: string, from: nat, m: (string, nat) -> Option<T>, endOf: T -> nat)
    requires Advances(s, m, endOf)
    ensures NoneAfter(s, from, m, endOf, AllMatches(s, from, m, endOf))
    decreases |s| + 1 - from
  {
    var ms := AllMatches(s, from, m, endOf);
    match FirstMatch(s, from, m)
    case None =>
    case Some(f) =>
      var e := endOf(f.value);
      var rest := AllMatches(s, e, m, endOf);
      AllMatchesNoneAfter(s, e, m, endOf);
      assert ms == [f] + rest;
      ResumeShift(from, f, rest, endOf, |ms|);
  }

  /**
   * The loop's matches are genuine, in text order and non-overlapping, and none is skipped:
   * no match starts between one search's start and the match it returns, nor after the last.
   */
  lemma AllMatchesSound<T>(s: string, from: nat, m: (string, nat) -> Option<T>, endOf: T -> nat)
    requires Advances(s, m, endOf)
    ensures var ms := AllMatches(s, from, m, endOf);
      && (forall k | 0 <= k < |ms| :: m(s, ms[k].pos) == Some(ms[k].value)
            && ResumeAt(from, ms, endOf, k) <= ms[k].pos < endOf(ms[k].value) <= |s|)
      && (forall k, p | 0 <= k < |ms| && ResumeAt(from, ms, endOf, k) <= p < ms[k].pos :: m(s, p).None?)
      && (forall p | ResumeAt(from, ms, endOf, |ms|) <= p <= |s| :: m(s, p).None?)
  {
    AllMatchesGenuine(s, from, m, endOf);
    AllMatchesNoneSkipped(s, from, m, endOf);
    AllMatchesNoneAfter(s, from, m, endOf);
  }

  /** Every match of the loop starts at or after `from` and after every earlier match has ended. */
  lemma {:induction false} AllMatchesOrdered<T>(s: string, from: nat, m: (string, nat) -> Option<T>, endOf: T -> nat)
    requires Advances(s, m, endOf)
    ensures var ms := AllMatches(s, from, m, endOf);
      && (forall k | 0 <= k < |ms| :: from <= ms[k].pos < endOf(ms[k].value))
      && (forall i, j | 0 <= i < j < |ms| :: endOf(ms[i].value) <= ms[j].pos)
    decreases |s| + 1 - from
  {
    var ms := AllMatches(s, from, m, endOf);
    match FirstMatch(s, from, m)
    case None =>
    case Some(f) =>
      var e := endOf(f.value);
      var rest := AllMatches(s, e, m, endOf);
      AllMatchesOrdered(s, e, m, endOf);
      assert ms == [f] + rest;
      assert m(s, f.pos) == Some(f.value);
      assert from <= f.pos < e;
      assert forall k | 0 <= k < |rest| :: e <= rest[k].pos < endOf(rest[k].value) by {
        assert forall k | 0 <= k < |AllMatches(s, e, m, endOf)| ::
          e <= AllMatches(s, e, m, endOf)[k].pos < endOf(AllMatches(s, e, m, endOf)[k].value);
      }
      assert forall i, j | 0 <= i < j < |rest| :: endOf(rest[i].value) <= rest[j].pos by {
        assert forall i, j | 0 <= i < j < |AllMatches(s, e, m, endOf)| ::
          endOf(AllMatches(s, e, m, endOf)[i].value) <= AllMatches(s, e, m, endOf)[j].pos;
      }
      forall k | 0 <= k < |ms| ensures from <= ms[k].pos < endOf(ms[k].value) {
        if k > 0 { assert ms[k] == rest[k - 1]; assert e <= rest[k - 1].pos; }
      }
      forall i, j | 0 <= i < j < |ms| ensures endOf(ms[i].value) <= ms[j].pos {
        assert ms[j] == rest[j - 1];
        if i > 0 { assert ms[i] == rest[i - 1]; } else { assert e <= rest[j - 1].pos; }
      }
  }

  /** Consecutive matches of the loop do not overlap. */
  lemma AllMatchesDisjoint<T>(s: string, from: nat, m: (string, nat) -> Option<T>, endOf: T -> nat, k: nat)
    requires Advances(s, m, endOf)
    requires k + 1 < |AllMatches(s, from, m, endOf)|
    ensures var ms := AllMatches(s, from, m, endOf);
      ms[k].pos < endOf(ms[k].value) <= ms[k + 1].pos
  {
    AllMatchesSound(s, from, m, endOf);
    var ms := AllMatches(s, from, m, endOf);
    assert ResumeAt(from, ms, endOf, k + 1) == endOf(ms[k].value);
  }

  /** A match with none before it, from `from` on, is the one `FirstMatch` finds. */
  lemma FirstMatchAt<T>(s: string, from: nat, m: (string, nat) -> Option<T>, e: nat)
    requires from <= e <= |s| && m(s, e).Some?
    requires forall p | from <= p < e :: m(s, p).None?
    ensures FirstMatch(s, from, m) == Some(Found(e, m(s, e).value))
  {
    var f := FirstMatch(s, from, m).value;
    assert !(f.pos < e) && !(e < f.pos);
  }

  // ---------------------------------------------------------------- building blocks

  /** The first index from `k` on where `stop` holds, or the end of the text. */
  function FirstWhere(s: string, k: nat, stop: (string, nat) -> bool): (e: nat)
    requires k <= |s|
    ensures k <= e <= |s| && (e == |s| || stop(s, e))
    ensures forall j | k <= j < e :: !stop(s, j)
    decreases |s| - k
  {
    if k == |s| || stop(s, k) then k else FirstWhere(s, k + 1, stop)
  }

  /**
   * Words separated by `\s+`, compared without case (`DP\s+Name` with the `i` flag): the index
   * after the last word. Every word used starts with a letter, so a shorter whitespace run
   * never lets the next word match; the greedy run is the only choice.
   */
  function WordsAt(s: string, p: nat, words: seq<string>): (r: Option<nat>)
    ensures r.Some? ==> p <= r.value <= |s|
    decreases |words|
  {
    if |words| == 0 then (if p <= |s| then Some(p) else None)
    else if !AtIc(s, p, words[0]) then None
    else if |words| == 1 then Some(p + |words[0]|)
    else
      match WsPlus(s, p + |words[0]|)
      case None => None
      case Some(q) => WordsAt(s, q, words[1..])
  }

  /**
   * Where the capture of `\s*:?\s*(X)` starts, for a class X that admits neither whitespace
   * nor a colon: after the whitespace, past the colon and the whitespace after it if there is
   * one. Giving back whitespace or the colon would put a character X refuses at the start.
   */
  function AfterColon(s: string, q: nat): (c: nat)
    requires q <= |s|
    ensures q <= c <= |s|
  {
    var c0 := SkipWs(s, q);
    if c0 < |s| && s[c0] == ':' then SkipWs(s, c0 + 1) else c0
  }

  /** `\s*:?\s*([class]+)` from `q`: the run captured after an optional colon. */
  function RunAfterColon(s: string, q: nat, cls: char -> bool): (r: Option<string>)
    requires q <= |s|
    ensures r.Some? ==> |r.value| > 0 && forall k | 0 <= k < |r.value| :: cls(r.value[k])
  {
    var c := AfterColon(s, q);
    match RunEnd(s, c, cls, 1)
    case None => None
    case Some(e) => SliceOfRun(s, c, e, c, e, cls); Some(s[c..e])
  }

  /** Blanks with at most one colon among them, then a non-blank at `c`: the capture starts at `c`. */
  lemma AfterColonAt(s: string, q: nat, c: nat)
    requires q <= c < |s| && !IsWs(s[c]) && s[c] != ':'
    requires forall k | q <= k < c :: IsWs(s[k]) || (s[k] == ':' && forall j | q <= j < k :: IsWs(s[j]))
    ensures AfterColon(s, q) == c
  {
    var c0 := SkipWs(s, q);
    assert c0 <= c;
    if c0 < c {
      assert s[c0] == ':';
      assert forall k | c0 + 1 <= k < c :: IsWs(s[k]);
      SkipWhileRun(s, c0 + 1, c, IsWs);
    }
  }

  /** `[class]{min,}` at `i`, greedy: the end of the longest run, when it is long enough. */
  function RunEnd(s: string, i: nat, p: char -> bool, min: nat): (r: Option<nat>)
    requires i <= |s|
    ensures r.Some? ==> i + min <= r.value <= |s|
    ensures r.Some? ==> r.value == SkipWhile(s, i, p)
    ensures r.None? ==> SkipWhile(s, i, p) < i + min
  {
    var j := SkipWhile(s, i, p);
    if j - i >= min then Some(j) else None
  }

  /**
   * `W(?:\s+W')*` followed by `stop`, from `w`, where `W` is a letter run of at least `min`
   * characters and `W'` one of at least `more` (`[A-Z][a-z]+(?:\s+[a-z]+)*` with the `i` flag):
   * where the chain ends. The repetition is greedy, so a longer chain that still reaches `stop`
   * is preferred; since `stop` and every further word begin with whitespace, a word is always
   * taken whole.
   */
  function WordChain(s: string, w: nat, min: nat, more: nat, stop: (string, nat) -> bool): (r: Option<nat>)
    requires w <= |s| && min >= 1 && more >= 1
    ensures r.Some? ==> w + min <= r.value <= |s| && stop(s, r.value)
    ensures r.Some? ==> IsLetter(s[w]) && IsLetter(s[r.value - 1])
    ensures r.Some? ==> forall k | w <= k < r.value :: IsLetter(s[k]) || IsWs(s[k])
    decreases |s| - w
  {
    match RunEnd(s, w, IsLetter, min)
    case None => None
    case Some(e) =>
      var deeper := match WsPlus(s, e) case Some(q) => WordChain(s, q, more, more, stop) case None => None;
      if deeper.Some? then deeper
      else if stop(s, e) then Some(e)
      else None
  }

  /** `[^\n]+` from `i`: the rest of the line. */
  function LineFrom(s: string, i: nat): (r: string)
    requires i <= |s|
    ensures forall k | 0 <= k < |r| :: r[k] != '\n'
  {
    s[i..SkipWhile(s, i, c => c != '\n')]
  }

  /** The last index in `[lo, hi)` whose character is not a line feed. */
  function LastNotNewline(s: string, lo: nat, hi: nat): (r: Option<nat>)
    requires lo <= hi <= |s|
    ensures r.Some? ==> lo <= r.value < hi && s[r.value] != '\n'
    ensures r.Some? ==> forall k | r.value < k < hi :: s[k] == '\n'
    ensures r.None? ==> forall k | lo <= k < hi :: s[k] == '\n'
    decreases hi
  {
    if hi == lo then None
    else if s[hi - 1] != '\n' then Some(hi - 1)
    else LastNotNewline(s, lo, hi - 1)
  }

  /**
   * `\s*:?\s*([^\n]+)` from `q`. Normally the capture is the rest of the line after the label,
   * its colon and the whitespace around it. When only whitespace follows, the engine gives
   * whitespace back from the right until the capture can start on a character that is not a line
   * feed, and as a last resort lets the capture start on the colon itself.
   */
  function LineCapture(s: string, q: nat): (r: Option<string>)
    requires q <= |s|
  {
    var c0 := SkipWs(s, q);
    if c0 < |s| && s[c0] == ':' then
      var c1 := SkipWs(s, c0 + 1);
      if c1 < |s| then Some(LineFrom(s, c1))
      else
        match LastNotNewline(s, c0 + 1, |s|)
        case Some(k) => Some(LineFrom(s, k))
        case None => Some(LineFrom(s, c0))
    else if c0 < |s| then Some(LineFrom(s, c0))
    else
      match LastNotNewline(s, q, |s|)
      case Some(k) => Some(LineFrom(s, k))
      case None => None
  }

  /** `\s*:\s*([^\n]+)` from `q`, where the colon is required. */
  function LineCaptureColon(s: string, q: nat): (r: Option<string>)
    requires q <= |s|
  {
    var c0 := SkipWs(s, q);
    if c0 < |s| && s[c0] == ':' then
      var c1 := SkipWs(s, c0 + 1);
      if c1 < |s| then Some(LineFrom(s, c1))
      else
        match LastNotNewline(s, c0 + 1, |s|)
        case Some(k) => Some(LineFrom(s, k))
        case None => None
    else None
  }

  /**
   * On an ordinary line `label: value` (the colon optional), the capture is the value, from its
   * first character to the end of the line.
   */
  lemma LineCaptureValue(s: string, q: nat, colon: nat, start: nat)
    requires q <= colon <= start < |s|
    requires forall k | q <= k < colon :: IsWs(s[k])
    requires colon == start || (s[colon] == ':' && forall k | colon < k < start :: IsWs(s[k]))
    requires !IsWs(s[start]) && s[start] != ':'
    ensures LineCapture(s, q) == Some(LineFrom(s, start))
  {
    SkipWhileRun(s, q, colon, IsWs);
    if colon < start {
      SkipWhileRun(s, colon + 1, start, IsWs);
    }
  }
}
