/**
 * Segmentation of a CDSL statement into demat-account definition sections: the text from
 * each `DP Name :` anchor up to the next `DP Name :`, `MF Folios`, `Mutual Fund` or the end,
 * kept only when it carries the account-definition fields and none of the transaction-page
 * markers, and is long enough to be an account block.
 */
module CdslSections {
  import opened Wrappers
  import opened Text
  import opened Scan

  /** `DP\s+Name\s*:` at `p`: the index just after the colon. */
  function DpNameLabelAt(s: string, p: nat): (r: Option<nat>)
    ensures r.Some? ==> p < r.value <= |s| && s[r.value - 1] == ':'
  {
    match WordsAt(s, p, ["DP", "Name"])
    case None => None
    case Some(q) =>
      var c0 := SkipWs(s, q);
      if c0 < |s| && s[c0] == ':' then Some(c0 + 1) else None
  }

  /** The lookahead `(?=DP\s+Name\s*:|MF\s+Folios|Mutual Fund|$)` (flag `i`) holds at `k`. */
  predicate SectionStopAt(s: string, k: nat)
  {
    || k == |s|
    || DpNameLabelAt(s, k).Some?
    || WordsAt(s, k, ["MF", "Folios"]).Some?
    || AtIc(s, k, "Mutual Fund")
  }

  /** `DP\s+Name\s*:\s*[A-Z]` (flag `i`) at `p`: the index of the letter that opens the capture. */
  function DpAnchorAt(s: string, p: nat): (r: Option<nat>)
    ensures r.Some? ==> p < r.value < |s| && IsLetter(s[r.value])
    ensures r.Some? ==> DpNameLabelAt(s, p).Some?
  {
    match DpNameLabelAt(s, p)
    case None => None
    case Some(c) =>
      var l := SkipWs(s, c);
      if l < |s| && IsLetter(s[l]) then Some(l) else None
  }

  /** The lazy `[^]*?` followed by the lookahead: the first index from `k` on where it holds. */
  function LazyStop(s: string, k: nat): (e: nat)
    requires k <= |s|
    ensures k <= e <= |s| && SectionStopAt(s, e)
    ensures forall j | k <= j < e :: !SectionStopAt(s, j)
  {
    FirstWhere(s, k, SectionStopAt)
  }

  /**
   * The whole section pattern at `p`: the end of the match. It runs from the anchor past the
   * capture's first letter to the first place where the lookahead holds.
   */
  function DpSectionAt(s: string, p: nat): (r: Option<nat>)
    ensures r.Some? <==> DpAnchorAt(s, p).Some?
    ensures r.Some? ==> p < r.value <= |s| && SectionStopAt(s, r.value)
    ensures r.Some? ==> forall j | DpAnchorAt(s, p).value < j < r.value :: !SectionStopAt(s, j)
  {
    match DpAnchorAt(s, p)
    case None => None
    case Some(l) => Some(LazyStop(s, l + 1))
  }

  function MatchEnd(e: nat): nat { e }

  lemma DpSectionAdvances(s: string)
    ensures Advances(s, DpSectionAt, MatchEnd)
  {
  }

  /** The candidate sections the `exec` loop visits from `lastIndex = from`. */
  function SectionMatches(s: string, from: nat): seq<Found<nat>>
  {
    DpSectionAdvances(s);
    AllMatches(s, from, DpSectionAt, MatchEnd)
  }

  /** The validity gates a candidate section must pass to count as an account definition. */
  predicate IsAccountSection(t: string)
  {
    && Contains(t, "DP ID") && Contains(t, "CLIENT ID") && Contains(t, "Email Id") && Contains(t, "BO Sub Status")
    && !Contains(t, "STATEMENT OF TRANSACTIONS")
    && !Contains(t, "No Transaction during the period")
    && !Contains(t, "HOLDING STATEMENT")
    && |Trim(t)| > 200
  }

  predicate Within(s: string, ms: seq<Found<nat>>)
  {
    forall k | 0 <= k < |ms| :: ms[k].pos <= ms[k].value <= |s|
  }

  lemma SectionMatchesWithin(s: string, from: nat)
    ensures Within(s, SectionMatches(s, from))
  {
    DpSectionAdvances(s);
    AllMatchesSound(s, from, DpSectionAt, MatchEnd);
  }

  /** The candidates whose text passes the gates, in order. */
  function KeptSpans(s: string, ms: seq<Found<nat>>, gate: string -> bool): (r: seq<Found<nat>>)
    requires Within(s, ms)
    ensures |r| <= |ms| && Within(s, r)
    ensures forall k | 0 <= k < |r| :: r[k] in ms
  {
    if ms == [] then []
    else (if gate(s[ms[0].pos..ms[0].value]) then [ms[0]] else []) + KeptSpans(s, ms[1..], gate)
  }

  function Texts(s: string, ms: seq<Found<nat>>): (r: seq<string>)
    requires Within(s, ms)
    ensures |r| == |ms|
  {
    if ms == [] then [] else [s[ms[0].pos..ms[0].value]] + Texts(s, ms[1..])
  }

  /** Gating one more candidate appends it when it passes. */
  lemma {:induction false} KeptSpansSnoc(s: string, ms: seq<Found<nat>>, f: Found<nat>, gate: string -> bool, keep: bool)
    requires Within(s, ms) && f.pos <= f.value <= |s| && keep == gate(s[f.pos..f.value])
    ensures Within(s, ms + [f])
    ensures KeptSpans(s, ms + [f], gate) == KeptSpans(s, ms, gate) + (if keep then [f] else [])
  {
    if ms == [] {
      assert [] + [f] == [f];
    } else {
      assert (ms + [f])[1..] == ms[1..] + [f];
      KeptSpansSnoc(s, ms[1..], f, gate, keep);
    }
  }

  /** The texts of two runs of spans, one after the other. */
  lemma {:induction false} TextsAppend(s: string, a: seq<Found<nat>>, b: seq<Found<nat>>)
    requires Within(s, a) && Within(s, b)
    ensures Within(s, a + b) && Texts(s, a + b) == Texts(s, a) + Texts(s, b)
  {
    if a == [] {
      assert [] + b == b;
    } else {
      assert (a + b)[1..] == a[1..] + b;
      TextsAppend(s, a[1..], b);
    }
  }

  /** The texts kept from one more candidate: its text is appended when it passes the gate. */
  lemma KeptTextsSnoc(s: string, ms: seq<Found<nat>>, f: Found<nat>, gate: string -> bool, keep: bool)
    requires Within(s, ms) && f.pos <= f.value <= |s| && keep == gate(s[f.pos..f.value])
    ensures Within(s, ms + [f])
    ensures Texts(s, KeptSpans(s, ms + [f], gate))
         == Texts(s, KeptSpans(s, ms, gate)) + (if keep then [s[f.pos..f.value]] else [])
  {
    KeptSpansSnoc(s, ms, f, gate, keep);
    var tail: seq<Found<nat>> := if keep then [f] else [];
    TextsAppend(s, KeptSpans(s, ms, gate), tail);
    if keep {
      assert Texts(s, tail) == [s[f.pos..f.value]] + Texts(s, tail[1..]);
    }
  }

  /** Where the account sections lie in the text: after the blank-text check, the kept candidates. */
  function AccountSpans(s: string): (r: seq<Found<nat>>)
    ensures Within(s, r)
  {
    if |Trim(s)| == 0 then []
    else
      SectionMatchesWithin(s, 0);
      KeptSpans(s, SectionMatches(s, 0), IsAccountSection)
  }

  /** `splitIntoAccountSections`: the texts of the account sections. */
  function AccountSections(s: string): seq<string>
  {
    Texts(s, AccountSpans(s))
  }

  // ---------------------------------------------------------------- properties

  lemma {:induction false} KeptSpansGate(s: string, ms: seq<Found<nat>>, gate: string -> bool)
    requires Within(s, ms)
    ensures forall k | 0 <= k < |KeptSpans(s, ms, gate)| :: gate(Texts(s, KeptSpans(s, ms, gate))[k])
    decreases |ms|
  {
    if ms != [] {
      KeptSpansGate(s, ms[1..], gate);
      var r := KeptSpans(s, ms, gate);
      var tail := KeptSpans(s, ms[1..], gate);
      if gate(s[ms[0].pos..ms[0].value]) {
        assert r == [ms[0]] + tail;
        assert Texts(s, r) == [s[ms[0].pos..ms[0].value]] + Texts(s, tail) by {
          assert r[1..] == tail;
        }
      } else {
        assert r == tail;
      }
    }
  }

  /** Every returned section passes all the gates; blank text yields no section. */
  lemma AccountSectionsValid(s: string)
    ensures forall k | 0 <= k < |AccountSections(s)| :: IsAccountSection(AccountSections(s)[k])
    ensures IsBlank(s) ==> AccountSections(s) == []
  {
    TrimEmptyIffBlank(s);
    if |Trim(s)| != 0 {
      SectionMatchesWithin(s, 0);
      KeptSpansGate(s, SectionMatches(s, 0), IsAccountSection);
    }
  }

  /** Each span ends at or before every later span starts. */
  predicate Ordered(ms: seq<Found<nat>>)
  {
    forall i, j | 0 <= i < j < |ms| :: ms[i].value <= ms[j].pos
  }

  /** The first candidate ends before every later one starts. */
  lemma HeadBeforeRest(ms: seq<Found<nat>>)
    requires ms != [] && Ordered(ms)
    ensures forall x | x in ms[1..] :: ms[0].value <= x.pos
    ensures Ordered(ms[1..])
  {
    forall x | x in ms[1..] ensures ms[0].value <= x.pos {
      var i :| 0 <= i < |ms[1..]| && ms[1..][i] == x;
      assert ms[i + 1] == x;
    }
    forall i, j | 0 <= i < j < |ms[1..]| ensures ms[1..][i].value <= ms[1..][j].pos {
      assert ms[1..][i] == ms[i + 1] && ms[1..][j] == ms[j + 1];
    }
  }

  lemma ConsOrdered(h: Found<nat>, tail: seq<Found<nat>>)
    requires Ordered(tail)
    requires forall x | x in tail :: h.value <= x.pos
    ensures Ordered([h] + tail)
  {
    var r := [h] + tail;
    forall i, j | 0 <= i < j < |r| ensures r[i].value <= r[j].pos {
      assert r[j] == tail[j - 1];
      if i > 0 { assert r[i] == tail[i - 1]; }
    }
  }

  /** Keeping a subsequence of an ordered, non-overlapping list keeps it ordered and non-overlapping. */
  lemma {:induction false} KeptSpansOrdered(s: string, ms: seq<Found<nat>>, gate: string -> bool)
    requires Within(s, ms) && Ordered(ms)
    ensures Ordered(KeptSpans(s, ms, gate))
    decreases |ms|
  {
    if ms != [] {
      HeadBeforeRest(ms);
      var tail := KeptSpans(s, ms[1..], gate);
      KeptSpansOrdered(s, ms[1..], gate);
      if gate(s[ms[0].pos..ms[0].value]) {
        forall x | x in tail ensures ms[0].value <= x.pos {
          var k :| 0 <= k < |tail| && tail[k] == x;
          assert tail[k] in ms[1..];
        }
        ConsOrdered(ms[0], tail);
      }
    }
  }

  /** The candidates the loop visits do not overlap, pairwise. */
  lemma {:induction false} SectionMatchesOrdered(s: string, from: nat)
    ensures var ms := SectionMatches(s, from);
      && (forall k | 0 <= k < |ms| :: ms[k].pos < ms[k].value)
      && Ordered(ms)
  {
    DpSectionAdvances(s);
    MatchesOrdered(s, from, DpSectionAt);
  }

  /** The spans an `exec` loop visits do not overlap, pairwise, whatever the pattern. */
  lemma MatchesOrdered(s: string, from: nat, m: (string, nat) -> Option<nat>)
    requires Advances(s, m, MatchEnd)
    ensures var ms := AllMatches(s, from, m, MatchEnd);
      && (forall k | 0 <= k < |ms| :: ms[k].pos < ms[k].value)
      && Ordered(ms)
  {
    AllMatchesOrdered(s, from, m, MatchEnd);
  }

  /**
   * The sections lie in document order without overlapping; each begins at a `DP Name :` anchor
   * and ends at the first `DP Name :`, `MF Folios`, `Mutual Fund` or end of text after the
   * anchor's first captured letter.
   */
  lemma AccountSectionsLayout(s: string)
    ensures var spans := AccountSpans(s);
      && AccountSections(s) == Texts(s, spans)
      && (forall k | 0 <= k < |spans| :: DpAnchorAt(s, spans[k].pos).Some?
            && DpAnchorAt(s, spans[k].pos).value < spans[k].value
            && SectionStopAt(s, spans[k].value)
            && forall j | DpAnchorAt(s, spans[k].pos).value < j < spans[k].value :: !SectionStopAt(s, j))
      && Ordered(spans)
  {
    var spans := AccountSpans(s);
    if |Trim(s)| != 0 {
      var ms := SectionMatches(s, 0);
      SectionMatchesWithin(s, 0);
      SectionMatchesOrdered(s, 0);
      DpSectionAdvances(s);
      AllMatchesSound(s, 0, DpSectionAt, MatchEnd);
      KeptSpansOrdered(s, ms, IsAccountSection);
      forall k | 0 <= k < |spans|
        ensures DpSectionAt(s, spans[k].pos) == Some(spans[k].value)
      {
        assert spans[k] in ms;
      }
    }
  }
}
