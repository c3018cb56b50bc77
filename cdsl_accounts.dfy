/**
 * The per-account fields of a CDSL demat account: the header fields read from its section,
 * and the BO id assigned to it by position among the BO ids of the whole statement.
 */
module CdslAccounts {
  import opened Wrappers
  import opened Text
  import opened Scan
  import opened Records
  import opened BaseParser
  import opened CdslFields
  import opened CdslSections

  /** The account record the extractor starts each section from. */
  const BlankAccount: DematAccount :=
    DematAccount("", "", "", "", "cdsl", NoHoldings, AccountInfo("Active", None, "", "NO", "", ""), 0.0)

  /** The text a field's leftmost match captures, passed through `f`, or `previous` when the field is absent. */
  function FieldOr(section: string, m: (string, nat) -> Option<string>, f: string -> string, previous: string): string
  {
    match Search(section, m)
    case Some(v) => f(v)
    case None => previous
  }

  function Same(v: string): string { v }

  /**
   * `extractAccountDetailsFromSection`: the DP name, DP id, client id, e-mail, BO sub-status and
   * nominee read from the section header into the account. A field whose pattern does not
   * match keeps its previous value, and an empty section changes nothing.
   */
  function SectionDetails(section: string, account: DematAccount): (r: DematAccount)
    ensures r.holdings == account.holdings && r.boId == account.boId
    ensures r.dematType == account.dematType && r.value == account.value
    ensures r.additionalInfo.status == account.additionalInfo.status
    ensures r.additionalInfo.boType == account.additionalInfo.boType
    ensures r.additionalInfo.bsda == account.additionalInfo.bsda
    ensures section == "" ==> r == account
  {
    if section == "" then account
    else
      var info := account.additionalInfo;
      account.(
        dpName := FieldOr(section, DpNameAt, CleanText, account.dpName),
        dpId := FieldOr(section, DpIdAt, Same, account.dpId),
        clientId := FieldOr(section, ClientIdAt, Same, account.clientId),
        additionalInfo := info.(
          email := FieldOr(section, EmailIdAt, ToLower, info.email),
          boSubStatus := FieldOr(section, BoSubStatusAt, CleanText, info.boSubStatus),
          nominee := FieldOr(section, NomineeAt, CleanText, info.nominee)))
  }

  /** Reading the header twice gives what reading it once gives. */
  lemma SectionDetailsIdempotent(section: string, account: DematAccount)
    ensures SectionDetails(section, SectionDetails(section, account)) == SectionDetails(section, account)
  {
  }

  /** After the header is read, the DP id and client id are digit strings unless absent and kept. */
  lemma SectionDetailsIds(section: string, account: DematAccount)
    requires section != ""
    ensures var r := SectionDetails(section, account);
      && (Search(section, DpIdAt).Some? ==> |r.dpId| > 0 && forall k | 0 <= k < |r.dpId| :: IsDigit(r.dpId[k]))
      && (Search(section, DpIdAt).None? ==> r.dpId == account.dpId)
      && (Search(section, ClientIdAt).Some? ==> |r.clientId| > 0 && forall k | 0 <= k < |r.clientId| :: IsDigit(r.clientId[k]))
      && (Search(section, ClientIdAt).None? ==> r.clientId == account.clientId)
  {
    if Search(section, DpIdAt).Some? { FirstMatchDigits(section, DpIdAt, ["DP", "ID"]); }
    if Search(section, ClientIdAt).Some? { FirstMatchDigits(section, ClientIdAt, ["CLIENT", "ID"]); }
  }

  /** After the header is read, the DP name, BO sub-status and nominee are in `cleanText` normal form unless absent. */
  lemma SectionDetailsClean(section: string, account: DematAccount)
    requires section != ""
    ensures var r := SectionDetails(section, account);
      && (Search(section, DpNameAt).Some? ==> IsClean(r.dpName))
      && (Search(section, BoSubStatusAt).Some? ==> IsClean(r.additionalInfo.boSubStatus))
      && (Search(section, NomineeAt).Some? ==> IsClean(r.additionalInfo.nominee))
  {
    if Search(section, DpNameAt).Some? { CleanTextNormal(Search(section, DpNameAt).value); }
    if Search(section, BoSubStatusAt).Some? { CleanTextNormal(Search(section, BoSubStatusAt).value); }
    if Search(section, NomineeAt).Some? { CleanTextNormal(Search(section, NomineeAt).value); }
  }

  /** After the header is read, a found e-mail holds an inner `@` and no upper-case letter. */
  lemma SectionDetailsEmail(section: string, account: DematAccount)
    requires section != ""
    requires Search(section, EmailIdAt).Some?
    ensures var e := SectionDetails(section, account).additionalInfo.email;
      HasInnerAt(e) && forall k | 0 <= k < |e| :: !IsUpper(e[k])
  {
    var f := FirstMatch(section, 0, EmailIdAt).value;
    assert EmailIdAt(section, f.pos) == Some(f.value);
    LowerEmail(f.value);
  }

  lemma FirstMatchDigits(section: string, m: (string, nat) -> Option<string>, words: seq<string>)
    requires forall p: nat :: m(section, p) == DigitsAfter(section, p, words)
    requires Search(section, m).Some?
    ensures var v := Search(section, m).value; |v| > 0 && forall k | 0 <= k < |v| :: IsDigit(v[k])
  {
    var f := FirstMatch(section, 0, m).value;
    assert m(section, f.pos) == DigitsAfter(section, f.pos, words);
  }

  /** On an account section, the DP name is the rest of the anchor's line, cleaned. */
  lemma SectionDpName(section: string, account: DematAccount)
    requires DpAnchorAt(section, 0).Some?
    ensures SectionDetails(section, account).dpName == CleanText(LineFrom(section, DpAnchorAt(section, 0).value))
  {
    assert DpNameAt(section, 0) == Some(LineFrom(section, DpAnchorAt(section, 0).value));
  }

  // ---------------------------------------------------------------- BO ids

  lemma BoIdAdvances(s: string)
    ensures Advances(s, BoIdAt, IdEnd)
  {
  }

  /** The BO id matches the `g`-flag `exec` loop over the whole statement sees from `from`. */
  function BoIdMatches(s: string, from: nat): seq<Found<IdMatch>>
  {
    BoIdAdvances(s);
    AllMatches(s, from, BoIdAt, IdEnd)
  }

  function Ids(ms: seq<Found<IdMatch>>): (r: seq<string>)
    ensures |r| == |ms| && forall k | 0 <= k < |ms| :: r[k] == ms[k].value.id
  {
    if ms == [] then [] else [ms[0].value.id] + Ids(ms[1..])
  }

  /** `if (!allBoIds.includes(boId)) allBoIds.push(boId)` over a list of ids, in order. */
  function DedupeInto(seen: seq<string>, ids: seq<string>): seq<string>
    decreases |ids|
  {
    if ids == [] then seen
    else DedupeInto(if ids[0] in seen then seen else seen + [ids[0]], ids[1..])
  }

  /** The BO ids of the statement, each once, in the order they first appear. */
  function AllBoIds(s: string): seq<string>
  {
    DedupeInto([], Ids(BoIdMatches(s, 0)))
  }

  /** Reference definition: the elements of `xs` at the positions where they occur for the first time. */
  function FirstOccurrences(xs: seq<string>): seq<string>
  {
    if xs == [] then []
    else
      var init := xs[..|xs| - 1];
      FirstOccurrences(init) + (if xs[|xs| - 1] in init then [] else [xs[|xs| - 1]])
  }

  /** The index where `x` first occurs in `xs`. */
  function FirstIndex(xs: seq<string>, x: string): (r: nat)
    requires x in xs
    ensures r < |xs| && xs[r] == x && forall j | 0 <= j < r :: xs[j] != x
  {
    if xs[0] == x then 0 else 1 + FirstIndex(xs[1..], x)
  }

  predicate NoDuplicates(xs: seq<string>)
  {
    forall i, j | 0 <= i < j < |xs| :: xs[i] != xs[j]
  }

  lemma {:induction false} FirstOccurrencesElems(xs: seq<string>)
    ensures forall x :: x in FirstOccurrences(xs) <==> x in xs
  {
    if xs != [] {
      var init := xs[..|xs| - 1];
      FirstOccurrencesElems(init);
      assert xs == init + [xs[|xs| - 1]];
    }
  }

  lemma {:induction false} DedupeIntoFirstOccurrences(p: seq<string>, xs: seq<string>)
    ensures DedupeInto(FirstOccurrences(p), xs) == FirstOccurrences(p + xs)
    decreases |xs|
  {
    if xs == [] {
      assert p + xs == p;
    } else {
      var x := xs[0];
      FirstOccurrencesElems(p);
      assert (p + [x])[..|p + [x]| - 1] == p;
      assert (if x in FirstOccurrences(p) then FirstOccurrences(p) else FirstOccurrences(p) + [x])
        == FirstOccurrences(p + [x]);
      DedupeIntoFirstOccurrences(p + [x], xs[1..]);
      assert p + [x] + xs[1..] == p + xs;
    }
  }

  /** The `includes`/`push` loop computes the first occurrences. */
  lemma DedupeIsFirstOccurrences(xs: seq<string>)
    ensures DedupeInto([], xs) == FirstOccurrences(xs)
  {
    DedupeIntoFirstOccurrences([], xs);
    assert [] + xs == xs;
  }

  /** An index where `x` occurs and no earlier one does is its first index. */
  lemma FirstIndexUnique(xs: seq<string>, x: string, a: nat)
    requires a < |xs| && xs[a] == x && forall j | 0 <= j < a :: xs[j] != x
    ensures FirstIndex(xs, x) == a
  {
    var b := FirstIndex(xs, x);
    assert !(b < a) && !(a < b);
  }

  /** Extending a list does not move the first index of an element already in it. */
  lemma FirstIndexExtend(xs: seq<string>, x: string)
    requires |xs| > 0 && x in xs[..|xs| - 1]
    ensures FirstIndex(xs, x) == FirstIndex(xs[..|xs| - 1], x)
  {
    var init := xs[..|xs| - 1];
    var b := FirstIndex(init, x);
    forall j | 0 <= j < b ensures xs[j] != x { assert xs[j] == init[j]; }
    FirstIndexUnique(xs, x, b);
  }

  /** The first occurrences hold no element twice. */
  lemma {:induction false} FirstOccurrencesNoDuplicates(xs: seq<string>)
    ensures NoDuplicates(FirstOccurrences(xs))
  {
    if xs != [] {
      var init := xs[..|xs| - 1];
      var last := xs[|xs| - 1];
      FirstOccurrencesNoDuplicates(init);
      FirstOccurrencesElems(init);
      var fi := FirstOccurrences(init);
      var r := FirstOccurrences(xs);
      if last !in init {
        assert r == fi + [last];
        forall i, j | 0 <= i < j < |r| ensures r[i] != r[j] {
          assert r[i] == fi[i];
          if j < |r| - 1 { assert r[j] == fi[j]; }
        }
      }
    }
  }

  /** Every element of `r` occurs in `xs`, and `r` lists them in the order of their first occurrence there. */
  predicate InFirstOrder(xs: seq<string>, r: seq<string>)
  {
    forall i, j | 0 <= i < j < |r| :: r[i] in xs && r[j] in xs && FirstIndex(xs, r[i]) < FirstIndex(xs, r[j])
  }

  /** The first occurrences come in the order in which they first occur. */
  lemma {:induction false} FirstOccurrencesInOrder(xs: seq<string>)
    ensures InFirstOrder(xs, FirstOccurrences(xs))
  {
    FirstOccurrencesElems(xs);
    if xs != [] {
      var init := xs[..|xs| - 1];
      var last := xs[|xs| - 1];
      FirstOccurrencesInOrder(init);
      FirstOccurrencesElems(init);
      var fi := FirstOccurrences(init);
      assert InFirstOrder(init, fi);
      var r := FirstOccurrences(xs);
      forall i | 0 <= i < |fi|
        ensures fi[i] in init && fi[i] in xs && FirstIndex(xs, fi[i]) == FirstIndex(init, fi[i])
      {
        assert fi[i] in init;
        var w := FirstIndex(init, fi[i]);
        assert xs[w] == init[w];
        FirstIndexExtend(xs, fi[i]);
      }
      if last !in init {
        assert r == fi + [last];
        forall j | 0 <= j < |xs| - 1 ensures xs[j] != last { assert xs[j] == init[j]; }
        FirstIndexUnique(xs, last, |xs| - 1);
        forall i, j | 0 <= i < j < |r|
          ensures r[i] in xs && r[j] in xs && FirstIndex(xs, r[i]) < FirstIndex(xs, r[j])
        {
          assert r[i] == fi[i];
          if j < |r| - 1 {
            assert r[j] == fi[j];
            assert FirstIndex(init, fi[i]) < FirstIndex(init, fi[j]);
          } else {
            assert r[j] == last;
            assert FirstIndex(init, fi[i]) < |init|;
          }
        }
      } else {
        assert r == fi;
        forall i, j | 0 <= i < j < |r|
          ensures r[i] in xs && r[j] in xs && FirstIndex(xs, r[i]) < FirstIndex(xs, r[j])
        {
          assert r[i] == fi[i] && r[j] == fi[j];
          assert FirstIndex(init, fi[i]) < FirstIndex(init, fi[j]);
        }
      }
    }
  }

  /** Where each id of the deduplicated list came from: a BO id match in the statement. */
  lemma AllBoIdsFound(s: string, k: nat)
    requires k < |AllBoIds(s)|
    ensures exists p | 0 <= p <= |s| :: DigitsAfter(s, p, ["BO", "ID"]) == Some(AllBoIds(s)[k])
  {
    var ms := BoIdMatches(s, 0);
    var xs := Ids(ms);
    DedupeIsFirstOccurrences(xs);
    FirstOccurrencesElems(xs);
    var x := AllBoIds(s)[k];
    assert x in xs;
    var i :| 0 <= i < |xs| && xs[i] == x;
    BoIdAdvances(s);
    AllMatchesSound(s, 0, BoIdAt, IdEnd);
    assert BoIdAt(s, ms[i].pos) == Some(ms[i].value);
  }

  /** The BO id list has no duplicates and keeps the order in which the ids first appear. */
  lemma AllBoIdsProps(s: string)
    ensures NoDuplicates(AllBoIds(s))
    ensures AllBoIds(s) == FirstOccurrences(Ids(BoIdMatches(s, 0)))
    ensures InFirstOrder(Ids(BoIdMatches(s, 0)), AllBoIds(s))
  {
    DedupeIsFirstOccurrences(Ids(BoIdMatches(s, 0)));
    FirstOccurrencesNoDuplicates(Ids(BoIdMatches(s, 0)));
    FirstOccurrencesInOrder(Ids(BoIdMatches(s, 0)));
  }

  /**
   * `findBoIdForAccount`: the `index`-th distinct BO id of the statement; past the end of that
   * list, DP id followed by client id when both are known; otherwise (and for an empty section) ''.
   */
  function BoIdFor(text: string, section: string, account: DematAccount, index: nat): string
  {
    if section == "" then ""
    else
      var ids := AllBoIds(text);
      if index < |ids| then ids[index]
      else if account.dpId != "" && account.clientId != "" then account.dpId + account.clientId
      else ""
  }

  /** Accounts at different positions within the BO id list receive different BO ids. */
  lemma BoIdForDistinct(text: string, s1: string, a1: DematAccount, i: nat, s2: string, a2: DematAccount, j: nat)
    requires s1 != "" && s2 != "" && i != j
    requires i < |AllBoIds(text)| && j < |AllBoIds(text)|
    ensures BoIdFor(text, s1, a1, i) != BoIdFor(text, s2, a2, j)
  {
    AllBoIdsProps(text);
  }

  /**
   * The three outcomes of `findBoIdForAccount`: a listed id, which some `BO ID` match captured;
   * the DP-id-plus-client-id fallback; or ''. The result is '' exactly for an empty section or
   * an index past the list whose account lacks a DP id or a client id.
   */
  lemma BoIdForCases(text: string, section: string, account: DematAccount, index: nat)
    ensures var b := BoIdFor(text, section, account, index);
      section != "" && index < |AllBoIds(text)| ==>
        b == AllBoIds(text)[index] && exists p | 0 <= p <= |text| :: DigitsAfter(text, p, ["BO", "ID"]) == Some(b)
    ensures var b := BoIdFor(text, section, account, index);
      section != "" && index >= |AllBoIds(text)| && account.dpId != "" && account.clientId != "" ==>
        b == account.dpId + account.clientId
    ensures BoIdFor(text, section, account, index) == "" <==>
      section == "" || (index >= |AllBoIds(text)| && (account.dpId == "" || account.clientId == ""))
  {
    if section != "" && index < |AllBoIds(text)| {
      AllBoIdsFound(text, index);
      var p :| 0 <= p <= |text| && DigitsAfter(text, p, ["BO", "ID"]) == Some(AllBoIds(text)[index]);
      assert |AllBoIds(text)[index]| > 0;
    }
  }
}
