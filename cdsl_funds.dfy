/**
 * The non-demat mutual-fund part of a CDSL statement: the scheme-type rule, the AMC, folio
 * and registrar fields, and the single folio built from the `MUTUAL FUND UNITS HELD` passage.
 */
module CdslFunds {
  import opened Wrappers
  import opened Text
  import opened Scan
  import opened Records
  import opened BaseParser

  // ---------------------------------------------------------------- determineSchemeType

  predicate DebtWord(name: string)
  {
    var n := ToLower(name);
    Contains(n, "debt") || Contains(n, "bond") || Contains(n, "liquid") || Contains(n, "money")
  }

  predicate HybridWord(name: string)
  {
    var n := ToLower(name);
    Contains(n, "hybrid") || Contains(n, "balanced")
  }

  /** `determineSchemeType`: the scheme type a scheme name implies. */
  function SchemeType(name: string): (t: string)
    ensures t == "debt" || t == "hybrid" || t == "equity"
  {
    if name == "" then "equity"
    else
      var n := ToLower(name);
      if Contains(n, "debt") || Contains(n, "bond") || Contains(n, "liquid") || Contains(n, "money") then "debt"
      else if Contains(n, "hybrid") || Contains(n, "balanced") then "hybrid"
      else "equity"
  }

  lemma EmptyHasNoWord(t: string)
    requires |t| > 0
    ensures !Contains("", t)
  {
  }

  /**
   * A debt keyword gives `debt` and outranks the hybrid keywords; a hybrid keyword alone gives
   * `hybrid`; a name with neither, the empty name included, gives `equity`.
   */
  lemma SchemeTypeRules(name: string)
    ensures SchemeType(name) == "debt" <==> DebtWord(name)
    ensures SchemeType(name) == "hybrid" <==> !DebtWord(name) && HybridWord(name)
    ensures SchemeType(name) == "equity" <==> !DebtWord(name) && !HybridWord(name)
  {
    if name == "" {
      assert ToLower(name) == "";
      EmptyHasNoWord("debt"); EmptyHasNoWord("bond"); EmptyHasNoWord("liquid"); EmptyHasNoWord("money");
      EmptyHasNoWord("hybrid"); EmptyHasNoWord("balanced");
    }
  }

  lemma LowerUpper(s: string)
    ensures ToLower(ToUpper(s)) == ToLower(s)
  {
  }

  /** The keywords are matched without regard to letter case. */
  lemma SchemeTypeIgnoresCase(name: string)
    ensures SchemeType(ToUpper(name)) == SchemeType(name)
  {
    LowerUpper(name);
  }

  // ---------------------------------------------------------------- the MF passage fields

  /** `MUTUAL\s+FUND\s+UNITS\s+HELD` (flag `i`) at `p`. */
  function MfStartAt(s: string, p: nat): (r: Option<nat>)
  {
    WordsAt(s, p, ["MUTUAL", "FUND", "UNITS", "HELD"])
  }

  /** `\s+Mutual\s+Fund` (flag `i`) at `e`. */
  predicate MutualFundAfter(s: string, e: nat)
  {
    && e <= |s|
    && match WsPlus(s, e)
       case None => false
       case Some(q) => WordsAt(s, q, ["Mutual", "Fund"]).Some?
  }

  /**
   * `[A-Z][a-z]+(?:\s+[A-Z][a-z]+)*` followed by `\s+Mutual\s+Fund`, from a word starting at
   * `w` (with the `i` flag each word is a run of two or more letters): where the capture ends.
   */
  function AmcChain(s: string, w: nat): (r: Option<nat>)
    requires w <= |s|
    ensures r.Some? ==> w + 2 <= r.value <= |s| && MutualFundAfter(s, r.value)
    ensures r.Some? ==> IsLetter(s[w]) && IsLetter(s[r.value - 1])
    ensures r.Some? ==> forall k | w <= k < r.value :: IsLetter(s[k]) || IsWs(s[k])
  {
    WordChain(s, w, 2, 2, MutualFundAfter)
  }

  /** `([A-Z][a-z]+(?:\s+[A-Z][a-z]+)*)\s+Mutual\s+Fund` (flag `i`) at `p`: the AMC name. */
  function AmcAt(s: string, p: nat): (r: Option<string>)
    ensures r.Some? ==> |r.value| >= 2 && IsLetter(r.value[0]) && IsLetter(r.value[|r.value| - 1])
    ensures r.Some? ==> forall k | 0 <= k < |r.value| :: IsLetter(r.value[k]) || IsWs(r.value[k])
  {
    if p > |s| then None
    else
      match AmcChain(s, p)
      case None => None
      case Some(e) => AmcSlice(s, p, e); Some(s[p..e])
  }

  lemma AmcSlice(s: string, p: nat, e: nat)
    requires p + 2 <= e <= |s| && IsLetter(s[p]) && IsLetter(s[e - 1])
    requires forall k | p <= k < e :: IsLetter(s[k]) || IsWs(s[k])
    ensures var t := s[p..e]; |t| >= 2 && IsLetter(t[0]) && IsLetter(t[|t| - 1])
    ensures var t := s[p..e]; forall k | 0 <= k < |t| :: IsLetter(t[k]) || IsWs(t[k])
  {
    var t := s[p..e];
    assert t[0] == s[p] && t[|t| - 1] == s[e - 1];
    forall k | 0 <= k < |t| ensures IsLetter(t[k]) || IsWs(t[k]) { assert t[k] == s[p + k]; }
  }

  predicate IsWsOrColon(c: char) { IsWs(c) || c == ':' }
  predicate IsDigitOrSlash(c: char) { IsDigit(c) || c == '/' }

  /** `Folio\s+No[\s:]*([\d\/]+)` (flag `i`) at `p`. */
  function FolioNoAt(s: string, p: nat): (r: Option<string>)
    ensures r.Some? ==> |r.value| > 0 && forall k | 0 <= k < |r.value| :: IsDigitOrSlash(r.value[k])
  {
    match WordsAt(s, p, ["Folio", "No"])
    case None => None
    case Some(q) =>
      var c := SkipWhile(s, q, IsWsOrColon);
      match RunEnd(s, c, IsDigitOrSlash, 1)
      case None => None
      case Some(e) => Some(s[c..e])
  }

  /** `RTA[\s:]*([A-Z]+)` (flag `i`) at `p`. */
  function RtaAt(s: string, p: nat): (r: Option<string>)
    ensures r.Some? ==> |r.value| > 0 && forall k | 0 <= k < |r.value| :: IsLetter(r.value[k])
  {
    match WordsAt(s, p, ["RTA"])
    case None => None
    case Some(q) =>
      var c := SkipWhile(s, q, IsWsOrColon);
      match RunEnd(s, c, IsLetter, 1)
      case None => None
      case Some(e) => Some(s[c..e])
  }

  // ---------------------------------------------------------------- extractMutualFunds

  /** The seven captures of the scheme-table pattern: name, ISIN, folio, units, NAV, invested, current. */
  datatype SchemeCaptures = SchemeCaptures(
    name: string, isin: string, folio: string, units: string, nav: string,
    investment: string, current: string)

  /** The scheme built from the table captures; the NAV keeps its text. */
  function SchemeOf(c: SchemeCaptures): (r: Scheme)
    ensures IsClean(r.name) && r.isin == c.isin && r.nav == c.nav
    ensures r.schemeType == SchemeType(r.name)
    ensures r.additionalInfo == SchemeInfo(None, ParseNumber(c.investment))
    ensures r.units == ParseNumber(c.units) && r.value == ParseNumber(c.current)
  {
    var name := CleanText(c.name);
    CleanTextNormal(c.name);
    Scheme(c.isin, name, ParseNumber(c.units), c.nav, ParseNumber(c.current), SchemeType(name),
      SchemeInfo(None, ParseNumber(c.investment)))
  }

  /** The passage from the first `MUTUAL FUND UNITS HELD` to the end of the text. */
  function MfPassage(text: string): Option<string>
  {
    match FirstMatch(text, 0, MfStartAt)
    case None => None
    case Some(f) => Some(text[f.pos..])
  }

  /**
   * `extractMutualFunds`, given what the scheme-table pattern captures in a passage (`table`):
   * at most one folio, built when the passage exists, an AMC name is found in it and the table
   * matches; its value is that one scheme's current value, and its folio number is the one after
   * `Folio No`, or the table's when there is none.
   */
  function MutualFunds(text: string, table: string -> Option<SchemeCaptures>): (r: seq<Folio>)
    ensures |r| <= 1
    ensures |r| == 1 <==>
      MfPassage(text).Some? && Search(MfPassage(text).value, AmcAt).Some? && table(MfPassage(text).value).Some?
    ensures |r| == 1 ==>
      var sec := MfPassage(text).value;
      && r[0].amc == Search(sec, AmcAt).value
      && r[0].schemes == [SchemeOf(table(sec).value)]
      && r[0].value == r[0].schemes[0].value
      && r[0].registrar == Search(sec, RtaAt).GetOr("")
      && (Search(sec, FolioNoAt).Some? ==> r[0].folioNumber == Search(sec, FolioNoAt).value)
      && (Search(sec, FolioNoAt).None? ==> r[0].folioNumber == table(sec).value.folio)
  {
    match MfPassage(text)
    case None => []
    case Some(sec) =>
      match Search(sec, AmcAt)
      case None => []
      case Some(amc) =>
        FolioNumberKept(sec);
        var folioNo := Search(sec, FolioNoAt).GetOr("");
        var registrar := Search(sec, RtaAt).GetOr("");
        match table(sec)
        case None => []
        case Some(c) =>
          var scheme := SchemeOf(c);
          var folio := Folio(amc, folioNo, registrar, [scheme], scheme.value);
          [if folio.folioNumber == "" && c.folio != "" then folio.(folioNumber := c.folio) else folio]
  }

  /** The folio number found after `Folio No` is never empty, so the table's is used only without one. */
  lemma FolioNumberKept(sec: string)
    ensures Search(sec, FolioNoAt).Some? ==> Search(sec, FolioNoAt).value != ""
  {
    if Search(sec, FolioNoAt).Some? {
      var f := FirstMatch(sec, 0, FolioNoAt).value;
      assert FolioNoAt(sec, f.pos) == Some(f.value);
    }
  }
}
