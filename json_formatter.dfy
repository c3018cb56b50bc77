/**
 * `JSONFormatter`: the parsed record mapped onto the output schema. Missing strings become
 * '' or their fixed default, the PAN is upper-cased and the e-mail lower-cased, the other
 * investor fields are trimmed, every amount is rounded to two decimals, every list keeps
 * its elements in order, and the NAV and the pass-through parts are copied unchanged.
 *
 * The formatter reads a missing field and its falsy value alike (`x || default`), so both
 * are the falsy value here (see `Records`); `null` is `None`.
 */
module JsonFormatter {
  import opened Wrappers
  import opened Text
  import opened Records
  import opened BaseParser

  // ---------------------------------------------------------------- formatNumber

  /** `Math.round`: the nearest integer, halves rounded up. */
  function Round(y: real): (n: int)
    ensures y - 0.5 < n as real <= y + 0.5
  {
    (y + 0.5).Floor
  }

  lemma RoundInteger(n: int)
    ensures Round(n as real) == n
  {
  }

  /**
   * `formatNumber`: `Math.round(num * 100) / 100`. `parseFloat(value) || 0` is the number
   * itself for a number, and 0 for a missing value, which is represented by 0.
   */
  function FormatNumber(x: real): (r: real)
    ensures Hundredths(r)
    ensures x - 0.005 < r <= x + 0.005
  {
    var n := Round(x * 100.0);
    assert (n as real / 100.0) * 100.0 == n as real;
    n as real / 100.0
  }

  /** `r` is a whole number of hundredths. */
  predicate Hundredths(r: real)
  {
    (r * 100.0).Floor as real == r * 100.0
  }

  /** An amount already in whole hundredths is left as it is. */
  lemma FormatNumberOfHundredths(r: real)
    requires Hundredths(r)
    ensures FormatNumber(r) == r
  {
    var n := (r * 100.0).Floor;
    RoundInteger(n);
    assert r * 100.0 == n as real;
  }

  /** Rounding twice is rounding once. */
  lemma FormatNumberIdempotent(x: real)
    ensures FormatNumber(FormatNumber(x)) == FormatNumber(x)
  {
    FormatNumberOfHundredths(FormatNumber(x));
  }

  /** A missing amount, and zero, format as 0. */
  lemma FormatNumberZero()
    ensures FormatNumber(0.0) == 0.0
  {
    RoundInteger(0);
  }

  /** Half a hundredth is rounded up, as `Math.round` rounds halves toward +infinity. */
  lemma FormatNumberHalfUp()
    ensures FormatNumber(0.125) == 0.13 && FormatNumber(-0.125) == -0.12
  {
    assert Round(12.5) == 13;
    assert Round(-12.5) == -12;
  }

  /** `x || default` on a string. */
  function OrDefault(s: string, default: string): (r: string)
    ensures default != "" ==> r != ""
    ensures s != "" ==> r == s
  {
    if s == "" then default else s
  }

  /** `x || null` on an optional string: an empty string becomes `null`. */
  function OrNull(s: Option<string>): (r: Option<string>)
    ensures r != Some("")
    ensures s != Some("") ==> r == s
  {
    if s == Some("") then None else s
  }

  // ---------------------------------------------------------------- formatInvestor

  /** The investor record in output form: trimmed fields, PAN upper-case, e-mail lower-case. */
  predicate InvestorFormatted(i: Investor)
  {
    && Trim(i.name) == i.name && Trim(i.address) == i.address && Trim(i.mobile) == i.mobile
    && Trim(i.casId) == i.casId && Trim(i.pincode) == i.pincode
    && (forall k | 0 <= k < |i.pan| :: !IsLower(i.pan[k]))
    && (forall k | 0 <= k < |i.email| :: !IsUpper(i.email[k]))
  }

  /** `formatInvestor`. */
  function FormatInvestor(i: Investor): (r: Investor)
    ensures InvestorFormatted(r)
    ensures |r.pan| == |i.pan| && |r.email| == |i.email|
  {
    var r := Investor(Trim(i.name), ToUpper(i.pan), Trim(i.address), ToLower(i.email),
      Trim(i.mobile), Trim(i.casId), Trim(i.pincode));
    TrimTwice(i.name); TrimTwice(i.address); TrimTwice(i.mobile); TrimTwice(i.casId); TrimTwice(i.pincode);
    r
  }

  lemma TrimTwice(s: string)
    ensures Trim(Trim(s)) == Trim(s)
  {
    TrimClean(Trim(s));
  }

  /** An investor record already in output form is left as it is. */
  lemma FormatInvestorFixpoint(i: Investor)
    requires InvestorFormatted(i)
    ensures FormatInvestor(i) == i
  {
    assert ToUpper(i.pan) == i.pan;
    assert ToLower(i.email) == i.email;
  }

  // ---------------------------------------------------------------- the holding lists

  /**
   * One element of `formatEquities`, `formatDematMutualFunds`, `formatBonds` and
   * `formatGovSecurities`, which map a holding alike: units and value rounded, the rest copied.
   */
  function FormatHolding(h: Holding): (r: Holding)
    ensures r.isin == h.isin && r.name == h.name && r.additionalInfo == h.additionalInfo
    ensures Hundredths(r.units) && Hundredths(r.value)
  {
    Holding(h.isin, h.name, FormatNumber(h.units), FormatNumber(h.value), h.additionalInfo)
  }

  /** The shared body of the four holding-list formatters: one output per input, in order. */
  function FormatHoldingList(hs: seq<Holding>): (r: seq<Holding>)
    ensures |r| == |hs|
    ensures forall k | 0 <= k < |hs| :: r[k] == FormatHolding(hs[k])
  {
    if hs == [] then [] else [FormatHolding(hs[0])] + FormatHoldingList(hs[1..])
  }

  /** `formatHoldings`: all five categories, the first four formatted, `aifs` copied. */
  function FormatHoldings(h: Holdings): (r: Holdings)
    ensures r.equities == FormatHoldingList(h.equities)
    ensures r.dematMutualFunds == FormatHoldingList(h.dematMutualFunds)
    ensures r.corporateBonds == FormatHoldingList(h.corporateBonds)
    ensures r.governmentSecurities == FormatHoldingList(h.governmentSecurities)
    ensures r.aifs == h.aifs
  {
    Holdings(FormatHoldingList(h.equities), FormatHoldingList(h.dematMutualFunds),
      FormatHoldingList(h.corporateBonds), FormatHoldingList(h.governmentSecurities), h.aifs)
  }

  lemma FormatHoldingTwice(h: Holding)
    ensures FormatHolding(FormatHolding(h)) == FormatHolding(h)
  {
    FormatNumberIdempotent(h.units);
    FormatNumberIdempotent(h.value);
  }

  lemma FormatHoldingListTwice(hs: seq<Holding>)
    ensures FormatHoldingList(FormatHoldingList(hs)) == FormatHoldingList(hs)
  {
    var once := FormatHoldingList(hs);
    var twice := FormatHoldingList(once);
    forall k | 0 <= k < |hs| ensures twice[k] == once[k] {
      FormatHoldingTwice(hs[k]);
    }
  }

  lemma FormatHoldingsTwice(h: Holdings)
    ensures FormatHoldings(FormatHoldings(h)) == FormatHoldings(h)
  {
    FormatHoldingListTwice(h.equities);
    FormatHoldingListTwice(h.dematMutualFunds);
    FormatHoldingListTwice(h.corporateBonds);
    FormatHoldingListTwice(h.governmentSecurities);
  }

  // ---------------------------------------------------------------- formatDematAccounts

  /** The account's `additional_info` with its defaults: status `Active`, BSDA `NO`, BO type `null`. */
  function FormatAccountInfo(a: AccountInfo): (r: AccountInfo)
    ensures r.status != "" && r.bsda != "" && r.boType != Some("")
    ensures a.status == "" ==> r.status == "Active"
    ensures a.bsda == "" ==> r.bsda == "NO"
    ensures a.status != "" ==> r.status == a.status
    ensures a.bsda != "" ==> r.bsda == a.bsda
    ensures a.boType != Some("") ==> r.boType == a.boType
    ensures r.boSubStatus == a.boSubStatus && r.nominee == a.nominee && r.email == a.email
  {
    AccountInfo(OrDefault(a.status, "Active"), OrNull(a.boType), a.boSubStatus,
      OrDefault(a.bsda, "NO"), a.nominee, a.email)
  }

  /** One element of `formatDematAccounts`: demat type `cdsl` by default, value rounded. */
  function FormatAccount(a: DematAccount): (r: DematAccount)
    ensures r.dpId == a.dpId && r.dpName == a.dpName && r.boId == a.boId && r.clientId == a.clientId
    ensures r.dematType != "" && (a.dematType == "" ==> r.dematType == "cdsl")
    ensures a.dematType != "" ==> r.dematType == a.dematType
    ensures r.holdings == FormatHoldings(a.holdings) && r.additionalInfo == FormatAccountInfo(a.additionalInfo)
    ensures Hundredths(r.value)
  {
    DematAccount(a.dpId, a.dpName, a.boId, a.clientId, OrDefault(a.dematType, "cdsl"),
      FormatHoldings(a.holdings), FormatAccountInfo(a.additionalInfo), FormatNumber(a.value))
  }

  /** `formatDematAccounts`: one output per account, in order. */
  function FormatDematAccounts(accounts: seq<DematAccount>): (r: seq<DematAccount>)
    ensures |r| == |accounts|
    ensures forall k | 0 <= k < |accounts| :: r[k] == FormatAccount(accounts[k])
  {
    if accounts == [] then [] else [FormatAccount(accounts[0])] + FormatDematAccounts(accounts[1..])
  }

  lemma FormatAccountTwice(a: DematAccount)
    ensures FormatAccount(FormatAccount(a)) == FormatAccount(a)
  {
    FormatHoldingsTwice(a.holdings);
    FormatNumberIdempotent(a.value);
  }

  lemma FormatDematAccountsTwice(accounts: seq<DematAccount>)
    ensures FormatDematAccounts(FormatDematAccounts(accounts)) == FormatDematAccounts(accounts)
  {
    var once := FormatDematAccounts(accounts);
    var twice := FormatDematAccounts(once);
    forall k | 0 <= k < |accounts| ensures twice[k] == once[k] {
      FormatAccountTwice(accounts[k]);
    }
  }

  // ---------------------------------------------------------------- formatMutualFunds

  /**
   * One element of `formatSchemes`: the NAV copied as the text it is, scheme type `equity`
   * by default, ARN code `null` when empty, units, value and invested amount rounded.
   */
  function FormatScheme(s: Scheme): (r: Scheme)
    ensures r.isin == s.isin && r.name == s.name && r.nav == s.nav
    ensures r.schemeType != "" && (s.schemeType == "" ==> r.schemeType == "equity")
    ensures s.schemeType != "" ==> r.schemeType == s.schemeType
    ensures r.additionalInfo.arnCode != Some("")
    ensures s.additionalInfo.arnCode != Some("") ==> r.additionalInfo.arnCode == s.additionalInfo.arnCode
    ensures Hundredths(r.units) && Hundredths(r.value) && Hundredths(r.additionalInfo.investmentValue)
  {
    Scheme(s.isin, s.name, FormatNumber(s.units), s.nav, FormatNumber(s.value),
      OrDefault(s.schemeType, "equity"),
      SchemeInfo(OrNull(s.additionalInfo.arnCode), FormatNumber(s.additionalInfo.investmentValue)))
  }

  /** `formatSchemes`: one output per scheme, in order. */
  function FormatSchemes(schemes: seq<Scheme>): (r: seq<Scheme>)
    ensures |r| == |schemes|
    ensures forall k | 0 <= k < |schemes| :: r[k] == FormatScheme(schemes[k])
  {
    if schemes == [] then [] else [FormatScheme(schemes[0])] + FormatSchemes(schemes[1..])
  }

  /** One element of `formatMutualFunds`: the schemes formatted, the value rounded. */
  function FormatFolio(f: Folio): (r: Folio)
    ensures r.amc == f.amc && r.folioNumber == f.folioNumber && r.registrar == f.registrar
    ensures r.schemes == FormatSchemes(f.schemes) && Hundredths(r.value)
  {
    Folio(f.amc, f.folioNumber, f.registrar, FormatSchemes(f.schemes), FormatNumber(f.value))
  }

  /** `formatMutualFunds`: one output per folio, in order. */
  function FormatMutualFunds(folios: seq<Folio>): (r: seq<Folio>)
    ensures |r| == |folios|
    ensures forall k | 0 <= k < |folios| :: r[k] == FormatFolio(folios[k])
  {
    if folios == [] then [] else [FormatFolio(folios[0])] + FormatMutualFunds(folios[1..])
  }

  lemma FormatSchemeTwice(s: Scheme)
    ensures FormatScheme(FormatScheme(s)) == FormatScheme(s)
  {
    FormatNumberIdempotent(s.units);
    FormatNumberIdempotent(s.value);
    FormatNumberIdempotent(s.additionalInfo.investmentValue);
  }

  lemma FormatSchemesTwice(schemes: seq<Scheme>)
    ensures FormatSchemes(FormatSchemes(schemes)) == FormatSchemes(schemes)
  {
    var once := FormatSchemes(schemes);
    var twice := FormatSchemes(once);
    forall k | 0 <= k < |schemes| ensures twice[k] == once[k] {
      FormatSchemeTwice(schemes[k]);
    }
  }

  lemma FormatFolioTwice(f: Folio)
    ensures FormatFolio(FormatFolio(f)) == FormatFolio(f)
  {
    FormatSchemesTwice(f.schemes);
    FormatNumberIdempotent(f.value);
  }

  lemma FormatMutualFundsTwice(folios: seq<Folio>)
    ensures FormatMutualFunds(FormatMutualFunds(folios)) == FormatMutualFunds(folios)
  {
    var once := FormatMutualFunds(folios);
    var twice := FormatMutualFunds(once);
    forall k | 0 <= k < |folios| ensures twice[k] == once[k] {
      FormatFolioTwice(folios[k]);
    }
  }

  // ---------------------------------------------------------------- insurance, meta, summary

  /** `formatInsurance`: the policy list is copied. */
  function FormatInsurance(i: Insurance): (r: Insurance)
    ensures r.lifeInsurancePolicies == i.lifeInsurancePolicies
  {
    Insurance(i.lifeInsurancePolicies)
  }

  /**
   * `formatMeta`: issuer tag `UNKNOWN` by default, the generation time from the clock when it
   * is missing (`isoNow` is the clock reading), the period's bounds copied.
   */
  function FormatMeta(m: Meta, isoNow: string): (r: Meta)
    ensures r.casType != "" && (m.casType == "" ==> r.casType == "UNKNOWN")
    ensures m.casType != "" ==> r.casType == m.casType
    ensures m.generatedAt != "" ==> r.generatedAt == m.generatedAt
    ensures m.generatedAt == "" ==> r.generatedAt == GeneratedAt(isoNow)
    ensures r.statementPeriod == m.statementPeriod
  {
    Meta(OrDefault(m.casType, "UNKNOWN"), OrDefault(m.generatedAt, GeneratedAt(isoNow)),
      Period(m.statementPeriod.from, m.statementPeriod.to))
  }

  function FormatClassTotal(c: ClassTotal): (r: ClassTotal)
    ensures r.count == c.count && Hundredths(r.totalValue)
  {
    ClassTotal(c.count, FormatNumber(c.totalValue))
  }

  /**
   * `formatSummary`: the counts copied, each total rounded on its own; the grand total is the
   * input's rounded, not the sum of the rounded class totals.
   */
  function FormatSummary(s: Summary): (r: Summary)
    ensures r.demat.count == s.demat.count && r.mutualFunds.count == s.mutualFunds.count
    ensures r.insurance.count == s.insurance.count
    ensures r.demat.totalValue == FormatNumber(s.demat.totalValue)
    ensures r.mutualFunds.totalValue == FormatNumber(s.mutualFunds.totalValue)
    ensures r.insurance.totalValue == FormatNumber(s.insurance.totalValue)
    ensures r.totalValue == FormatNumber(s.totalValue)
  {
    Summary(FormatClassTotal(s.demat), FormatClassTotal(s.mutualFunds), FormatClassTotal(s.insurance),
      FormatNumber(s.totalValue))
  }

  /**
   * Because the grand total is rounded on its own, it can differ from the sum of the rounded
   * class totals: two classes of 0.004 each round to 0, their sum of 0.008 to 0.01.
   */
  lemma SummaryTotalNotRecomputed()
    ensures var s := Summary(ClassTotal(1, 0.004), ClassTotal(1, 0.004), ClassTotal(0, 0.0), 0.008);
      var r := FormatSummary(s);
      r.totalValue != r.demat.totalValue + r.mutualFunds.totalValue + r.insurance.totalValue
  {
    assert Round(0.4) == 0;
    assert Round(0.8) == 1;
    RoundInteger(0);
  }

  // ---------------------------------------------------------------- format

  /** `format`: each part of the record formatted by its own formatter. */
  function Format(d: CasData, isoNow: string): (r: CasData)
    ensures r.investor == FormatInvestor(d.investor)
    ensures r.dematAccounts == FormatDematAccounts(d.dematAccounts)
    ensures r.mutualFunds == FormatMutualFunds(d.mutualFunds)
    ensures r.insurance == FormatInsurance(d.insurance)
    ensures r.meta == FormatMeta(d.meta, isoNow)
    ensures r.summary == FormatSummary(d.summary)
  {
    CasData(FormatInvestor(d.investor), FormatDematAccounts(d.dematAccounts),
      FormatMutualFunds(d.mutualFunds), FormatInsurance(d.insurance), FormatMeta(d.meta, isoNow),
      FormatSummary(d.summary))
  }

  /** Formatting an already formatted record changes nothing. */
  lemma FormatIdempotent(d: CasData, isoNow: string)
    ensures Format(Format(d, isoNow), isoNow) == Format(d, isoNow)
  {
    FormatInvestorFixpoint(FormatInvestor(d.investor));
    FormatDematAccountsTwice(d.dematAccounts);
    FormatMutualFundsTwice(d.mutualFunds);
    FormatNumberIdempotent(d.summary.demat.totalValue);
    FormatNumberIdempotent(d.summary.mutualFunds.totalValue);
    FormatNumberIdempotent(d.summary.insurance.totalValue);
    FormatNumberIdempotent(d.summary.totalValue);
  }
}
