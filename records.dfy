/**
 * The record a consolidated account statement is turned into: investor identity,
 * depository (demat) accounts with categorised holdings, mutual-fund folios with their
 * schemes, the insurance placeholder, statement metadata and the portfolio summary.
 *
 * The same shapes serve as the extractor's output and the formatter's input and output.
 * Where the formatter guards a JSON field with `|| default` or `?.`, a missing field and its
 * falsy value (`''`, `0`, `[]`, an object whose fields are all falsy) are treated alike, so
 * the model represents the missing field by that falsy value; `null` is `None`.
 */
module Records {
  import opened Wrappers

  /** A holding's `additional_info`: `{}` from the line-by-line parsers, or the table columns. */
  datatype HoldingInfo = NoInfo | PriceInfo(marketPrice: real, freeBalance: real)

  datatype Holding = Holding(
    isin: string,
    name: string,
    units: real,
    value: real,
    additionalInfo: HoldingInfo)

  /** The five holding categories of a demat account, in the order the source declares them. */
  datatype Holdings = Holdings(
    equities: seq<Holding>,
    dematMutualFunds: seq<Holding>,
    corporateBonds: seq<Holding>,
    governmentSecurities: seq<Holding>,
    aifs: seq<Holding>)

  const NoHoldings := Holdings([], [], [], [], [])

  datatype AccountInfo = AccountInfo(
    status: string,
    boType: Option<string>,
    boSubStatus: string,
    bsda: string,
    nominee: string,
    email: string)

  datatype DematAccount = DematAccount(
    dpId: string,
    dpName: string,
    boId: string,
    clientId: string,
    dematType: string,
    holdings: Holdings,
    additionalInfo: AccountInfo,
    value: real)

  datatype SchemeInfo = SchemeInfo(arnCode: Option<string>, investmentValue: real)

  /** A mutual-fund scheme; its NAV stays the display string it was read as. */
  datatype Scheme = Scheme(
    isin: string,
    name: string,
    units: real,
    nav: string,
    value: real,
    schemeType: string,
    additionalInfo: SchemeInfo)

  datatype Folio = Folio(
    amc: string,
    folioNumber: string,
    registrar: string,
    schemes: seq<Scheme>,
    value: real)

  datatype Investor = Investor(
    name: string,
    pan: string,
    address: string,
    email: string,
    mobile: string,
    casId: string,
    pincode: string)

  datatype Policy = Policy(value: real)

  datatype Insurance = Insurance(lifeInsurancePolicies: seq<Policy>)

  datatype Period = Period(from: string, to: string)

  datatype Meta = Meta(casType: string, generatedAt: string, statementPeriod: Period)

  datatype ClassTotal = ClassTotal(count: nat, totalValue: real)

  datatype Summary = Summary(
    demat: ClassTotal,
    mutualFunds: ClassTotal,
    insurance: ClassTotal,
    totalValue: real)

  /** The whole statement record. */
  datatype CasData = CasData(
    investor: Investor,
    dematAccounts: seq<DematAccount>,
    mutualFunds: seq<Folio>,
    insurance: Insurance,
    meta: Meta,
    summary: Summary)

  // Reference sums, each taken left to right as the source's loops add.

  function HoldingsSum(hs: seq<Holding>): real
  {
    if hs == [] then 0.0 else HoldingsSum(hs[..|hs| - 1]) + hs[|hs| - 1].value
  }

  /** The value of all holdings of an account, category by category. */
  function HoldingsTotal(h: Holdings): real
  {
    HoldingsSum(h.equities) + HoldingsSum(h.dematMutualFunds) + HoldingsSum(h.corporateBonds)
    + HoldingsSum(h.governmentSecurities) + HoldingsSum(h.aifs)
  }

  function AccountsSum(accounts: seq<DematAccount>): real
  {
    if accounts == [] then 0.0 else AccountsSum(accounts[..|accounts| - 1]) + accounts[|accounts| - 1].value
  }

  function FoliosSum(folios: seq<Folio>): real
  {
    if folios == [] then 0.0 else FoliosSum(folios[..|folios| - 1]) + folios[|folios| - 1].value
  }

  function PoliciesSum(policies: seq<Policy>): real
  {
    if policies == [] then 0.0 else PoliciesSum(policies[..|policies| - 1]) + policies[|policies| - 1].value
  }

  /** Summing a concatenation sums the parts. */
  lemma {:induction false} HoldingsSumAppend(a: seq<Holding>, b: seq<Holding>)
    ensures HoldingsSum(a + b) == HoldingsSum(a) + HoldingsSum(b)
    decreases |b|
  {
    if b == [] {
      assert a + b == a;
    } else {
      var b' := b[..|b| - 1];
      assert (a + b)[..|a + b| - 1] == a + b';
      HoldingsSumAppend(a, b');
    }
  }

  lemma {:induction false} AccountsSumAppend(a: seq<DematAccount>, b: seq<DematAccount>)
    ensures AccountsSum(a + b) == AccountsSum(a) + AccountsSum(b)
    decreases |b|
  {
    if b == [] {
      assert a + b == a;
    } else {
      var b' := b[..|b| - 1];
      assert (a + b)[..|a + b| - 1] == a + b';
      AccountsSumAppend(a, b');
    }
  }
}
