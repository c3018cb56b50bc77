/**
 * The CDSL statement parser as an object: `parse` stores the statement text and the detected
 * issuer in the parser's fields, then extracts the investor, the demat accounts, the mutual
 * funds, the insurance placeholder and the metadata, and finally the summary. The `exec`
 * loops over the text, the per-account loop and the accumulation loops are methods proved
 * against the specification functions of the other modules.
 */
module CdslParser {
  import opened Wrappers
  import opened Text
  import opened Scan
  import opened Records
  import opened BaseParser
  import opened CdslFields
  import opened CdslSections
  import opened CdslAccounts
  import opened CdslHoldings
  import opened CdslFunds
  import opened CdslInvestor

  // ---------------------------------------------------------------- specification

  /**
   * The account the extractor builds from the `index`-th section: the header fields, then the
   * BO id assigned by position, then the holdings of that BO id's passage, then their value.
   */
  function AccountFor(text: string, section: string, index: nat): DematAccount
  {
    var details := SectionDetails(section, BlankAccount);
    var withId := details.(boId := BoIdFor(text, section, details, index));
    var holdings := AccountHoldings(text, withId.boId);
    withId.(holdings := holdings, value := HoldingsTotal(holdings))
  }

  /** `extractDematAccounts`: one account per account section, in section order. */
  function DematAccounts(text: string): (r: seq<DematAccount>)
    ensures |r| == |AccountSections(text)|
  {
    var sections := AccountSections(text);
    seq(|sections|, i requires 0 <= i < |sections| => AccountFor(text, sections[i], i))
  }

  /** What `parse` returns for a statement text, a clock reading and the scheme-table extractor. */
  function CdslParse(text: string, isoNow: string, table: string -> Option<SchemeCaptures>): CasData
  {
    var accounts := DematAccounts(text);
    var funds := MutualFunds(text, table);
    var insurance := ExtractInsurance();
    CasData(InvestorInfo(text), accounts, funds, insurance,
      ExtractMetadata(Tag(DetectCasType(text)), isoNow, StatementPeriod(text)),
      SummaryOf(accounts, funds, insurance))
  }

  /** The value of the holding groups, group by group. */
  function GroupsSum(groups: seq<seq<Holding>>): real
  {
    if groups == [] then 0.0 else GroupsSum(groups[..|groups| - 1]) + HoldingsSum(groups[|groups| - 1])
  }

  // ---------------------------------------------------------------- properties

  /**
   * Each account is in the extractor's initial shape apart from what it reads: type `cdsl`,
   * status `Active`, BSDA `NO`, no BO type, no bonds, government securities or AIFs; its value
   * is the total of its holdings, and its BO id is the statement's `i`-th distinct BO id
   * whenever there are more than `i` of them.
   */
  lemma DematAccountsShape(text: string, i: nat)
    requires i < |DematAccounts(text)|
    ensures var a := DematAccounts(text)[i];
      && a.dematType == "cdsl" && a.additionalInfo.status == "Active" && a.additionalInfo.bsda == "NO"
      && a.additionalInfo.boType.None?
      && a.holdings.corporateBonds == [] && a.holdings.governmentSecurities == [] && a.holdings.aifs == []
      && a.value == HoldingsTotal(a.holdings)
      && (i < |AllBoIds(text)| ==> a.boId == AllBoIds(text)[i])
  {
    var sections := AccountSections(text);
    AccountSectionsValid(text);
    assert sections[i] != "" by { assert |Trim(sections[i])| > 200; TrimShorter(sections[i]); }
    var details := SectionDetails(sections[i], BlankAccount);
    AccountHoldingsCases(text, BoIdFor(text, sections[i], details, i));
    var boId := BoIdFor(text, sections[i], details, i);
    if boId != "" && TransactionPassage(text, boId).Some? {
      SectionHoldingsCategories(TransactionPassage(text, boId).value);
    }
  }

  /** Two accounts within the reach of the BO id list never share a BO id. */
  lemma DematAccountsDistinctIds(text: string, i: nat, j: nat)
    requires i < j < |DematAccounts(text)| && j < |AllBoIds(text)|
    ensures DematAccounts(text)[i].boId != DematAccounts(text)[j].boId
  {
    var sections := AccountSections(text);
    AccountSectionsValid(text);
    assert sections[i] != "" by { assert |Trim(sections[i])| > 200; TrimShorter(sections[i]); }
    assert sections[j] != "" by { assert |Trim(sections[j])| > 200; TrimShorter(sections[j]); }
    BoIdForDistinct(text, sections[i], SectionDetails(sections[i], BlankAccount), i,
      sections[j], SectionDetails(sections[j], BlankAccount), j);
  }

  /**
   * The record `parse` returns is computed from the statement: its summary counts and totals
   * are those of the extracted lists, it holds at most one folio, no insurance policy, and the
   * metadata carries the detected issuer and the statement period.
   */
  lemma CdslParseSummary(text: string, isoNow: string, table: string -> Option<SchemeCaptures>)
    ensures var d := CdslParse(text, isoNow, table);
      && d.summary.demat == ClassTotal(|d.dematAccounts|, AccountsSum(d.dematAccounts))
      && d.summary.mutualFunds == ClassTotal(|d.mutualFunds|, FoliosSum(d.mutualFunds))
      && d.summary.insurance == ClassTotal(0, 0.0)
      && d.summary.totalValue == AccountsSum(d.dematAccounts) + FoliosSum(d.mutualFunds)
      && |d.dematAccounts| == |AccountSections(text)| && |d.mutualFunds| <= 1
      && d.insurance.lifeInsurancePolicies == []
      && d.meta.casType == Tag(DetectCasType(text)) && d.meta.statementPeriod == StatementPeriod(text)
  {
    var d := CdslParse(text, isoNow, table);
    SummaryInsuranceEmpty(d.dematAccounts, d.mutualFunds);
  }

  // ---------------------------------------------------------------- loop steps

  /** Filing the holding of one more row files the holdings of all the rows seen. */
  lemma RowFiled(done: seq<Found<Row>>, f: Found<Row>, before: Holdings)
    requires before == FileAll(RowHoldings(done))
    ensures File(before, HoldingOfRow(f.value)) == FileAll(RowHoldings(done + [f]))
  {
    RowHoldingsSnoc(done, f);
    FileAllSnoc(RowHoldings(done), HoldingOfRow(f.value));
  }

  /** One turn of the BO id loop: the first id left is added unless it was seen already. */
  lemma BoIdStep(s: string, last: nat, seen: seq<string>, f: Found<IdMatch>)
    requires FirstMatch(s, last, BoIdAt) == Some(f)
    ensures last <= f.pos < f.value.end <= |s|
    ensures DedupeInto(seen, Ids(BoIdMatches(s, last)))
         == DedupeInto(if f.value.id in seen then seen else seen + [f.value.id], Ids(BoIdMatches(s, f.value.end)))
  {
    BoIdAdvances(s);
    AllMatchesCons(s, last, BoIdAt, IdEnd, f);
    var ms := BoIdMatches(s, last);
    assert ms[1..] == BoIdMatches(s, f.value.end);
  }

  /** Appending a row appends its holding. */
  lemma RowHoldingsSnoc(done: seq<Found<Row>>, f: Found<Row>)
    ensures RowHoldings(done + [f]) == RowHoldings(done) + [HoldingOfRow(f.value)]
  {
    assert (done + [f])[..|done|] == done;
  }

  /** Filing one more holding files it after the others. */
  lemma FileAllSnoc(hs: seq<Holding>, h: Holding)
    ensures FileAll(hs + [h]) == File(FileAll(hs), h)
  {
    assert (hs + [h])[..|hs|] == hs;
  }

  /** The BO id loop ends when no further id is found. */
  lemma BoIdsDone(s: string, last: nat, seen: seq<string>)
    requires FirstMatch(s, last, BoIdAt).None?
    ensures DedupeInto(seen, Ids(BoIdMatches(s, last))) == seen
  {
    BoIdAdvances(s);
  }

  /** The `i`-th extracted account is built from the `i`-th account section. */
  lemma DematAccountsAt(text: string, i: nat)
    requires i < |AccountSections(text)|
    ensures DematAccounts(text)[i] == AccountFor(text, AccountSections(text)[i], i)
  {
  }

  /** The five groups of an account's holdings add up to its total. */
  lemma GroupsSumFive(h: Holdings)
    ensures GroupsSum([h.equities, h.dematMutualFunds, h.corporateBonds, h.governmentSecurities, h.aifs])
         == HoldingsTotal(h)
  {
    var g := [h.equities, h.dematMutualFunds, h.corporateBonds, h.governmentSecurities, h.aifs];
    assert g[..1][..0] == [];
    assert GroupsSum(g[..1]) == HoldingsSum(h.equities);
    assert g[..2][..1] == g[..1];
    assert GroupsSum(g[..2]) == GroupsSum(g[..1]) + HoldingsSum(h.dematMutualFunds);
    assert g[..3][..2] == g[..2];
    assert GroupsSum(g[..3]) == GroupsSum(g[..2]) + HoldingsSum(h.corporateBonds);
    assert g[..4][..3] == g[..3];
    assert GroupsSum(g[..4]) == GroupsSum(g[..3]) + HoldingsSum(h.governmentSecurities);
    assert g[..4] == g[..|g| - 1];
  }

  /** The account the loop body assembles is the one the specification describes. */
  lemma AccountAssembled(text: string, section: string, i: nat, details: DematAccount, boId: string,
                         holdings: Holdings, value: real)
    requires details == SectionDetails(section, BlankAccount)
    requires boId == BoIdFor(text, section, details, i)
    requires holdings == AccountHoldings(text, boId)
    requires value == HoldingsTotal(holdings)
    ensures details.(boId := boId).(holdings := holdings).(value := value) == AccountFor(text, section, i)
  {
  }

  // ---------------------------------------------------------------- the parser

  class CdslParser {
    /** The statement text of the last `parse`. */
    var pdfText: string
    /** The issuer tag: `CDSL` for a fresh parser, the detected one after `parse`. */
    var casType: string

    constructor()
      ensures pdfText == "" && casType == "CDSL"
    {
      pdfText := "";
      casType := "CDSL";
    }

    /**
     * `splitIntoAccountSections`: nothing for blank text; otherwise the `exec` loop over the
     * section pattern, keeping the candidates that pass the gates.
     */
    method SplitIntoAccountSections() returns (sections: seq<string>)
      ensures sections == AccountSections(pdfText)
    {
      sections := [];
      var s := pdfText;
      if |Trim(s)| == 0 {
        return;
      }
      DpSectionAdvances(s);
      var last: nat := 0;
      ghost var done: seq<Found<nat>> := [];
      while true
        invariant last <= |s| && Within(s, done)
        invariant SectionMatches(s, 0) == done + SectionMatches(s, last)
        invariant sections == Texts(s, KeptSpans(s, done, IsAccountSection))
        decreases |s| - last
      {
        var m := FirstMatch(s, last, DpSectionAt);
        if m.None? {
          AllMatchesDone(s, 0, last, DpSectionAt, MatchEnd, done);
          break;
        }
        var f := m.value;
        AllMatchesStep(s, 0, last, DpSectionAt, MatchEnd, done, f);
        var sectionText := s[f.pos..f.value];
        var keep := IsAccountSection(sectionText);
        KeptTextsSnoc(s, done, f, IsAccountSection, keep);
        if keep {
          sections := sections + [sectionText];
        }
        done := done + [f];
        last := f.value;
      }
    }

    /**
     * `findBoIdForAccount`: '' for an empty section; else the distinct BO ids of the statement
     * are gathered by the `exec` loop, and the account at `accountIndex` takes the one at that
     * position, or DP id followed by client id when the list is shorter and both are known.
     */
    method FindBoIdForAccount(sectionText: string, account: DematAccount, accountIndex: nat) returns (boId: string)
      ensures boId == BoIdFor(pdfText, sectionText, account, accountIndex)
    {
      if sectionText == "" {
        return "";
      }
      var s := pdfText;
      var allBoIds: seq<string> := [];
      var last: nat := 0;
      while true
        invariant last <= |s|
        invariant DedupeInto(allBoIds, Ids(BoIdMatches(s, last))) == AllBoIds(s)
        decreases |s| - last
      {
        var m := FirstMatch(s, last, BoIdAt);
        if m.None? {
          BoIdsDone(s, last, allBoIds);
          break;
        }
        BoIdStep(s, last, allBoIds, m.value);
        var id := m.value.value.id;
        if id !in allBoIds {
          allBoIds := allBoIds + [id];
        }
        last := m.value.value.end;
      }
      if accountIndex < |allBoIds| {
        return allBoIds[accountIndex];
      }
      if account.dpId != "" && account.clientId != "" {
        return account.dpId + account.clientId;
      }
      return "";
    }

    /** `parseHoldingsFromSection`: the `exec` loop over the row pattern, filing each row's holding. */
    method ParseHoldingsFromSection(sectionText: string) returns (holdings: Holdings)
      ensures holdings == SectionHoldings(sectionText)
    {
      var s := sectionText;
      holdings := NoHoldings;
      var last: nat := 0;
      ghost var done: seq<Found<Row>> := [];
      RowsStart(s);
      while true
        invariant last <= |s|
        invariant RowsSeen(s, last, done)
        invariant holdings == FileAll(RowHoldings(done))
        decreases |s| - last
      {
        var m := FirstMatch(s, last, RowAt);
        if m.None? {
          RowsEnd(s, last, done);
          break;
        }
        var f := m.value;
        RowsStep(s, last, done, f);
        RowFiled(done, f, holdings);
        ghost var before := holdings;
        var holding := HoldingOfRow(f.value);
        var name := ToLower(holding.name);
        if StartsWith(holding.isin, "INE") || Contains(name, "equity") || Contains(name, "shares") {
          holdings := holdings.(equities := holdings.equities + [holding]);
        } else if StartsWith(holding.isin, "INF") || Contains(name, "etf") || Contains(name, "fund") {
          holdings := holdings.(dematMutualFunds := holdings.dematMutualFunds + [holding]);
        } else {
          holdings := holdings.(equities := holdings.equities + [holding]);
        }
        assert holdings == File(before, holding);
        done := done + [f];
        last := RowEnd(f.value);
      }
    }

    /**
     * `extractHoldingsForAccount`: the passage from this account's `BO ID` marker to the next
     * one is searched in the statement text; the next section is not consulted.
     */
    method ExtractHoldingsForAccount(sectionText: string, nextSectionText: Option<string>, account: DematAccount)
      returns (holdings: Holdings)
      ensures holdings == AccountHoldings(pdfText, account.boId)
    {
      holdings := NoHoldings;
      var boId := account.boId;
      if boId == "" {
        return;
      }
      var startIndex := IndexOf(pdfText, "BO ID: " + boId, 0);
      if startIndex.None? {
        startIndex := IndexOf(pdfText, "BO ID : " + boId, 0);
      }
      if startIndex.None? {
        return;
      }
      var start := startIndex.value;
      assert MarkerStart(pdfText, boId) == Some(start);
      var nextBoIdIndex := IndexOf(pdfText, "BO ID", start + 10);
      TransactionPassageFrom(pdfText, boId, start, nextBoIdIndex);
      var transactionSection := pdfText[start..if nextBoIdIndex.Some? then nextBoIdIndex.value else |pdfText|];
      if Contains(transactionSection, "Nil Holding") {
        return;
      }
      if Contains(transactionSection, "HOLDING STATEMENT") && Contains(transactionSection, "Portfolio Value") {
        var parsed := ParseHoldingsFromSection(transactionSection);
        holdings := holdings.(equities := parsed.equities, dematMutualFunds := parsed.dematMutualFunds,
          corporateBonds := parsed.corporateBonds, governmentSecurities := parsed.governmentSecurities);
      }
    }

    /** `calculateAccountValue`: the values of every holding of every category, added up. */
    method CalculateAccountValue(holdings: Holdings) returns (total: real)
      ensures total == HoldingsTotal(holdings)
    {
      var groups := [holdings.equities, holdings.dematMutualFunds, holdings.corporateBonds,
                     holdings.governmentSecurities, holdings.aifs];
      total := 0.0;
      var i := 0;
      while i < |groups|
        invariant 0 <= i <= |groups|
        invariant total == GroupsSum(groups[..i])
      {
        var group := groups[i];
        var j := 0;
        while j < |group|
          invariant 0 <= j <= |group|
          invariant total == GroupsSum(groups[..i]) + HoldingsSum(group[..j])
        {
          assert group[..j + 1][..j] == group[..j];
          total := total + group[j].value;
          j := j + 1;
        }
        assert group[..j] == group;
        assert groups[..i + 1][..i] == groups[..i];
        i := i + 1;
      }
      assert groups[..i] == groups;
      GroupsSumFive(holdings);
    }

    /**
     * `extractDematAccounts`: for each account section in turn, a fresh account is filled from
     * the section header, given its BO id, its holdings and their value, and appended.
     */
    method ExtractDematAccounts() returns (accounts: seq<DematAccount>)
      ensures accounts == DematAccounts(pdfText)
    {
      var dpSections := SplitIntoAccountSections();
      ghost var spec := DematAccounts(pdfText);
      accounts := [];
      var i := 0;
      while i < |dpSections|
        invariant 0 <= i <= |dpSections| == |spec|
        invariant accounts == spec[..i]
      {
        var section := dpSections[i];
        var nextSection := if i + 1 < |dpSections| then Some(dpSections[i + 1]) else None;
        var account := SectionDetails(section, BlankAccount);
        ghost var details := account;
        var boId := FindBoIdForAccount(section, account, i);
        account := account.(boId := boId);
        var holdings := ExtractHoldingsForAccount(section, nextSection, account);
        account := account.(holdings := holdings);
        var value := CalculateAccountValue(account.holdings);
        account := account.(value := value);
        AccountAssembled(pdfText, section, i, details, boId, holdings, value);
        DematAccountsAt(pdfText, i);
        TakeOneMore(spec, i);
        accounts := accounts + [account];
        i := i + 1;
      }
    }

    /**
     * `parse`: the text and the detected issuer are stored, the parts are extracted in order,
     * and the summary is computed last, from the extracted lists. The clock reading and the
     * scheme-table extractor are parameters.
     */
    method Parse(text: string, isoNow: string, table: string -> Option<SchemeCaptures>) returns (data: CasData)
      modifies this
      ensures pdfText == text && casType == Tag(DetectCasType(text))
      ensures data == CdslParse(text, isoNow, table)
    {
      pdfText := text;
      casType := Tag(DetectCasType(text));
      var investor := InvestorInfo(pdfText);
      var accounts := ExtractDematAccounts();
      var funds := MutualFunds(pdfText, table);
      var insurance := ExtractInsurance();
      var meta := ExtractMetadata(casType, isoNow, StatementPeriod(pdfText));
      data := CasData(investor, accounts, funds, insurance, meta, Summary(ClassTotal(0, 0.0), ClassTotal(0, 0.0), ClassTotal(0, 0.0), 0.0));
      var summary := CalculateSummary(data);
      data := data.(summary := summary);
    }
  }
}
