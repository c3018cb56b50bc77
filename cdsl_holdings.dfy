/**
 * The holding statement of a demat account: the rows of its holdings table, read with the
 * `g`-flag pattern
 *   ISIN \s+ (name, lazy) \s+ current \s+ -- \s+ -- \s+ -- \s+ free \s+ price \s+ value
 * each turned into a holding and filed as an equity or a demat mutual fund, and the passage of
 * the statement that belongs to one BO id, where that account's table is looked for.
 */
module CdslHoldings {
  import opened Wrappers
  import opened Text
  import opened Scan
  import opened Records
  import opened BaseParser

  // ---------------------------------------------------------------- the table row pattern

  /** `[A-Z]{2}[A-Z0-9]{9}\d` at `p`. */
  predicate IsIsinAt(s: string, p: nat)
  {
    && p + 12 <= |s|
    && IsUpper(s[p]) && IsUpper(s[p + 1])
    && (forall k | p + 2 <= k < p + 11 :: IsUpperOrDigit(s[k]))
    && IsDigit(s[p + 11])
  }

  predicate IsDigitOrComma(c: char) { IsDigit(c) || c == ',' }

  /**
   * `[\d,]+\.?\d*` at `i`: the end of the number. Whenever the number is followed by `\s+` or
   * ends the pattern, the engine's first successful choice is the longest one: shorter choices
   * leave a digit, comma or point where whitespace would be needed.
   */
  function NumEnd(s: string, i: nat): (r: Option<nat>)
    requires i <= |s|
    ensures r.Some? ==> i < r.value <= |s|
    ensures r.Some? ==> forall k | i <= k < r.value :: IsDigitOrComma(s[k]) || s[k] == '.'
    ensures r.Some? ==> r.value == |s| || !IsDigit(s[r.value])
  {
    var j := SkipWhile(s, i, IsDigitOrComma);
    if j == i then None
    else if j < |s| && s[j] == '.' then Some(SkipWhile(s, j + 1, IsDigit))
    else Some(j)
  }

  /** The four numeric columns of a row, as the text they were read from, and where the row ends. */
  datatype Columns = Columns(current: string, free: string, price: string, value: string, end: nat)

  /** `--\s+` at `i`: the index after the whitespace run. */
  function DashThen(s: string, i: nat): (r: Option<nat>)
    requires i <= |s|
    ensures r.Some? ==> i + 2 < r.value <= |s|
  {
    if !At(s, i, "--") then None else WsPlus(s, i + 2)
  }

  /**
   * What follows the name: `\s+ NUM \s+ -- \s+ -- \s+ -- \s+ NUM \s+ NUM \s+ NUM` from `e`.
   * Every whitespace run is followed by a digit, comma or dash, so the greedy run is the only
   * choice, and each number takes its longest extent.
   */
  function RowTail(s: string, e: nat): (r: Option<Columns>)
    ensures r.Some? ==> e < r.value.end <= |s|
  {
    if e > |s| then None
    else
      var a1 :- WsPlus(s, e);
      var b1 :- NumEnd(s, a1);
      var c1 :- WsPlus(s, b1);
      var c2 :- DashThen(s, c1);
      var c3 :- DashThen(s, c2);
      var d3 :- DashThen(s, c3);
      var b2 :- NumEnd(s, d3);
      var a3 :- WsPlus(s, b2);
      var b3 :- NumEnd(s, a3);
      var a4 :- WsPlus(s, b3);
      var b4 :- NumEnd(s, a4);
      Some(Columns(s[a1..b1], s[d3..b2], s[a3..b3], s[a4..b4], b4))
  }

  /** A digit run that ends before a character no number can continue with is one whole number. */
  lemma NumberRun(s: string, i: nat, j: nat)
    requires i < j <= |s| && forall k | i <= k < j :: IsDigit(s[k])
    requires j == |s| || (!IsDigitOrComma(s[j]) && s[j] != '.')
    ensures NumEnd(s, i) == Some(j)
  {
    SkipWhileRun(s, i, j, IsDigitOrComma);
  }

  /** One space before a non-blank character is a whole `\s+` run. */
  lemma OneSpace(s: string, i: nat)
    requires i + 1 < |s| && s[i] == ' ' && !IsWs(s[i + 1])
    ensures WsPlus(s, i) == Some(i + 1)
  {
    SkipWhileRun(s, i, i + 1, IsWs);
  }

  /** `-- ` before a non-blank character is one `--\s+`. */
  lemma DashSpace(s: string, i: nat)
    requires i + 3 < |s| && s[i] == '-' && s[i + 1] == '-' && s[i + 2] == ' ' && !IsWs(s[i + 3])
    ensures DashThen(s, i) == Some(i + 3)
  {
    assert s[i..i + 2] == "--";
    OneSpace(s, i + 2);
  }

  /** The text from `i` reads ` -- -- -- `. */
  predicate ThreeDashesAt(s: string, i: nat)
  {
    && i + 10 <= |s| && s[i] == ' '
    && s[i + 1] == '-' && s[i + 2] == '-' && s[i + 3] == ' '
    && s[i + 4] == '-' && s[i + 5] == '-' && s[i + 6] == ' '
    && s[i + 7] == '-' && s[i + 8] == '-' && s[i + 9] == ' '
  }

  /** ` -- -- -- ` before a non-blank character: a blank and the three `--\s+` of the pattern. */
  lemma ThreeDashes(s: string, i: nat)
    requires ThreeDashesAt(s, i) && i + 10 < |s| && !IsWs(s[i + 10])
    ensures WsPlus(s, i) == Some(i + 1)
    ensures DashThen(s, i + 1) == Some(i + 4) && DashThen(s, i + 4) == Some(i + 7)
    ensures DashThen(s, i + 7) == Some(i + 10)
  {
    OneSpace(s, i);
    DashSpace(s, i + 1);
    DashSpace(s, i + 4);
    DashSpace(s, i + 7);
  }

  /**
   * The column order of a row: when the text from `e` reads ` N1 -- -- -- N2 N3 N4` with single
   * spaces and the numerals `N1` to `N4` at `[a1, b1)`, `[d3, b2)`, `[a3, b3)` and `[a4, b4)`, the
   * balance before the three dashes is the current balance, and the three numbers after them are
   * the free balance, the market price and the value, in that order.
   */
  lemma RowTailColumns(s: string, e: nat, a1: nat, b1: nat, d3: nat, b2: nat, a3: nat, b3: nat, a4: nat, b4: nat)
    requires a1 == e + 1 && d3 == b1 + 10 && a3 == b2 + 1 && a4 == b3 + 1
    requires a1 < b1 && d3 < b2 && a3 < b3 && a4 < b4 <= |s|
    requires s[e] == ' ' && AllDigits(s[a1..b1]) && ThreeDashesAt(s, b1) && AllDigits(s[d3..b2])
    requires s[b2] == ' ' && AllDigits(s[a3..b3]) && s[b3] == ' ' && AllDigits(s[a4..b4])
    requires b4 == |s| || (!IsDigitOrComma(s[b4]) && s[b4] != '.')
    ensures RowTail(s, e) == Some(Columns(s[a1..b1], s[d3..b2], s[a3..b3], s[a4..b4], b4))
  {
    var c1, c2, c3 := b1 + 1, b1 + 4, b1 + 7;
    HeadSteps(s, e, a1, b1);
    MiddleSteps(s, b1, c1, c2, c3, d3, b2);
    LastSteps(s, b2, a3, b3, a4, b4);
    RowTailSteps(s, e, a1, b1, c1, c2, c3, d3, b2, a3, b3, a4, b4);
  }

  /** The characters of an all-digit slice are digits. */
  lemma DigitsOfSlice(s: string, i: nat, j: nat)
    requires i <= j <= |s| && AllDigits(s[i..j])
    ensures forall k | i <= k < j :: IsDigit(s[k])
  {
    forall k | i <= k < j ensures IsDigit(s[k]) { assert s[k] == s[i..j][k - i]; }
  }

  /** The blank and the current balance before the dashes. */
  lemma HeadSteps(s: string, e: nat, a1: nat, b1: nat)
    requires a1 == e + 1 && a1 < b1 < |s| && s[e] == ' ' && AllDigits(s[a1..b1])
    requires s[b1] == ' '
    ensures WsPlus(s, e) == Some(a1) && NumEnd(s, a1) == Some(b1)
  {
    DigitsOfSlice(s, a1, b1);
    assert IsDigit(s[a1]);
    OneSpace(s, e);
    NumberRun(s, a1, b1);
  }

  /** The three dashes and the free balance. */
  lemma MiddleSteps(s: string, b1: nat, c1: nat, c2: nat, c3: nat, d3: nat, b2: nat)
    requires c1 == b1 + 1 && c2 == b1 + 4 && c3 == b1 + 7 && d3 == b1 + 10
    requires d3 < b2 < |s| && ThreeDashesAt(s, b1) && AllDigits(s[d3..b2])
    requires s[b2] == ' '
    ensures WsPlus(s, b1) == Some(c1) && DashThen(s, c1) == Some(c2)
    ensures DashThen(s, c2) == Some(c3) && DashThen(s, c3) == Some(d3)
    ensures NumEnd(s, d3) == Some(b2)
  {
    DigitsOfSlice(s, d3, b2);
    assert IsDigit(s[d3]);
    ThreeDashes(s, b1);
    NumberRun(s, d3, b2);
  }

  /** The market price and the value. */
  lemma LastSteps(s: string, b2: nat, a3: nat, b3: nat, a4: nat, b4: nat)
    requires a3 == b2 + 1 && a4 == b3 + 1 && a3 < b3 && a4 < b4 <= |s|
    requires s[b2] == ' ' && AllDigits(s[a3..b3])
    requires s[b3] == ' ' && AllDigits(s[a4..b4])
    requires b4 == |s| || (!IsDigitOrComma(s[b4]) && s[b4] != '.')
    ensures WsPlus(s, b2) == Some(a3) && NumEnd(s, a3) == Some(b3)
    ensures WsPlus(s, b3) == Some(a4) && NumEnd(s, a4) == Some(b4)
  {
    DigitsOfSlice(s, a3, b3);
    DigitsOfSlice(s, a4, b4);
    assert IsDigit(s[a3]) && IsDigit(s[a4]);
    OneSpace(s, b2);
    NumberRun(s, a3, b3);
    OneSpace(s, b3);
    NumberRun(s, a4, b4);
  }

  /** `RowTail` read off the results of its steps. */
  lemma RowTailSteps(s: string, e: nat, a1: nat, b1: nat, c1: nat, c2: nat, c3: nat, d3: nat,
                     b2: nat, a3: nat, b3: nat, a4: nat, b4: nat)
    requires e <= |s| && WsPlus(s, e) == Some(a1) && NumEnd(s, a1) == Some(b1)
    requires WsPlus(s, b1) == Some(c1) && DashThen(s, c1) == Some(c2) && DashThen(s, c2) == Some(c3)
    requires DashThen(s, c3) == Some(d3) && NumEnd(s, d3) == Some(b2) && WsPlus(s, b2) == Some(a3)
    requires NumEnd(s, a3) == Some(b3) && WsPlus(s, b3) == Some(a4) && NumEnd(s, a4) == Some(b4)
    ensures RowTail(s, e) == Some(Columns(s[a1..b1], s[d3..b2], s[a3..b3], s[a4..b4], b4))
  {
  }

  /** A numeral found at `i` starts with a digit there, which is not blank. */
  lemma FirstDigit(s: string, i: nat, n: string)
    requires |n| > 0 && AllDigits(n) && At(s, i, n)
    ensures i < |s| && IsDigit(s[i]) && !IsWs(s[i])
  {
    assert s[i] == s[i..i + |n|][0];
  }

  /** A row: the ISIN, the name as captured (before `cleanText`) and the columns. */
  datatype Row = Row(isin: string, name: string, columns: Columns)

  function RowEnd(r: Row): nat { r.columns.end }

  /**
   * The row pattern at `p`. After the ISIN the greedy `\s+` takes the whole whitespace run and
   * the lazy name grows one character at a time until the rest of the row matches. If it never
   * does, the engine gives whitespace back: one character less makes the name start on
   * whitespace and end just before the first non-blank character, where no row tail can start;
   * two characters less lets the name be the single blank before the last one, and the tail
   * start at that last blank; giving back more only repeats that last attempt.
   */
  function RowAt(s: string, p: nat): (r: Option<Row>)
    ensures r.Some? ==> IsIsinAt(s, p) && r.value.isin == s[p..p + 12]
    ensures r.Some? ==> p + 12 < RowEnd(r.value) <= |s|
    ensures r.Some? ==> |r.value.name| > 0
  {
    RowWith(s, p, RowTail)
  }

  /** The row pattern at `p`, for a given pattern of what follows the name. */
  function RowWith(s: string, p: nat, tail: (string, nat) -> Option<Columns>): (r: Option<Row>)
    requires forall i | 0 <= i <= |s| && tail(s, i).Some? :: i < tail(s, i).value.end <= |s|
    ensures r.Some? ==> IsIsinAt(s, p) && r.value.isin == s[p..p + 12]
    ensures r.Some? ==> p + 12 < RowEnd(r.value) <= |s|
    ensures r.Some? ==> |r.value.name| > 0
  {
    if !IsIsinAt(s, p) then None
    else
      var w := SkipWs(s, p + 12);
      if w == p + 12 then None
      else
        match FirstMatch(s, w + 1, tail)
        case Some(f) => Some(Row(s[p..p + 12], s[w..f.pos], f.value))
        case None =>
          if w - (p + 12) >= 3 && tail(s, w - 1).Some? then
            Some(Row(s[p..p + 12], s[w - 2..w - 1], tail(s, w - 1).value))
          else None
  }

  lemma RowAdvances(s: string)
    ensures Advances(s, RowAt, RowEnd)
  {
  }

  /** The rows the `exec` loop over a section sees, from its start. */
  function TableRows(s: string): seq<Found<Row>>
  {
    RowAdvances(s);
    AllMatches(s, 0, RowAt, RowEnd)
  }

  /** The `exec` loop over the rows has seen `done` and resumes at `last`. */
  ghost predicate RowsSeen(s: string, last: nat, done: seq<Found<Row>>)
  {
    RowAdvances(s);
    AllMatches(s, 0, RowAt, RowEnd) == done + AllMatches(s, last, RowAt, RowEnd)
  }

  lemma RowsStart(s: string)
    ensures RowsSeen(s, 0, [])
  {
    RowAdvances(s);
    assert [] + AllMatches(s, 0, RowAt, RowEnd) == AllMatches(s, 0, RowAt, RowEnd);
  }

  /** One turn of the row loop: the row found is the next row of the table. */
  lemma RowsStep(s: string, last: nat, done: seq<Found<Row>>, f: Found<Row>)
    requires RowsSeen(s, last, done) && FirstMatch(s, last, RowAt) == Some(f)
    ensures last <= f.pos < RowEnd(f.value) <= |s|
    ensures RowsSeen(s, RowEnd(f.value), done + [f])
  {
    RowAdvances(s);
    AllMatchesStep(s, 0, last, RowAt, RowEnd, done, f);
  }

  /** The row loop has seen every row of the table once no further row is found. */
  lemma RowsEnd(s: string, last: nat, done: seq<Found<Row>>)
    requires RowsSeen(s, last, done) && FirstMatch(s, last, RowAt).None?
    ensures TableRows(s) == done
  {
    RowAdvances(s);
    AllMatchesDone(s, 0, last, RowAt, RowEnd, done);
  }

  // ---------------------------------------------------------------- rows to holdings

  /** The holding built from a row: cleaned name, parsed balance and value, price and free balance. */
  function HoldingOfRow(r: Row): (h: Holding)
    ensures h.isin == r.isin && IsClean(h.name)
    ensures h.additionalInfo.PriceInfo?
  {
    CleanTextNormal(r.name);
    Holding(r.isin, CleanText(r.name), ParseNumber(r.columns.current), ParseNumber(r.columns.value),
      PriceInfo(ParseNumber(r.columns.price), ParseNumber(r.columns.free)))
  }

  /**
   * The category rule: an `INE` ISIN or a name mentioning equity or shares is an equity; failing
   * that, an `INF` ISIN or a name mentioning an ETF or a fund is a demat mutual fund; anything
   * else defaults to equity.
   */
  predicate IsEquityHolding(h: Holding)
  {
    var n := ToLower(h.name);
    StartsWith(h.isin, "INE") || Contains(n, "equity") || Contains(n, "shares")
  }

  predicate IsFundHolding(h: Holding)
  {
    var n := ToLower(h.name);
    !IsEquityHolding(h) && (StartsWith(h.isin, "INF") || Contains(n, "etf") || Contains(n, "fund"))
  }

  /** One `push` of the loop: the holding goes to the end of its category. */
  function File(hs: Holdings, h: Holding): Holdings
  {
    if IsFundHolding(h) then hs.(dematMutualFunds := hs.dematMutualFunds + [h])
    else hs.(equities := hs.equities + [h])
  }

  /** The holdings the loop has filed after meeting `hs`, in that order. */
  function FileAll(hs: seq<Holding>): Holdings
  {
    if hs == [] then NoHoldings else File(FileAll(hs[..|hs| - 1]), hs[|hs| - 1])
  }

  /** The holdings of the rows, in row order. */
  function RowHoldings(ms: seq<Found<Row>>): (r: seq<Holding>)
    ensures |r| == |ms| && forall k | 0 <= k < |ms| :: r[k] == HoldingOfRow(ms[k].value)
  {
    if ms == [] then [] else RowHoldings(ms[..|ms| - 1]) + [HoldingOfRow(ms[|ms| - 1].value)]
  }

  /** `parseHoldingsFromSection`: the holdings of a section's table. */
  function SectionHoldings(s: string): Holdings
  {
    FileAll(RowHoldings(TableRows(s)))
  }

  /** Reference definition: the holdings of `hs` that are, or are not, demat mutual funds, in order. */
  function Select(hs: seq<Holding>, funds: bool): seq<Holding>
  {
    if hs == [] then []
    else Select(hs[..|hs| - 1], funds) + (if IsFundHolding(hs[|hs| - 1]) == funds then [hs[|hs| - 1]] else [])
  }

  lemma {:induction false} SelectSplits(hs: seq<Holding>)
    ensures |Select(hs, true)| + |Select(hs, false)| == |hs|
    ensures forall h | h in Select(hs, true) :: h in hs && IsFundHolding(h)
    ensures forall h | h in Select(hs, false) :: h in hs && !IsFundHolding(h)
  {
    if hs != [] {
      var init := hs[..|hs| - 1];
      SelectSplits(init);
      assert hs == init + [hs[|hs| - 1]];
    }
  }

  /** Filing puts the fund holdings, in the order met, among the demat mutual funds. */
  lemma {:induction false} FileAllFunds(hs: seq<Holding>)
    ensures FileAll(hs).dematMutualFunds == Select(hs, true)
  {
    if hs != [] { FileAllFunds(hs[..|hs| - 1]); }
  }

  /** Filing puts every other holding, in the order met, among the equities. */
  lemma {:induction false} FileAllEquities(hs: seq<Holding>)
    ensures FileAll(hs).equities == Select(hs, false)
  {
    if hs != [] { FileAllEquities(hs[..|hs| - 1]); }
  }

  /** Filing never touches the bonds, the government securities or the AIFs. */
  lemma {:induction false} FileAllOthers(hs: seq<Holding>)
    ensures FileAll(hs).corporateBonds == [] && FileAll(hs).governmentSecurities == [] && FileAll(hs).aifs == []
  {
    if hs != [] { FileAllOthers(hs[..|hs| - 1]); }
  }

  /**
   * The categories of a section's holdings: the bonds, government securities and AIFs are
   * empty, and every row of the table yields exactly one holding, among the demat mutual funds
   * when the category rule says fund and among the equities otherwise, in row order.
   */
  lemma SectionHoldingsCategories(s: string)
    ensures var h := SectionHoldings(s);
      && h.corporateBonds == [] && h.governmentSecurities == [] && h.aifs == []
      && h.dematMutualFunds == Select(RowHoldings(TableRows(s)), true)
      && h.equities == Select(RowHoldings(TableRows(s)), false)
      && |h.equities| + |h.dematMutualFunds| == |TableRows(s)|
      && (forall x | x in h.dematMutualFunds :: IsFundHolding(x))
      && (forall x | x in h.equities :: !IsFundHolding(x))
  {
    var hs := RowHoldings(TableRows(s));
    FileAllFunds(hs);
    FileAllEquities(hs);
    FileAllOthers(hs);
    SelectSplits(hs);
  }

  /** The rows the loop sees are genuine matches of the row pattern, each at an ISIN. */
  lemma TableRowsGenuine(s: string)
    ensures var ms := TableRows(s);
      forall k | 0 <= k < |ms| :: RowAt(s, ms[k].pos) == Some(ms[k].value) && IsIsinAt(s, ms[k].pos)
  {
    RowAdvances(s);
    AllMatchesSound(s, 0, RowAt, RowEnd);
  }

  /** Each row ends before the next one starts. */
  lemma TableRowsOrdered(s: string, k: nat)
    requires k + 1 < |TableRows(s)|
    ensures var ms := TableRows(s); ms[k].pos < RowEnd(ms[k].value) <= ms[k + 1].pos
  {
    RowAdvances(s);
    AllMatchesDisjoint(s, 0, RowAt, RowEnd, k);
  }

  /** The holding the `k`-th row yields carries the ISIN standing at that row and a cleaned name. */
  lemma TableRowHolding(s: string, k: nat)
    requires k < |TableRows(s)|
    ensures var r := TableRows(s)[k]; var h := RowHoldings(TableRows(s))[k];
      && IsIsinAt(s, r.pos) && h.isin == s[r.pos..r.pos + 12]
      && h == HoldingOfRow(r.value) && IsClean(h.name)
  {
    TableRowsGenuine(s);
  }

  /**
   * On an ordinary row, where the rest of the row first matches right after a name that starts
   * at the first non-blank character after the ISIN, the name captured is exactly that text.
   */
  lemma RowAtName(s: string, p: nat, e: nat)
    requires IsIsinAt(s, p)
    requires SkipWs(s, p + 12) > p + 12
    requires SkipWs(s, p + 12) < e <= |s| && RowTail(s, e).Some?
    requires forall j | SkipWs(s, p + 12) < j < e :: RowTail(s, j).None?
    ensures RowAt(s, p) == Some(Row(s[p..p + 12], s[SkipWs(s, p + 12)..e], RowTail(s, e).value))
  {
    RowWithName(s, p, e, RowTail);
  }

  lemma RowWithName(s: string, p: nat, e: nat, tail: (string, nat) -> Option<Columns>)
    requires forall i | 0 <= i <= |s| && tail(s, i).Some? :: i < tail(s, i).value.end <= |s|
    requires IsIsinAt(s, p)
    requires SkipWs(s, p + 12) > p + 12
    requires SkipWs(s, p + 12) < e <= |s| && tail(s, e).Some?
    requires forall j | SkipWs(s, p + 12) < j < e :: tail(s, j).None?
    ensures RowWith(s, p, tail) == Some(Row(s[p..p + 12], s[SkipWs(s, p + 12)..e], tail(s, e).value))
  {
    FirstMatchAt(s, SkipWs(s, p + 12) + 1, tail, e);
  }

  // ---------------------------------------------------------------- one account's passage

  /** Where the first `BO ID: <id>` starts, or else the first `BO ID : <id>`. */
  function MarkerStart(text: string, boId: string): (r: Option<nat>)
    ensures r.Some? ==> r.value + 7 <= |text|
  {
    match IndexOf(text, "BO ID: " + boId, 0)
    case Some(i) => Some(i)
    case None => IndexOf(text, "BO ID : " + boId, 0)
  }

  /**
   * Where the passage the holdings of the account with BO id `boId` are read from lies: from
   * the first `BO ID: <id>` (else the first `BO ID : <id>`) up to the next `BO ID` at least ten
   * characters further on, or to the end of the text.
   */
  function TransactionSpan(text: string, boId: string): (r: Option<Found<nat>>)
    ensures r.Some? ==> r.value.pos <= r.value.value <= |text|
  {
    match MarkerStart(text, boId)
    case None => None
    case Some(start) =>
      match IndexOf(text, "BO ID", start + 10)
      case Some(j) => Some(Found(start, j))
      case None => Some(Found(start, |text|))
  }

  /**
   * The passage starts at the first `BO ID: <id>`, or at the first `BO ID : <id>` when the
   * text has no `BO ID: <id>`; it ends at the first `BO ID` ten or more characters after its
   * start, or at the end of the text when there is none; there is no passage exactly when
   * neither marker occurs.
   */
  lemma TransactionSpanShape(text: string, boId: string)
    ensures var r := TransactionSpan(text, boId);
      && (r.Some? ==>
        || (At(text, r.value.pos, "BO ID: " + boId) && forall k | 0 <= k < r.value.pos :: !At(text, k, "BO ID: " + boId))
        || ((forall k: nat :: !At(text, k, "BO ID: " + boId))
            && At(text, r.value.pos, "BO ID : " + boId) && forall k | 0 <= k < r.value.pos :: !At(text, k, "BO ID : " + boId)))
      && (r.Some? ==>
        || (r.value.value == |text| && forall k | r.value.pos + 10 <= k :: !At(text, k, "BO ID"))
        || (r.value.pos + 10 <= r.value.value && At(text, r.value.value, "BO ID")
            && forall k | r.value.pos + 10 <= k < r.value.value :: !At(text, k, "BO ID")))
      && (r.None? <==> forall k: nat :: !At(text, k, "BO ID: " + boId) && !At(text, k, "BO ID : " + boId))
  {
  }

  function TransactionPassage(text: string, boId: string): Option<string>
  {
    match TransactionSpan(text, boId)
    case None => None
    case Some(f) => Some(text[f.pos..f.value])
  }

  /** The passage found by first locating the marker, then the next `BO ID` ten characters on. */
  lemma TransactionPassageFrom(text: string, boId: string, start: nat, next: Option<nat>)
    requires MarkerStart(text, boId) == Some(start)
    requires next == IndexOf(text, "BO ID", start + 10)
    ensures start <= |text| && (next.Some? ==> start <= next.value <= |text|)
    ensures TransactionPassage(text, boId) == Some(text[start..if next.Some? then next.value else |text|])
  {
  }

  /**
   * `extractHoldingsForAccount`: nothing without a BO id, without a passage for it, or when the
   * passage says `Nil Holding`; the passage's table when it has a holding statement with a
   * portfolio value; nothing otherwise. The AIFs are never filled.
   */
  function AccountHoldings(text: string, boId: string): Holdings
  {
    if boId == "" then NoHoldings
    else
      match TransactionPassage(text, boId)
      case None => NoHoldings
      case Some(t) =>
        if Contains(t, "Nil Holding") then NoHoldings
        else if Contains(t, "HOLDING STATEMENT") && Contains(t, "Portfolio Value") then
          var parsed := SectionHoldings(t);
          NoHoldings.(equities := parsed.equities, dematMutualFunds := parsed.dematMutualFunds,
            corporateBonds := parsed.corporateBonds, governmentSecurities := parsed.governmentSecurities)
        else NoHoldings
  }

  /**
   * The holdings of an account are empty unless it has a BO id whose passage lacks `Nil Holding`
   * and carries both table markers; then they are that passage's table.
   */
  lemma AccountHoldingsCases(text: string, boId: string)
    ensures var h := AccountHoldings(text, boId);
      && (boId == "" || TransactionPassage(text, boId).None? ==> h == NoHoldings)
      && (boId != "" && TransactionPassage(text, boId).Some? ==>
            var t := TransactionPassage(text, boId).value;
            && (Contains(t, "Nil Holding") ==> h == NoHoldings)
            && (!(Contains(t, "HOLDING STATEMENT") && Contains(t, "Portfolio Value")) ==> h == NoHoldings)
            && (!Contains(t, "Nil Holding") && Contains(t, "HOLDING STATEMENT") && Contains(t, "Portfolio Value") ==>
                  h == SectionHoldings(t)))
  {
    if boId != "" && TransactionPassage(text, boId).Some? {
      var t := TransactionPassage(text, boId).value;
      FileAllOthers(RowHoldings(TableRows(t)));
    }
  }
}
