/**
 * The legacy line-by-line readers of a CDSL statement, off the main extraction path:
 * `parseEquityHoldings` and `parseMutualFundHoldings`, which walk the lines of a passage
 * carrying the holding being built from one ISIN line to the next, and
 * `extractDpNameForSearch`, which picks the word of a DP name most likely to be the broker's.
 */
module CdslLegacy {
  import opened Wrappers
  import opened Text
  import opened Scan
  import opened Records
  import opened BaseParser
  import opened CdslSections
  import opened CdslHoldings

  // ---------------------------------------------------------------- one ISIN line

  /** `([A-Z]{2}[A-Z0-9]{9}\d)` at `p`: where the ISIN ends. */
  function IsinAt(s: string, p: nat): (r: Option<nat>)
    ensures r.Some? ==> IsIsinAt(s, p) && r.value == p + 12
  {
    if IsIsinAt(s, p) then Some(p + 12) else None
  }

  /** `[\d,]+\.?\d*` at `p`: where the number ends. */
  function NumAt(s: string, p: nat): (r: Option<nat>)
  {
    if p > |s| then None else NumEnd(s, p)
  }

  lemma NumAdvances(s: string)
    ensures Advances(s, NumAt, MatchEnd)
  {
  }

  /** The matches of `/[\d,]+\.?\d*\/g` in `s`, in order. */
  function NumberMatches(s: string): (ms: seq<Found<nat>>)
    ensures Within(s, ms)
  {
    NumAdvances(s);
    AllMatchesSound(s, 0, NumAt, MatchEnd);
    AllMatches(s, 0, NumAt, MatchEnd)
  }

  /** `s.match(/[\d,]+\.?\d*\/g)`: the numbers of `s` as text (none for `null`). */
  function Numbers(s: string): (r: seq<string>)
    ensures |r| == |NumberMatches(s)|
  {
    Texts(s, NumberMatches(s))
  }

  /**
   * The record an ISIN line starts: the first ISIN of the cleaned line, and from the text after
   * it, trimmed, the units from its first number and the value from its last when there are at
   * least two numbers, the name being the text before the first number, trimmed; otherwise the
   * name is all of that text and units and value stay 0. Lines without an ISIN give None.
   */
  function IsinLine(line: string): (r: Option<Holding>)
    ensures r.Some? ==> IsIsinAt(r.value.isin, 0) && r.value.additionalInfo == NoInfo
  {
    match FirstMatch(line, 0, IsinAt)
    case None => None
    case Some(f) =>
      IsinSlice(line, f.pos);
      Some(RecordAfter(line[f.pos..f.pos + 12], Trim(line[f.pos + 12..])))
  }

  /** The record for an ISIN and the trimmed text after it. */
  function RecordAfter(isin: string, rest: string): (r: Holding)
    ensures r.isin == isin && r.additionalInfo == NoInfo
  {
    var ms := NumberMatches(rest);
    if |ms| >= 2 then
      var nums := Numbers(rest);
      Holding(isin, Trim(rest[..ms[0].pos]), ParseNumber(nums[0]), ParseNumber(nums[|nums| - 1]), NoInfo)
    else
      Holding(isin, rest, 0.0, 0.0, NoInfo)
  }

  lemma IsinSlice(s: string, p: nat)
    requires IsIsinAt(s, p)
    ensures IsIsinAt(s[p..p + 12], 0)
  {
    var t := s[p..p + 12];
    assert forall k | 0 <= k < 12 :: t[k] == s[p + k];
  }

  /** Text equal to an ISIN is an ISIN wherever it stands. */
  lemma IsinCopy(s: string, p: nat, j: nat)
    requires IsIsinAt(s, p)
    ensures At(s, j, s[p..p + 12]) ==> IsIsinAt(s, j)
  {
    var t := s[p..p + 12];
    if At(s, j, t) {
      var u := s[j..j + 12];
      assert u == t;
      assert s[j] == u[0] == t[0] == s[p];
      assert s[j + 1] == u[1] == t[1] == s[p + 1];
      assert s[j + 11] == u[11] == t[11] == s[p + 11];
      forall k | j + 2 <= k < j + 11 ensures IsUpperOrDigit(s[k]) {
        assert s[k] == u[k - j] && u[k - j] == t[k - j] && t[k - j] == s[p + (k - j)];
      }
    }
  }

  /**
   * `cleanLine.indexOf(isinMatch[1])` is where the match stands: an earlier copy of the ISIN
   * would itself have matched first.
   */
  lemma IsinIndex(line: string)
    requires FirstMatch(line, 0, IsinAt).Some?
    ensures var p := FirstMatch(line, 0, IsinAt).value.pos; IndexOf(line, line[p..p + 12], 0) == Some(p)
  {
    var p := FirstMatch(line, 0, IsinAt).value.pos;
    var t := line[p..p + 12];
    forall j | 0 <= j < p ensures !At(line, j, t) {
      IsinCopy(line, p, j);
      assert IsinAt(line, j).None?;
    }
    IndexOfFirst(line, t, 0, p);
  }

  /**
   * `remainingText.indexOf(numbers[0])` is where the first number stands: every character
   * before it is neither a digit nor a comma, and the number starts with one.
   */
  lemma FirstNumberIndex(s: string)
    requires |NumberMatches(s)| > 0
    ensures IndexOf(s, Numbers(s)[0], 0) == Some(NumberMatches(s)[0].pos)
  {
    NumAdvances(s);
    var f := FirstMatch(s, 0, NumAt).value;
    AllMatchesCons(s, 0, NumAt, MatchEnd, f);
    assert NumberMatches(s)[0] == f;
    assert Numbers(s)[0] == s[f.pos..f.value];
    NoNumberBefore(s, f.pos, f.value);
  }

  /** Before the leftmost number no digit or comma stands, so its text first occurs there. */
  lemma NoNumberBefore(s: string, p: nat, e: nat)
    requires NumAt(s, p) == Some(e)
    requires forall j | 0 <= j < p :: NumAt(s, j).None?
    ensures p < e <= |s| && IndexOf(s, s[p..e], 0) == Some(p)
  {
    var t := s[p..e];
    assert IsDigitOrComma(t[0]);
    forall j | 0 <= j < p ensures !At(s, j, t) {
      NoNumberNoDigit(s, j);
      if j + |t| <= |s| { assert s[j..j + |t|][0] == s[j]; }
    }
    IndexOfFirst(s, t, 0, p);
  }

  /** Where no number starts, no digit or comma stands. */
  lemma NoNumberNoDigit(s: string, j: nat)
    requires j < |s| && NumAt(s, j).None?
    ensures !IsDigitOrComma(s[j])
  {
    assert SkipWhile(s, j, IsDigitOrComma) == j;
  }

  // ---------------------------------------------------------------- the line walk

  /** The holdings pushed so far and the one being built (`currentEquity` / `currentFund`). */
  datatype LineState = LineState(done: seq<Holding>, current: Option<Holding>)

  /**
   * One line of the walk. An ISIN line pushes the record being built and starts a new one.
   * With `continueNames` (the equity reader) any other non-empty line is appended, after a
   * space, to a record whose name is still empty.
   */
  function Step(st: LineState, line: string, continueNames: bool): (r: LineState)
  {
    var clean := CleanText(line);
    match IsinLine(clean)
    case Some(h) => LineState(Pushed(st), Some(h))
    case None =>
      if continueNames && st.current.Some? && st.current.value.name == "" && clean != "" then
        LineState(st.done, Some(st.current.value.(name := st.current.value.name + " " + clean)))
      else st
  }

  /** The list with the record being built pushed onto it. */
  function Pushed(st: LineState): (r: seq<Holding>)
    ensures |r| == |st.done| + (if st.current.Some? then 1 else 0)
  {
    st.done + (if st.current.Some? then [st.current.value] else [])
  }

  /** The state after the given lines, taken in order. */
  function Walk(lines: seq<string>, continueNames: bool): LineState
  {
    if lines == [] then LineState([], None)
    else Step(Walk(lines[..|lines| - 1], continueNames), lines[|lines| - 1], continueNames)
  }

  /** What the legacy readers return for a passage. */
  function LegacyHoldings(text: string, continueNames: bool): seq<Holding>
  {
    Pushed(Walk(Split(text, '\n'), continueNames))
  }

  /** The loop has taken the first `i` lines: what it holds is the walk's state after them. */
  ghost predicate WalkedTo(lines: seq<string>, i: nat, holdings: seq<Holding>, current: Option<Holding>, continueNames: bool)
  {
    i <= |lines| && LineState(holdings, current) == Walk(lines[..i], continueNames)
  }

  lemma WalkStart(lines: seq<string>, continueNames: bool)
    ensures WalkedTo(lines, 0, [], None, continueNames)
  {
    assert lines[..0] == [];
  }

  lemma WalkNext(lines: seq<string>, i: nat, st: LineState, next: LineState, continueNames: bool)
    requires WalkedTo(lines, i, st.done, st.current, continueNames) && i < |lines|
    requires next == Step(st, lines[i], continueNames)
    ensures WalkedTo(lines, i + 1, next.done, next.current, continueNames)
  {
    TakeOneMore(lines, i);
    assert lines[..i + 1][..i] == lines[..i];
  }

  lemma WalkEnd(lines: seq<string>, i: nat, holdings: seq<Holding>, current: Option<Holding>, continueNames: bool)
    requires WalkedTo(lines, i, holdings, current, continueNames) && i == |lines|
    ensures LineState(holdings, current) == Walk(lines, continueNames)
  {
    assert lines[..i] == lines;
  }

  /** An ISIN line's record is built from the ISIN the first match finds and the text after it. */
  lemma IsinLineAt(line: string, pos: nat, isin: string, rest: string)
    requires FirstMatch(line, 0, IsinAt).Some? && pos == FirstMatch(line, 0, IsinAt).value.pos
    requires pos + 12 <= |line| && isin == line[pos..pos + 12] && rest == Trim(line[pos + 12..])
    ensures IsinLine(line) == Some(RecordAfter(isin, rest))
  {
  }

  lemma RecordWithNumbers(isin: string, rest: string)
    requires |Numbers(rest)| >= 2
    ensures NumberMatches(rest)[0].pos <= |rest|
    ensures RecordAfter(isin, rest) == Holding(isin, Trim(rest[..NumberMatches(rest)[0].pos]),
      ParseNumber(Numbers(rest)[0]), ParseNumber(Numbers(rest)[|Numbers(rest)| - 1]), NoInfo)
  {
  }

  lemma RecordWithoutNumbers(isin: string, rest: string)
    requires |Numbers(rest)| < 2
    ensures RecordAfter(isin, rest) == Holding(isin, rest, 0.0, 0.0, NoInfo)
  {
  }

  /** The ISIN branch of `Step`. */
  lemma IsinLineStep(st: LineState, line: string, clean: string, continueNames: bool, h: Holding)
    requires clean == CleanText(line) && IsinLine(clean) == Some(h)
    ensures Step(st, line, continueNames) == LineState(Pushed(st), Some(h))
  {
  }

  /** The continuation branch of `Step`. */
  lemma PlainLineStep(st: LineState, line: string, continueNames: bool)
    requires IsinLine(CleanText(line)).None?
    ensures Step(st, line, continueNames) ==
      if continueNames && st.current.Some? && st.current.value.name == "" && CleanText(line) != "" then
        LineState(st.done, Some(st.current.value.(name := st.current.value.name + " " + CleanText(line))))
      else st
  {
  }

  /**
   * The record an ISIN line starts, as the source builds it field by field: units and value
   * from the first and last numbers after the ISIN and the name before the first number when
   * there are two or more, otherwise the whole remaining text as the name.
   */
  method RecordFrom(isin: string, remainingText: string) returns (h: Holding)
    ensures h == RecordAfter(isin, remainingText)
  {
    h := Holding(isin, "", 0.0, 0.0, NoInfo);
    var numbers := Numbers(remainingText);
    if |numbers| >= 2 {
      h := h.(units := ParseNumber(numbers[0]));
      h := h.(value := ParseNumber(numbers[|numbers| - 1]));
      FirstNumberIndex(remainingText);
      var nameEnd := NumberMatches(remainingText)[0].pos;
      h := h.(name := Trim(remainingText[..nameEnd]));
      RecordWithNumbers(isin, remainingText);
    } else {
      h := h.(name := remainingText);
      RecordWithoutNumbers(isin, remainingText);
    }
  }

  /** The ISIN branch of the loop: the first ISIN, located with `indexOf`, and the text after it. */
  method StartRecord(cleanLine: string) returns (h: Holding)
    requires FirstMatch(cleanLine, 0, IsinAt).Some?
    ensures IsinLine(cleanLine) == Some(h)
  {
    var f := FirstMatch(cleanLine, 0, IsinAt).value;
    IsinIndex(cleanLine);
    var pos := f.pos;
    var isin := cleanLine[pos..pos + 12];
    var nameStart := pos + |isin|;
    assert nameStart == pos + 12;
    var remainingText := Trim(cleanLine[nameStart..]);
    h := RecordFrom(isin, remainingText);
    IsinLineAt(cleanLine, pos, isin, remainingText);
  }

  /** The walk shared by both readers, as the source writes their loops. */
  method ParseLines(text: string, continueNames: bool) returns (holdings: seq<Holding>)
    ensures holdings == LegacyHoldings(text, continueNames)
  {
    var lines := Split(text, '\n');
    holdings := [];
    var current: Option<Holding> := None;
    WalkStart(lines, continueNames);
    var i := 0;
    while i < |lines|
      invariant WalkedTo(lines, i, holdings, current, continueNames)
    {
      ghost var st := LineState(holdings, current);
      var cleanLine := CleanText(lines[i]);
      var isinMatch := FirstMatch(cleanLine, 0, IsinAt);
      if isinMatch.Some? {
        if current.Some? {
          holdings := holdings + [current.value];
        }
        var h := StartRecord(cleanLine);
        current := Some(h);
        assert holdings == Pushed(st);
        IsinLineStep(st, lines[i], cleanLine, continueNames, h);
      } else {
        PlainLineStep(st, lines[i], continueNames);
        if continueNames && current.Some? && current.value.name == "" && cleanLine != "" {
          current := Some(current.value.(name := current.value.name + " " + cleanLine));
        }
      }
      WalkNext(lines, i, st, LineState(holdings, current), continueNames);
      i := i + 1;
    }
    WalkEnd(lines, i, holdings, current, continueNames);
    if current.Some? {
      holdings := holdings + [current.value];
    }
  }

  /** `parseEquityHoldings`: names may continue on the next non-empty line. */
  method ParseEquityHoldings(text: string) returns (equities: seq<Holding>)
    ensures equities == LegacyHoldings(text, true)
  {
    equities := ParseLines(text, true);
  }

  /** `parseMutualFundHoldings`: the same walk, without name continuation. */
  method ParseMutualFundHoldings(text: string) returns (funds: seq<Holding>)
    ensures funds == LegacyHoldings(text, false)
  {
    funds := ParseLines(text, false);
  }

  // ---------------------------------------------------------------- properties of the walk

  /** The lines whose cleaned text holds an ISIN. */
  function IsinLines(lines: seq<string>): nat
  {
    if lines == [] then 0
    else IsinLines(lines[..|lines| - 1]) + (if IsinLine(CleanText(lines[|lines| - 1])).Some? then 1 else 0)
  }

  /** Every record built so far and the one being built carry an ISIN; one record per ISIN line. */
  lemma {:induction false} WalkShape(lines: seq<string>, continueNames: bool)
    ensures var st := Walk(lines, continueNames);
      |Pushed(st)| == IsinLines(lines) && st.current.Some? == (IsinLines(lines) > 0)
    ensures var st := Walk(lines, continueNames);
      forall k | 0 <= k < |Pushed(st)| :: IsIsinAt(Pushed(st)[k].isin, 0)
    decreases |lines|
  {
    if lines != [] {
      var prev := lines[..|lines| - 1];
      WalkShape(prev, continueNames);
      var st := Walk(prev, continueNames);
      var next := Walk(lines, continueNames);
      assert next == Step(st, lines[|lines| - 1], continueNames);
      if IsinLine(CleanText(lines[|lines| - 1])).None? {
        assert next.done == st.done;
        assert |Pushed(next)| == |Pushed(st)|;
        forall k | 0 <= k < |Pushed(next)| ensures IsIsinAt(Pushed(next)[k].isin, 0) {
          assert Pushed(next)[k].isin == Pushed(st)[k].isin;
        }
      }
    }
  }

  /**
   * Both readers return one holding per line holding an ISIN, each carrying the ISIN shape
   * (two capitals, nine capitals or digits, one digit), with `{}` as its extra information.
   */
  lemma LegacyHoldingsShape(text: string, continueNames: bool)
    ensures |LegacyHoldings(text, continueNames)| == IsinLines(Split(text, '\n'))
    ensures forall h | h in LegacyHoldings(text, continueNames) :: IsIsinAt(h.isin, 0)
  {
    WalkShape(Split(text, '\n'), continueNames);
  }

  /** Two records that differ at most in a name the second leaves empty. */
  predicate NameOnly(e: Holding, m: Holding)
  {
    e.(name := "") == m.(name := "") && (m.name != "" ==> e.name == m.name)
  }

  predicate StatesAgree(e: LineState, m: LineState)
  {
    && |e.done| == |m.done| && (forall k | 0 <= k < |e.done| :: NameOnly(e.done[k], m.done[k]))
    && e.current.Some? == m.current.Some?
    && (e.current.Some? ==> NameOnly(e.current.value, m.current.value))
  }

  lemma {:induction false} WalksAgree(lines: seq<string>)
    ensures StatesAgree(Walk(lines, true), Walk(lines, false))
    decreases |lines|
  {
    if lines != [] {
      var prev := lines[..|lines| - 1];
      WalksAgree(prev);
      var e, m := Walk(prev, true), Walk(prev, false);
      var line := lines[|lines| - 1];
      assert Walk(lines, true) == Step(e, line, true);
      assert Walk(lines, false) == Step(m, line, false);
      match IsinLine(CleanText(line))
      case Some(h) =>
        PushedAgree(e, m);
      case None =>
    }
  }

  lemma PushedAgree(e: LineState, m: LineState)
    requires StatesAgree(e, m)
    ensures |Pushed(e)| == |Pushed(m)| && forall k | 0 <= k < |Pushed(e)| :: NameOnly(Pushed(e)[k], Pushed(m)[k])
  {
    forall k | 0 <= k < |Pushed(e)| ensures NameOnly(Pushed(e)[k], Pushed(m)[k]) {
      if k < |e.done| {
        assert Pushed(e)[k] == e.done[k] && Pushed(m)[k] == m.done[k];
      }
    }
  }

  /**
   * The two readers find the same holdings, in the same order, with the same ISIN, units and
   * value; only a name the fund reader leaves empty may have been continued by the equity reader.
   */
  lemma EquityAndFundReadersAgree(text: string)
    ensures |LegacyHoldings(text, true)| == |LegacyHoldings(text, false)|
    ensures forall k | 0 <= k < |LegacyHoldings(text, true)| ::
      NameOnly(LegacyHoldings(text, true)[k], LegacyHoldings(text, false)[k])
  {
    var lines := Split(text, '\n');
    WalksAgree(lines);
    PushedAgree(Walk(lines, true), Walk(lines, false));
  }

  // ---------------------------------------------------------------- extractDpNameForSearch

  /** `s.split(/\s+/)`: the text between whitespace runs, with '' for a leading or trailing run. */
  function SplitWs(s: string): (r: seq<string>)
    ensures |r| >= 1
    ensures forall k | 0 <= k < |r| :: forall j | 0 <= j < |r[k]| :: !IsWs(r[k][j])
    decreases |s|
  {
    var e := SkipWhile(s, 0, c => !IsWs(c));
    if e == |s| then [s]
    else
      var rest := SplitWs(s[SkipWs(s, e)..]);
      assert forall j | 0 <= j < e :: s[..e][j] == s[j];
      [s[..e]] + rest
  }

  const SkipWords: seq<string> :=
    ["DP", "ID", "CLIENT", "LIMITED", "PRIVATE", "LTD", "SERVICES", "FINANCIAL", "TECH", "INVEST"]

  /** `/^\d+$/`. */
  predicate AllDigitsWord(w: string) { |w| > 0 && forall k | 0 <= k < |w| :: IsDigit(w[k]) }

  /** `/^[A-Z][A-Z]+$/`. */
  predicate CapsWord(w: string) { |w| >= 2 && forall k | 0 <= k < |w| :: IsUpper(w[k]) }

  /** What the first pass looks for: a long capitalised word that is not a generic one. */
  predicate CompanyWord(w: string)
  {
    |w| > 3 && ToUpper(w) !in SkipWords && !AllDigitsWord(w) && CapsWord(w)
  }

  /** What the fallback pass looks for: a word longer than four that is not a generic one. */
  predicate FallbackWord(w: string)
  {
    |w| > 4 && ToUpper(w) !in SkipWords
  }

  /** The first of the words that `p` accepts. */
  function FirstWord(words: seq<string>, p: string -> bool): (r: Option<string>)
    ensures r.Some? ==> exists i | 0 <= i < |words| ::
      (words[i] == r.value && p(words[i]) && forall j | 0 <= j < i :: !p(words[j]))
    ensures r.None? <==> forall i | 0 <= i < |words| :: !p(words[i])
  {
    if words == [] then None
    else if p(words[0]) then Some(words[0])
    else
      var r := FirstWord(words[1..], p);
      FirstWordLater(words, p, r);
      r
  }

  /** What holds of the words after a rejected first word holds of all of them. */
  lemma FirstWordLater(words: seq<string>, p: string -> bool, r: Option<string>)
    requires words != [] && !p(words[0])
    requires r.Some? ==> exists i | 0 <= i < |words[1..]| ::
      (words[1..][i] == r.value && p(words[1..][i]) && forall j | 0 <= j < i :: !p(words[1..][j]))
    requires r.None? <==> forall i | 0 <= i < |words[1..]| :: !p(words[1..][i])
    ensures r.Some? ==> exists i | 0 <= i < |words| ::
      (words[i] == r.value && p(words[i]) && forall j | 0 <= j < i :: !p(words[j]))
    ensures r.None? <==> forall i | 0 <= i < |words| :: !p(words[i])
  {
    if r.Some? {
      var i :| 0 <= i < |words[1..]| &&
        (words[1..][i] == r.value && p(words[1..][i]) && forall j | 0 <= j < i :: !p(words[1..][j]));
      assert words[i + 1] == r.value;
      forall j | 0 <= j < i + 1 ensures !p(words[j]) { if j > 0 { assert words[j] == words[1..][j - 1]; } }
    } else {
      forall i | 0 <= i < |words| ensures !p(words[i]) { if i > 0 { assert words[i] == words[1..][i - 1]; } }
    }
  }

  /** The words of a DP name, in order, as the search reads them. */
  function DpWords(dpName: string): seq<string> { SplitWs(Trim(dpName)) }

  /**
   * `extractDpNameForSearch`: null for an empty name; otherwise the first word of the trimmed
   * name that is a company word, else the first that is a fallback word, else null.
   */
  function DpNameForSearch(dpName: string): (r: Option<string>)
  {
    if dpName == "" then None
    else
      match FirstWord(DpWords(dpName), CompanyWord)
      case Some(w) => Some(w)
      case None => FirstWord(DpWords(dpName), FallbackWord)
  }

  /** The two passes over the words, as the source writes them. */
  method ExtractDpNameForSearch(dpName: string) returns (r: Option<string>)
    ensures r == DpNameForSearch(dpName)
  {
    if dpName == "" {
      return None;
    }
    var words := SplitWs(Trim(dpName));
    var i := 0;
    while i < |words|
      invariant i <= |words|
      invariant FirstWord(words, CompanyWord) == FirstWord(words[i..], CompanyWord)
    {
      var word := words[i];
      if |word| > 3 && ToUpper(word) !in SkipWords && !AllDigitsWord(word) && CapsWord(word) {
        return Some(word);
      }
      assert words[i..][1..] == words[i + 1..];
      i := i + 1;
    }
    i := 0;
    while i < |words|
      invariant i <= |words|
      invariant FirstWord(words, FallbackWord) == FirstWord(words[i..], FallbackWord)
    {
      var word := words[i];
      if |word| > 4 && ToUpper(word) !in SkipWords {
        return Some(word);
      }
      assert words[i..][1..] == words[i + 1..];
      i := i + 1;
    }
    return None;
  }

  /**
   * The word found is one of the name's words and never a generic one; it is a capitalised
   * company word whenever the name has one, and the search fails only for an empty name or
   * when no word is long enough and non-generic.
   */
  lemma DpNameForSearchChoice(dpName: string)
    ensures var r := DpNameForSearch(dpName);
      r.Some? ==> r.value in DpWords(dpName) && ToUpper(r.value) !in SkipWords && |r.value| > 3
    ensures var r := DpNameForSearch(dpName);
      dpName != "" && (exists w | w in DpWords(dpName) :: CompanyWord(w)) ==> r.Some? && CompanyWord(r.value)
    ensures DpNameForSearch(dpName).None? <==>
      dpName == "" || forall w | w in DpWords(dpName) :: !CompanyWord(w) && !FallbackWord(w)
  {
  }
}
