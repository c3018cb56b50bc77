# CDSL consolidated account statement extraction, in Dafny

A model of the text-to-record core of a consolidated account statement (CAS) parser. The
parser reads statements from CDSL, India's Central Depository Services. It starts from
the text already extracted from the PDF and ends with the formatted JSON-shaped record. Five
things are modelled:

- **Entry point** (`CasParser`). Blank text is rejected. The issuer is detected by
  first-match fingerprints. Only CDSL has a parser; the result is the CDSL parser's record,
  formatted.
- **Base-parser normalisers** (`BaseParser`). `cleanText` trims and collapses whitespace.
  `parseNumber` strips everything but `[0-9.-]` and takes the decimal prefix that `parseFloat`
  reads, with 0 as the default. `parseDate` rewrites `DD-MMM-YYYY` and `DD/MM/YYYY` as
  `YYYY-MM-DD`. `extractBetween` (with its two patterns as anchored matchers, as the `match` calls
  use them), the issuer classifier, the metadata record and the summary
  totals are also here.
- **CDSL extraction.**
  - `CdslSections` splits the text into demat-account definition sections and applies the
    validity gates.
  - `CdslFields` and `CdslAccounts` read the header fields of each section and assign BO
    (beneficial owner) ids by position, with the DP-id-plus-client-id fallback.
  - `CdslHoldings` cuts out each account's transaction passage between `BO ID` markers, reads
    its holding rows and files each row under a category.
  - `CdslFunds` builds the non-demat mutual-fund folio and infers scheme types.
  - `CdslInvestor` reads the investor's PAN, e-mail, mobile, CAS id, pincode, name, address and
    statement period.
  - `CdslParser` holds the account loop and the `CdslParser` class, which carries the
    `pdfText` and `casType` fields its methods read.
- **Legacy line readers** (`CdslLegacy`). `parseEquityHoldings` and `parseMutualFundHoldings`
  carry the record being built from one ISIN line to the next. `extractDpNameForSearch` picks
  the word of a DP name that most likely names the broker.
- **Formatter** (`JsonFormatter`). Schema defaults fill missing fields, `pan` is upper-cased,
  `email` lower-cased, the other investor strings trimmed, and every amount rounded to
  hundredths with `Math.round` semantics.

Each regular expression the core uses is a hand-written scanner over the token shapes it
accepts:

- `String.match` is the leftmost position where the scanner succeeds (`Scan.FirstMatch`).
- A `g`-flag `exec` loop is the sequence of matches, each one resuming where the previous
  match ended (`Scan.AllMatches`).
- Greedy and lazy quantifiers, alternation order and the `i` flag are followed as JavaScript
  resolves them.

Text is `seq<char>`, with whitespace being JavaScript's `\s` set and case mapping ASCII only.
Amounts are `real`, and a missing JavaScript value is its falsy stand-in (`""`, `0`, `[]`,
`None` for `null`). The `while` loops of the source are methods proved equal to the
specification functions, and the properties are lemmas about those functions.

Where the code departs from what its names and comments suggest, the model follows the code:
- **Fallback BO id.** It is built only when both the DP id and the client id are non-empty;
  otherwise it is `''`.
- **Amounts can be negative.** `parseNumber` keeps `-`.
- **Summary grand total.** The formatter rounds each summary total on its own and does not
  recompute the grand total from the rounded class totals, so the printed totals need not add
  up.
- **Unformatted fields.** Counts, `aifs` and the insurance policies pass through the formatter
  unrounded.

## Model

| member | source | states |
|---|---|---|
| `Text.Trim` | src/parsers/base-parser.js:159 | `trim()`: the result is empty or starts and ends with a non-whitespace character |
| `Text.TrimEmptyIffBlank` | src/index.js:38 | `text.trim().length === 0` holds exactly when every character is whitespace |
| `Text.ContainsIff` | src/parsers/base-parser.js:40 | `includes` holds exactly when the needle occurs at some index |
| `Text.IndexOf` | src/parsers/cdsl-parser.js:326-333 | `indexOf(t, from)`: the result is an occurrence at or after `from` with none between; no result means no occurrence at or after `from` |
| `Text.IndexOfFirst` | src/parsers/cdsl-parser.js:326 | an occurrence with none before it is what `indexOf` returns |
| `Text.SplitFirst` | src/parsers/cdsl-parser.js:445 | `split('\n')` cuts at the first separator: `a + sep + b` gives `[a]` followed by the parts of `b` |
| `Text.SplitNoSep` | src/parsers/cdsl-parser.js:445 | a string without the separator splits into itself alone |
| `Scan.FirstMatch` | src/parsers/cdsl-parser.js:33-34 | `String.match`: the scanner succeeds at the reported position and at no earlier one; no result means it succeeds nowhere |
| `Scan.Search` | src/parsers/cdsl-parser.js:583 | `search`: there is a result exactly when the pattern matches somewhere |
| `Scan.AllMatchesSound` | src/parsers/cdsl-parser.js:159 | the `g`-flag `exec` loop: every match is genuine and starts at or after the previous match's end, no match is skipped between two, and none follows the last |
| `Scan.AllMatchesOrdered` | src/parsers/cdsl-parser.js:159 | the matches of an `exec` loop come in document order and never overlap |
| `Scan.AllMatchesDisjoint` | src/parsers/cdsl-parser.js:159 | consecutive `exec` matches do not overlap |
| `Scan.AllMatchesCons` | src/parsers/cdsl-parser.js:159 | the loop's first match is the leftmost one, and the rest resume at its end |
| `Scan.FirstWhere` | src/parsers/cdsl-parser.js:156 | a lazy `[^]*?` before a lookahead stops at the first position where the lookahead holds |
| `Scan.RunAfterColon` | src/parsers/cdsl-parser.js:211 | the capture `(\d+)` or `([A-Z0-9]+)` after `\s*:?\s*` is non-empty and made of the class |
| `Scan.AfterColonAt` | src/parsers/cdsl-parser.js:211 | `\s*:?\s*` ends at the first character that is neither blank nor the one optional colon |
| `Scan.WordChain` | src/parsers/cdsl-parser.js:589 | `[A-Z][a-z]+(?:\s+[A-Z][a-z]+)*` before a required suffix: a letter-and-blank run that starts and ends with a letter and is followed by the suffix |
| `Scan.LineFrom` | src/parsers/cdsl-parser.js:203 | the greedy `[^\n]+` holds no newline |
| `Scan.LineCaptureValue` | src/parsers/cdsl-parser.js:203 | after the label, blanks and an optional colon, the capture is the rest of the line from the first non-blank character |
| `Records.HoldingsSumAppend` | src/parsers/cdsl-parser.js:785-789 | the value sum of two lists put together is the sum of their sums |
| `Records.AccountsSumAppend` | src/parsers/base-parser.js:132-134 | the demat total of two account lists put together is the sum of their totals |
| `BaseParser.TagInjective` | src/parsers/base-parser.js:39-50 | different issuers have different tags |
| `BaseParser.DetectCasTypeFirstMatch` | src/parsers/base-parser.js:39-50 | the detected issuer's fingerprint is present and no higher-priority fingerprint is (CDSL needs both names, NSDL only 'NSDL') |
| `BaseParser.DetectCasTypeUnknown` | src/parsers/base-parser.js:39-50 | UNKNOWN exactly when no issuer's fingerprint is present |
| `BaseParser.CollapseShape` | src/parsers/base-parser.js:159 | `replace(/\s+/g, ' ')` leaves only single spaces, keeps whether each end is blank, is empty only for empty input and keeps every non-whitespace character in order |
| `BaseParser.CollapseSingleSpaced` | src/parsers/base-parser.js:159 | the replacement changes nothing in single-spaced text |
| `BaseParser.TrimClean` | src/parsers/base-parser.js:159 | trimming text that already starts and ends with non-whitespace changes nothing |
| `BaseParser.TrimKeepsNonWs` | src/parsers/base-parser.js:159 | trimming removes only whitespace |
| `BaseParser.CleanTextNormal` | src/parsers/base-parser.js:158-160 | `cleanText` output has no leading or trailing whitespace and only single spaces between words, and keeps every non-whitespace character in order |
| `BaseParser.CleanTextFixpoint` | src/parsers/base-parser.js:158-160 | clean text is its own `cleanText` |
| `BaseParser.CleanTextIdempotent` | src/parsers/base-parser.js:158-160 | `cleanText` applied twice equals once |
| `BaseParser.KeepNumeric` | src/parsers/base-parser.js:208 | `replace(/[^0-9.-]/g, '')` keeps only digits, `.` and `-` |
| `BaseParser.KeepNumericAppend` | src/parsers/base-parser.js:208 | the replacement works character by character, so it distributes over concatenation |
| `BaseParser.KeepNumericKeepsNumeric` | src/parsers/base-parser.js:208 | the replacement changes nothing in text made of digits, `.` and `-` |
| `BaseParser.ParseNumberReduced` | src/parsers/base-parser.js:206-210 | `parseNumber` depends only on the digits, points and minus signs of its input |
| `BaseParser.ParseNumberIgnoresComma` | src/parsers/base-parser.js:208 | a thousands comma makes no difference to the number read |
| `BaseParser.EmptyNumeralIsNaN` | src/parsers/base-parser.js:209 | `parseFloat('')` reads no number, so `parseNumber` falls back to 0 |
| `BaseParser.ParseNumberNoDigits` | src/parsers/base-parser.js:207-209 | text without a digit (the empty string included) reads as 0 |
| `BaseParser.ParseNumberNatDigits` | src/parsers/base-parser.js:209 | the decimal numeral of `n` reads as `n` |
| `BaseParser.ParseDecimalPointed` | src/parsers/base-parser.js:209 | `q.f` with digit strings `q` and `f` reads as `q` plus the fraction `0.f` |
| `BaseParser.ParseDecimalUnsigned` | src/parsers/base-parser.js:209 | `parseFloat` reads the leading digits, the point and the digits after it, and stops there |
| `BaseParser.ParseNumberHundredths` | src/parsers/base-parser.js:209 | an amount printed with two decimals reads back as itself |
| `BaseParser.ParseNumberExample` | src/parsers/base-parser.js:206-210 | '1,671.25' reads as 1671.25 |
| `BaseParser.FindDashDate` | src/parsers/base-parser.js:183 | `/\d{2}-[A-Z]{3}-\d{4}/i.test` finds such a token at the reported index or later, and no result means there is none from `from` on |
| `BaseParser.FindSlashDate` | src/parsers/base-parser.js:195 | the same for `\d{2}\/\d{2}\/\d{4}` |
| `BaseParser.ParseDate` | src/parsers/base-parser.js:181-201 | input that holds neither date shape comes back unchanged |
| `BaseParser.ParseDateDash` | src/parsers/base-parser.js:183-191 | `DD-MMM-YYYY`, whatever the case of the month abbreviation, becomes `YYYY-MM-DD` with the month's number |
| `BaseParser.DashDateParts` | src/parsers/base-parser.js:189 | such a date matches at 0 and splits on `-` into day, month and year |
| `BaseParser.ParseDateSlash` | src/parsers/base-parser.js:195-197 | `DD/MM/YYYY` becomes `YYYY-MM-DD` |
| `BaseParser.ExtractBetweenNoStart` | src/parsers/base-parser.js:166-167 | when the start pattern matches nowhere in the text the result is '' |
| `BaseParser.ExtractBetweenLayout` | src/parsers/base-parser.js:166-175 | for any start and end patterns: when the leftmost start match ends at e and the leftmost end match in the text after e starts j characters on, the result is the trimmed text between e and e + j |
| `BaseParser.FirstMatchIs` | src/parsers/base-parser.js:166 | a match at i with none before it is the match `String.match` reports |
| `BaseParser.Literal` | src/parsers/base-parser.js:166 | a literal marker as a pattern matches exactly where the text contains it |
| `BaseParser.ExtractBetweenLiteral` | src/parsers/base-parser.js:166-175 | with literal markers, the result is the trimmed text between the first start marker and the first end marker after it |
| `BaseParser.ExtractBetweenNoEnd` | src/parsers/base-parser.js:166-173 | for any patterns: when the leftmost start match ends at e and the end pattern matches nowhere after e, the result is the trimmed rest of the text from e |
| `BaseParser.ExtractInsurance` | src/parsers/base-parser.js:79-83 | the policy list is always empty |
| `BaseParser.GeneratedAt` | src/parsers/base-parser.js:91 | `toISOString().split('.')[0]` is the prefix of the clock reading before its first '.' |
| `BaseParser.ExtractMetadata` | src/parsers/base-parser.js:88-96 | the metadata carries the detected tag, the timestamp prefix and the statement period |
| `BaseParser.SummaryOf` | src/parsers/base-parser.js:112-153 | each count is its list's length, and the grand total is the sum of the three class totals |
| `BaseParser.CalculateSummary` | src/parsers/base-parser.js:112-153 | the `forEach` accumulation loops compute `SummaryOf` of the extracted lists |
| `BaseParser.SummaryInsuranceEmpty` | src/parsers/base-parser.js:123-144 | with no policies the insurance count and total are 0, and the grand total is demat plus mutual funds |
| `BaseParser.SummaryDematAdditive` | src/parsers/base-parser.js:132-134 | the demat total adds up over a split account list |
| `CasParser.DetectCasTypeFirstMatch` | src/index.js:76-87 | the entry point's detected issuer has its fingerprint, and no higher-priority fingerprint is present |
| `CasParser.DetectCasTypeUnknown` | src/index.js:76-87 | UNKNOWN exactly when no fingerprint is present |
| `CasParser.DetectionsDiffer` | src/index.js:79 | the two detectors agree except when 'NSDL' appears without 'National Securities Depository'; they agree on CDSL in both directions |
| `CasParser.Parse` | src/index.js:38-63 | blank text fails with the extraction error; an issuer other than CDSL fails with "Parser not implemented for CAS type: " and its tag; success happens exactly for non-blank CDSL text, and then the result is the formatted CDSL record |
| `CasParser.ParseSuccessIsCdsl` | src/index.js:55-63 | a successful parse reports CDSL and is already in the formatter's normal form |
| `CdslFields.DigitsAfter` | src/parsers/cdsl-parser.js:211 | the `(\d+)` capture after a label is a non-empty digit run |
| `CdslFields.DigitsAfterValue` | src/parsers/cdsl-parser.js:211 | after the label, blanks and an optional colon, the capture is the whole digit run that starts there |
| `CdslFields.EmailIdAt` | src/parsers/cdsl-parser.js:227 | `Email\s+Id\s*:?\s*([^\s]+@[^\s]+)` captures a token with no whitespace and an '@' that is neither first nor last |
| `CdslFields.LowerEmail` | src/parsers/cdsl-parser.js:229 | the lower-cased e-mail keeps that shape and has no capitals |
| `CdslFields.BoIdAt` | src/parsers/cdsl-parser.js:267 | `BO\s+ID\s*:?\s*(\d+)` matches exactly where the digits-after-label scanner does and captures the same digits, and the match ends after its start |
| `CdslSections.DpNameLabelAt` | src/parsers/cdsl-parser.js:156 | `DP\s+Name\s*:` ends just after a colon |
| `CdslSections.DpAnchorAt` | src/parsers/cdsl-parser.js:156 | the capture `([A-Z]...` opens with a letter after the label |
| `CdslSections.LazyStop` | src/parsers/cdsl-parser.js:156 | the section ends at the first place where `DP Name:`, `MF Folios`, `Mutual Fund` or the end follows |
| `CdslSections.DpSectionAt` | src/parsers/cdsl-parser.js:156 | a section matches exactly at an anchor and ends at the first stop after the capture's first letter |
| `CdslSections.KeptSpans` | src/parsers/cdsl-parser.js:176-177 | the kept sections are among the candidates, and there are no more of them |
| `CdslSections.KeptSpansGate` | src/parsers/cdsl-parser.js:163-177 | every kept section passes the gate |
| `CdslSections.KeptTextsSnoc` | src/parsers/cdsl-parser.js:176-177 | one more candidate adds its text at the end exactly when it passes the gate |
| `CdslSections.KeptSpansOrdered` | src/parsers/cdsl-parser.js:159-177 | filtering keeps the candidates' document order |
| `CdslSections.SectionMatchesOrdered` | src/parsers/cdsl-parser.js:156-159 | candidate sections are non-empty, in document order and non-overlapping |
| `CdslSections.AccountSectionsValid` | src/parsers/cdsl-parser.js:149-177 | every section contains 'DP ID', 'CLIENT ID', 'Email Id' and 'BO Sub Status', none of the three transaction markers, and trims to more than 200 characters; blank text gives no section |
| `CdslSections.AccountSectionsLayout` | src/parsers/cdsl-parser.js:156-177 | the sections are the texts of ordered, non-overlapping spans, each starting at a `DP Name:` anchor and ending at the first stop after it |
| `CdslAccounts.SectionDetails` | src/parsers/cdsl-parser.js:195-253 | only the DP name, DP id, client id, e-mail, BO sub-status and nominee change; an empty section changes nothing |
| `CdslAccounts.SectionDetailsIdempotent` | src/parsers/cdsl-parser.js:195-240 | reading the header a second time changes nothing |
| `CdslAccounts.SectionDetailsIds` | src/parsers/cdsl-parser.js:211-224 | a found DP id or client id is a non-empty digit run; one not found keeps its previous value |
| `CdslAccounts.SectionDetailsClean` | src/parsers/cdsl-parser.js:203-240 | a found DP name, BO sub-status or nominee is clean text |
| `CdslAccounts.SectionDetailsEmail` | src/parsers/cdsl-parser.js:227-230 | a found account e-mail has an inner '@' and no capitals |
| `CdslAccounts.SectionDpName` | src/parsers/cdsl-parser.js:203-205 | at a `DP Name:` anchor the DP name is the cleaned rest of that line |
| `CdslAccounts.FirstOccurrencesElems` | src/parsers/cdsl-parser.js:270-275 | deduplication keeps exactly the values that occur |
| `CdslAccounts.DedupeIsFirstOccurrences` | src/parsers/cdsl-parser.js:270-275 | the `includes`-then-`push` loop keeps each value at its first occurrence |
| `CdslAccounts.FirstOccurrencesNoDuplicates` | src/parsers/cdsl-parser.js:272-274 | the kept list has no duplicates |
| `CdslAccounts.FirstOccurrencesInOrder` | src/parsers/cdsl-parser.js:266-275 | the kept values come in the order of their first occurrences |
| `CdslAccounts.AllBoIdsFound` | src/parsers/cdsl-parser.js:267-271 | every listed BO id is what a `BO ID` match captures somewhere in the statement |
| `CdslAccounts.AllBoIdsProps` | src/parsers/cdsl-parser.js:266-275 | the BO id list is duplicate-free, in first-seen order, and is the first occurrences of all the ids matched |
| `CdslAccounts.BoIdForDistinct` | src/parsers/cdsl-parser.js:280-284 | accounts at different indices within the list receive different BO ids |
| `CdslAccounts.BoIdForCases` | src/parsers/cdsl-parser.js:258-299 | with a section, the account at index i takes the i-th `BO ID` number found in the text; past the end of that list it takes DP id followed by client id when both are present; the id stays empty exactly when there is no section or neither source applies |
| `CdslHoldings.NumEnd` | src/parsers/cdsl-parser.js:390 | `[\d,]+\.?\d*` covers digits, commas and one point and is not followed by a digit |
| `CdslHoldings.RowAt` | src/parsers/cdsl-parser.js:390 | a holding row starts with an ISIN (2 capitals, 9 capitals or digits, 1 digit) and has a non-empty name |
| `CdslHoldings.RowAtName` | src/parsers/cdsl-parser.js:390 | the lazy name runs from the first non-blank after the ISIN to the first place where the number columns match |
| `CdslHoldings.RowTailColumns` | src/parsers/cdsl-parser.js:390-410 | on a tail ` N1 -- -- -- N2 N3 N4` with single spaces, the columns are, in order, the current balance before the dashes, then free balance, market price and value, and the match ends after `N4` |
| `CdslHoldings.HoldingOfRow` | src/parsers/cdsl-parser.js:394-410 | the holding keeps the ISIN, cleans the name and carries market price and free balance |
| `CdslHoldings.RowHoldings` | src/parsers/cdsl-parser.js:393-411 | one holding per row, in row order |
| `CdslHoldings.SelectSplits` | src/parsers/cdsl-parser.js:412-419 | every holding goes to exactly one of the two categories |
| `CdslHoldings.FileAllFunds` | src/parsers/cdsl-parser.js:415-416 | demat mutual funds are the fund holdings, in row order |
| `CdslHoldings.FileAllEquities` | src/parsers/cdsl-parser.js:413-418 | equities are all the other holdings, in row order |
| `CdslHoldings.FileAllOthers` | src/parsers/cdsl-parser.js:380-386 | bonds, government securities and AIFs stay empty |
| `CdslHoldings.SectionHoldingsCategories` | src/parsers/cdsl-parser.js:379-427 | the section's holdings are split between equities and demat funds by the INE/equity/shares-then-INF/etf/fund rule, one per row; the other categories are empty |
| `CdslHoldings.TableRowsGenuine` | src/parsers/cdsl-parser.js:390-393 | every row found is a match of the row pattern at an ISIN |
| `CdslHoldings.TableRowsOrdered` | src/parsers/cdsl-parser.js:393 | rows are found in document order without overlap |
| `CdslHoldings.TableRowHolding` | src/parsers/cdsl-parser.js:394-395 | the k-th holding carries the ISIN at the k-th row's position and a clean name |
| `CdslHoldings.MarkerStart` | src/parsers/cdsl-parser.js:323-329 | the `BO ID: id` / `BO ID : id` marker lies inside the text |
| `CdslHoldings.TransactionSpanShape` | src/parsers/cdsl-parser.js:323-336 | the passage starts at the first `BO ID: id`, or at the first `BO ID : id` when the former is absent, and ends at the next `BO ID` from 10 characters on, or at the end |
| `CdslHoldings.TransactionPassageFrom` | src/parsers/cdsl-parser.js:331-336 | the passage is the substring from the marker to the next `BO ID` or the end |
| `CdslHoldings.AccountHoldingsCases` | src/parsers/cdsl-parser.js:305-364 | all categories are empty for an empty BO id, a missing marker, 'Nil Holding', or a passage lacking 'HOLDING STATEMENT' or 'Portfolio Value'; otherwise they are the passage's parsed holdings |
| `CdslFunds.SchemeType` | src/parsers/cdsl-parser.js:662-673 | the scheme type is 'debt', 'hybrid' or 'equity' |
| `CdslFunds.SchemeTypeRules` | src/parsers/cdsl-parser.js:662-673 | 'debt' exactly when debt/bond/liquid/money occurs; 'hybrid' exactly when hybrid/balanced occurs and no debt word does; 'equity' otherwise |
| `CdslFunds.EmptyHasNoWord` | src/parsers/cdsl-parser.js:663 | the empty string contains no non-empty keyword |
| `CdslFunds.SchemeTypeIgnoresCase` | src/parsers/cdsl-parser.js:665 | the type does not depend on the name's case |
| `CdslFunds.AmcAt` | src/parsers/cdsl-parser.js:589 | the AMC name is a letter-and-blank run that starts and ends with a letter |
| `CdslFunds.FolioNoAt` | src/parsers/cdsl-parser.js:600 | the folio number is a non-empty run of digits and slashes |
| `CdslFunds.RtaAt` | src/parsers/cdsl-parser.js:606 | the registrar is a non-empty run of letters |
| `CdslFunds.SchemeOf` | src/parsers/cdsl-parser.js:615-640 | the scheme has a clean name, copies ISIN and NAV unparsed, takes its type from the name, reads units, investment and current values, and has a null ARN |
| `CdslFunds.MutualFunds` | src/parsers/cdsl-parser.js:573-657 | at most one folio, present exactly when the `MUTUAL FUND UNITS HELD` passage has an AMC name and a scheme row; its one scheme's value is the folio value, and the table's folio fills in only for a missing folio number |
| `CdslFunds.FolioNumberKept` | src/parsers/cdsl-parser.js:624-627 | a folio number found by its own pattern is non-empty, so the table's folio never overrides it |
| `CdslInvestor.LabelledPanAt` | src/parsers/cdsl-parser.js:33 | `PAN\s*:?\s*([A-Z]{5}[0-9]{4}[A-Z])` (flag `i`) captures 10 characters of the PAN shape in either case |
| `CdslInvestor.BarePanAt` | src/parsers/cdsl-parser.js:34 | the unlabelled pattern captures an upper-case PAN |
| `CdslInvestor.PanIgnoringCase` | src/parsers/cdsl-parser.js:33-34 | an upper-case PAN also has the case-insensitive shape |
| `CdslInvestor.Pan` | src/parsers/cdsl-parser.js:33-37 | the PAN is '' or 10 characters of the PAN shape |
| `CdslInvestor.BareEmailAt` | src/parsers/cdsl-parser.js:56 | the unlabelled e-mail pattern captures a whitespace-free token with an inner '@' |
| `CdslInvestor.RemoveWs` | src/parsers/cdsl-parser.js:58 | `replace(/\s/g, '')` leaves no whitespace |
| `CdslInvestor.InvestorEmailShape` | src/parsers/cdsl-parser.js:55-59 | the e-mail has no whitespace and no capitals, and is '' exactly when neither pattern matches |
| `CdslInvestor.MobileAt` | src/parsers/cdsl-parser.js:62 | `([X0-9]{10,})` (flag `i`) captures at least 10 digits or X's |
| `CdslInvestor.Mobile` | src/parsers/cdsl-parser.js:62-65 | a kept mobile number has at least 10 characters and contains no 'X' |
| `CdslInvestor.CasIdAt` | src/parsers/cdsl-parser.js:68 | the CAS id is a non-empty alphanumeric run |
| `CdslInvestor.SixDigitsAt` | src/parsers/cdsl-parser.js:47 | the pincode is six digits |
| `CdslInvestor.NameBefore` | src/parsers/cdsl-parser.js:25-26 | `([A-Z][a-z]+(?:\s+[a-z]+)*)` (flag `i`) before `S O`/`D O`/`W O` or before `PAN :` captures at least two characters of letters and blanks that start and end with a letter |
| `CdslInvestor.SingleNameAt` | src/parsers/cdsl-parser.js:27 | the name after `single name of` and before `(` is non-empty letters and blanks |
| `CdslInvestor.DematHolderAt` | src/parsers/cdsl-parser.js:27 | the name the lazy `Your Demat Account ... single name of` pattern captures is non-empty letters and blanks |
| `CdslInvestor.NameCapture` | src/parsers/cdsl-parser.js:25-27 | the first of the three name patterns to match gives letters and blanks |
| `CdslInvestor.LastStop` | src/parsers/cdsl-parser.js:40 | the stop word it finds is the last one at or before the bound, and there is none when it finds none |
| `CdslInvestor.StopFromFirstMatch` | src/parsers/cdsl-parser.js:40 | a stop word lies at or after i exactly when the lazy search from i finds one |
| `CdslInvestor.LastAddressStart` | src/parsers/cdsl-parser.js:40 | what it finds in the range is a letter after a blank with a stop word after it |
| `CdslInvestor.LastAddressStartLargest` | src/parsers/cdsl-parser.js:40 | no possible capture start lies past the one found, which is the greedy `[A-Z\s]+` giving back the fewest characters |
| `CdslInvestor.LastAddressStartNone` | src/parsers/cdsl-parser.js:40 | when nothing is found, no possible capture start lies in the range |
| `CdslInvestor.AddressStart` | src/parsers/cdsl-parser.js:40 | a capture start exists only with a blank right after the `O`; it lies at least three characters on, within the letters-and-blanks run |
| `CdslInvestor.AddressFrom` | src/parsers/cdsl-parser.js:40 | the capture is non-empty, opens with a letter, and needs a blank right after the `O` |
| `CdslInvestor.AddressStartShape` | src/parsers/cdsl-parser.js:40 | the start found and the first stop word after it have the pattern's shape: blank after `O`, letters and blanks, a blank, a letter, the nearest stop word |
| `CdslInvestor.AddressShapeFound` | src/parsers/cdsl-parser.js:40 | whenever the text after `O` has that shape somewhere, a capture start is found |
| `CdslInvestor.AddressFromMatches` | src/parsers/cdsl-parser.js:40 | both directions: a capture is found exactly when the shape exists, and the capture found is such a shape's text |
| `CdslInvestor.AddressAt` | src/parsers/cdsl-parser.js:40 | the capture is non-empty, opens with a letter, and is found only after `S O` followed by a blank |
| `CdslInvestor.AddressAtMatches` | src/parsers/cdsl-parser.js:40 | the pattern matches at p exactly when `S O` matches there and the address shape follows, and the capture is that shape's text |
| `CdslInvestor.AddressNeedsBlankAfterO` | src/parsers/cdsl-parser.js:40 | `S OAB CD PINCODE` has no address: a letter straight after `O` fails `O\s+` |
| `CdslInvestor.InvestorInfo` | src/parsers/cdsl-parser.js:12-78 | each investor field is its pattern's capture or ''; name and address are cleaned (the address from the leftmost genuine `S O` match, as `AddressAtMatches` states it), and the pincode is the first six-digit run of the cleaned address |
| `CdslInvestor.RecleanIsIdentity` | src/parsers/cdsl-parser.js:42-44 | collapsing and trimming the cleaned address again changes nothing |
| `CdslInvestor.PeriodAt` | src/parsers/cdsl-parser.js:727 | the `Period ... to ...` pattern captures two `DD-MMM-YYYY` tokens |
| `CdslInvestor.FromToAt` | src/parsers/cdsl-parser.js:728 | the `From ... To ...` pattern captures two `DD-MMM-YYYY` tokens |
| `CdslInvestor.PeriodDates` | src/parsers/cdsl-parser.js:727-728 | the first pattern wins; there is no period exactly when neither matches |
| `CdslInvestor.StatementPeriodIso` | src/parsers/cdsl-parser.js:719-739 | no period gives '' for both dates; otherwise a date with a known month becomes `YYYY-MM-DD` |
| `CdslInvestor.DateToken` | src/parsers/cdsl-parser.js:731-732 | `parseDate` of a captured token with a known month is its ISO form |
| `CdslParser.DematAccounts` | src/parsers/cdsl-parser.js:83-138 | one account per section |
| `CdslParser.DematAccountsAt` | src/parsers/cdsl-parser.js:90-131 | the i-th account is the one built from the i-th section at index i |
| `CdslParser.DematAccountsShape` | src/parsers/cdsl-parser.js:94-131 | every account has type 'cdsl', status 'Active', bsda 'NO', a null BO type and empty bonds, government securities and AIFs; its value is its holdings' total, and its BO id is the i-th listed one when there is one |
| `CdslParser.DematAccountsDistinctIds` | src/parsers/cdsl-parser.js:122 | two accounts within the BO id list have different BO ids |
| `CdslParser.GroupsSumFive` | src/parsers/cdsl-parser.js:785-789 | summing over the five categories of `Object.values` is the holdings total |
| `CdslParser.AccountAssembled` | src/parsers/cdsl-parser.js:118-128 | header details, then BO id, then holdings, then value give the specified account |
| `CdslParser.CdslParseSummary` | src/parsers/base-parser.js:12-32 | the summary is computed from the extracted lists: counts are lengths, totals their sums, insurance 0; there is one account per section, at most one folio and the detected tag |
| `CdslParser.CdslParser.constructor` | src/parsers/cdsl-parser.js:4-7 | a fresh parser has empty text and type 'CDSL' |
| `CdslParser.CdslParser.SplitIntoAccountSections` | src/parsers/cdsl-parser.js:145-190 | the `exec` loop with its gates returns the account sections of the text |
| `CdslParser.CdslParser.FindBoIdForAccount` | src/parsers/cdsl-parser.js:258-299 | the collecting loop and the index or fallback choice return the specified BO id |
| `CdslParser.CdslParser.ParseHoldingsFromSection` | src/parsers/cdsl-parser.js:379-427 | the row loop files the section's holdings as specified |
| `CdslParser.CdslParser.ExtractHoldingsForAccount` | src/parsers/cdsl-parser.js:304-374 | the gated passage search returns the account's specified holdings |
| `CdslParser.CdslParser.CalculateAccountValue` | src/parsers/cdsl-parser.js:782-792 | the nested accumulation returns the sum of the values of all five categories |
| `CdslParser.CdslParser.ExtractDematAccounts` | src/parsers/cdsl-parser.js:83-138 | the account loop returns one specified account per section, in order |
| `CdslParser.CdslParser.Parse` | src/parsers/base-parser.js:12-32 | sets the text and detected type, and returns the record of investor, accounts, folios, insurance, metadata and summary |
| `JsonFormatter.Round` | src/utils/json-formatter.js:203 | `Math.round` gives the integer within one half, halves rounded up |
| `JsonFormatter.RoundInteger` | src/utils/json-formatter.js:203 | rounding leaves integers alone |
| `JsonFormatter.FormatNumber` | src/utils/json-formatter.js:201-204 | the result is a whole number of hundredths within half a hundredth of the input |
| `JsonFormatter.FormatNumberOfHundredths` | src/utils/json-formatter.js:201-204 | a whole number of hundredths is left unchanged |
| `JsonFormatter.FormatNumberIdempotent` | src/utils/json-formatter.js:201-204 | formatting twice equals formatting once |
| `JsonFormatter.FormatNumberZero` | src/utils/json-formatter.js:202 | a missing value (0) formats as 0 |
| `JsonFormatter.FormatNumberHalfUp` | src/utils/json-formatter.js:203 | halves round towards +infinity: 0.125 gives 0.13 and -0.125 gives -0.12 |
| `JsonFormatter.OrDefault` | src/utils/json-formatter.js:38-42 | `v \|\| d` keeps a non-empty value and is non-empty when the default is |
| `JsonFormatter.OrNull` | src/utils/json-formatter.js:46 | `v \|\| null` never yields '' and keeps anything else |
| `JsonFormatter.FormatInvestor` | src/utils/json-formatter.js:21-31 | PAN upper-cased, e-mail lower-cased, other fields trimmed; PAN and e-mail keep their length |
| `JsonFormatter.FormatInvestorFixpoint` | src/utils/json-formatter.js:21-31 | an investor already in that form is unchanged |
| `JsonFormatter.FormatHolding` | src/utils/json-formatter.js:73-79 | ISIN, name and extra information are kept; units and value are rounded to hundredths |
| `JsonFormatter.FormatHoldingList` | src/utils/json-formatter.js:72-80 | one output per input, in order, each the formatted holding |
| `JsonFormatter.FormatHoldings` | src/utils/json-formatter.js:59-67 | all five categories are present; four are formatted lists and AIFs pass through |
| `JsonFormatter.FormatHoldingsTwice` | src/utils/json-formatter.js:59-67 | formatting holdings twice equals once |
| `JsonFormatter.FormatAccountInfo` | src/utils/json-formatter.js:44-51 | status defaults to 'Active', bsda to 'NO', BO type to null, and the text fields are kept |
| `JsonFormatter.FormatAccount` | src/utils/json-formatter.js:37-53 | ids and DP name are kept, demat type defaults to 'cdsl', holdings and info are formatted and the value rounded |
| `JsonFormatter.FormatDematAccounts` | src/utils/json-formatter.js:36-54 | one output per account, in order |
| `JsonFormatter.FormatDematAccountsTwice` | src/utils/json-formatter.js:36-54 | formatting accounts twice equals once |
| `JsonFormatter.FormatScheme` | src/utils/json-formatter.js:138-149 | ISIN, name and NAV are copied (NAV unrounded), scheme type defaults to 'equity', ARN to null, and amounts are rounded |
| `JsonFormatter.FormatSchemes` | src/utils/json-formatter.js:137-150 | one output per scheme, in order |
| `JsonFormatter.FormatFolio` | src/utils/json-formatter.js:125-131 | AMC, folio number and registrar are kept, schemes formatted, value rounded |
| `JsonFormatter.FormatMutualFunds` | src/utils/json-formatter.js:124-132 | one output per folio, in order |
| `JsonFormatter.FormatMutualFundsTwice` | src/utils/json-formatter.js:124-132 | formatting folios twice equals once |
| `JsonFormatter.FormatInsurance` | src/utils/json-formatter.js:155-159 | the policy list passes through |
| `JsonFormatter.FormatMeta` | src/utils/json-formatter.js:164-173 | CAS type defaults to 'UNKNOWN', a missing timestamp is taken from the clock reading, and the period is kept |
| `JsonFormatter.FormatClassTotal` | src/utils/json-formatter.js:181-192 | the count is kept and the total rounded |
| `JsonFormatter.FormatSummary` | src/utils/json-formatter.js:178-196 | counts are kept, and each total, the grand total included, is rounded on its own |
| `JsonFormatter.SummaryTotalNotRecomputed` | src/utils/json-formatter.js:194 | the rounded grand total can differ from the sum of the rounded class totals |
| `JsonFormatter.Format` | src/utils/json-formatter.js:7-16 | each part of the record goes through its own formatter |
| `JsonFormatter.FormatIdempotent` | src/utils/json-formatter.js:7-16 | formatting a formatted record changes nothing |
| `CdslLegacy.IsinAt` | src/parsers/cdsl-parser.js:452 | `([A-Z]{2}[A-Z0-9]{9}\d)` matches 12 characters of the ISIN shape |
| `CdslLegacy.NumberMatches` | src/parsers/cdsl-parser.js:470 | the `g` matches of `[\d,]+\.?\d*` lie within the text |
| `CdslLegacy.IsinLine` | src/parsers/cdsl-parser.js:452-480 | a line with an ISIN starts a record that carries the ISIN shape and `{}` as extra information |
| `CdslLegacy.RecordAfter` | src/parsers/cdsl-parser.js:467-480 | the record keeps the ISIN and has `{}` as extra information |
| `CdslLegacy.IsinIndex` | src/parsers/cdsl-parser.js:466 | `indexOf` of the matched ISIN is the match position, since an earlier copy would have matched first |
| `CdslLegacy.FirstNumberIndex` | src/parsers/cdsl-parser.js:476 | `indexOf` of the first number is that number's match position |
| `CdslLegacy.RecordFrom` | src/parsers/cdsl-parser.js:457-480 | the field-by-field updates build the specified record: units from the first and value from the last of two or more numbers, name before the first number; otherwise the whole text as the name |
| `CdslLegacy.StartRecord` | src/parsers/cdsl-parser.js:452-480 | the ISIN branch starts the record `IsinLine` specifies |
| `CdslLegacy.ParseLines` | src/parsers/cdsl-parser.js:445-489 | the line loop with the carried record returns the specified holdings |
| `CdslLegacy.ParseEquityHoldings` | src/parsers/cdsl-parser.js:440-496 | the equity reader is the walk with name continuation |
| `CdslLegacy.ParseMutualFundHoldings` | src/parsers/cdsl-parser.js:501-552 | the fund reader is the walk without name continuation |
| `CdslLegacy.WalkShape` | src/parsers/cdsl-parser.js:448-489 | one record per ISIN line, each with the ISIN shape; a record is being built once an ISIN line has been seen |
| `CdslLegacy.LegacyHoldingsShape` | src/parsers/cdsl-parser.js:440-496 | both readers return one holding per ISIN line, each with an ISIN-shaped `isin` |
| `CdslLegacy.WalksAgree` | src/parsers/cdsl-parser.js:448-485 | line by line the two walks hold the same records except for names the fund walk leaves empty |
| `CdslLegacy.EquityAndFundReadersAgree` | src/parsers/cdsl-parser.js:481-484 | both readers return the same holdings in the same order, differing only where the equity reader continued an empty name |
| `CdslLegacy.SplitWs` | src/parsers/cdsl-parser.js:751 | `split(/\s+/)` gives at least one part and no part holds whitespace |
| `CdslLegacy.FirstWord` | src/parsers/cdsl-parser.js:756-771 | the early-return search gives the first accepted word, and nothing exactly when no word is accepted |
| `CdslLegacy.ExtractDpNameForSearch` | src/parsers/cdsl-parser.js:744-777 | the two loops return the specified word |
| `CdslLegacy.DpNameForSearchChoice` | src/parsers/cdsl-parser.js:744-777 | the word is one of the name's words, longer than three and not generic; it is an all-capitals company word whenever the name has one; null exactly for an empty name or when no word qualifies |

## Left out

- Reading, decrypting and saving PDF and JSON files is not modelled: the existence check, PDF reading, `saveToFile` and the CLI (src/index.js:28-36 and 94-143). Neither is `prettyPrint` / `JSON.stringify` (src/utils/json-formatter.js:209-211). These are I/O and serialisation.
- Logging, `try`/`catch` wrappers and `async`/`await` are left out. No modelled step throws, and every `await` resolves to the value computed.
- The clock readings (`new Date().toISOString()`, src/parsers/base-parser.js:91 and src/utils/json-formatter.js:167) are one parameter, `isoNow`. The extractor and the formatter are given the same reading.
- The scheme-table pattern (src/parsers/cdsl-parser.js:612) is a parameter `table`. It takes the mutual-fund passage and returns the seven captures or nothing. Everything derived from the captures is modelled.
- CdslFunds.MutualFunds: constrained only through that abstract table extractor, so it does not pin down which scheme row the pattern picks.
- IEEE doubles are not modelled; amounts are exact reals, so rounding error in `num * 100` is absent. `parseFloat` is modelled on the decimal prefix it reads: optional minus, digits, point and digits. Exponents and `Infinity` need letters, which the `[^0-9.-]` filter has already removed.
- JsonFormatter.FormatNumber: `parseFloat` of a non-number is not modelled. Every caller passes a number or the `|| 0` default, so the NaN path reduces to 0.
- `nextSectionText` in `extractHoldingsForAccount` is never read by the source. The model passes it along unused.
- `extractAccountDetailsFromSection` updates the account object in place. The model takes and returns the account as a value; the object is unaliased in the source, so nothing else observes the change.
- The `typeof dpName !== 'string'` check in `extractDpNameForSearch` is not modelled: names are strings by construction.
- `extractHoldings` (src/parsers/cdsl-parser.js:433-435) is not modelled: it only forwards to `parseHoldingsFromSection`, and nothing in the core calls it.
- `parseBondHoldings` and `parseGovSecurities` (src/parsers/cdsl-parser.js:557-568) are not modelled: they return `[]` and nothing in the core calls them.
- `parseMutualFundSchemes` (src/parsers/cdsl-parser.js:678-714) is not modelled: nothing in the core calls it.
- `toUpperCase`, `toLowerCase` and the `i` flag are modelled for ASCII letters only; other Unicode case rules are not modelled.
- Lengths, offsets and `substring` positions are counted in characters (Unicode scalar values), not in the UTF-16 code units JavaScript counts. The two differ only on text outside the Basic Multilingual Plane. This affects the `trim().length > 200` section gate in `CdslSections.IsAccountSection` (src/parsers/cdsl-parser.js:174), the `startIndex + 10` search offset in `CdslHoldings.TransactionSpan` (src/parsers/cdsl-parser.js:333), and the `word.length > 3` and `word.length > 4` filters in `CdslLegacy.CompanyWord`, `CdslLegacy.FallbackWord` and `CdslLegacy.ExtractDpNameForSearch` (src/parsers/cdsl-parser.js:758 and 768).
