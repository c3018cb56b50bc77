/**
 * `CASParser`, from the extracted text on: the blank-text check, the entry point's own
 * issuer detection, the parser table (only CDSL is registered) and the formatting of what
 * the CDSL parser returns. Reading the PDF and writing the output file are not modelled.
 */
module CasParser {
  import opened Wrappers
  import opened Text
  import opened Records
  import opened BaseParser
  import opened CdslFunds
  import opened CdslParser
  import opened JsonFormatter

  /**
   * Whether the text carries issuer `t`'s fingerprint as the entry point tests it; unlike the
   * base parser, NSDL needs the depository's full name as well.
   */
  predicate EntryFingerprint(text: string, t: CasType)
  {
    match t
    case CDSL => Contains(text, "CDSL") && Contains(text, "Central Depository Services")
    case NSDL => Contains(text, "NSDL") && Contains(text, "National Securities Depository")
    case CAMS => Contains(text, "Computer Age Management Services")
    case KFINTECH => Contains(text, "KFintech") || Contains(text, "Karvy")
    case UNKNOWN => true
  }

  /** `CASParser.detectCASType`: the first issuer, in fingerprint order, whose fingerprint is present. */
  function DetectCasType(text: string): (t: CasType)
  {
    if Contains(text, "CDSL") && Contains(text, "Central Depository Services") then CDSL
    else if Contains(text, "NSDL") && Contains(text, "National Securities Depository") then NSDL
    else if Contains(text, "Computer Age Management Services") then CAMS
    else if Contains(text, "KFintech") || Contains(text, "Karvy") then KFINTECH
    else UNKNOWN
  }

  /** First match wins: the detected issuer's fingerprint is present and no earlier one is. */
  lemma DetectCasTypeFirstMatch(text: string, u: CasType)
    ensures EntryFingerprint(text, DetectCasType(text))
    ensures Rank(u) < Rank(DetectCasType(text)) ==> !EntryFingerprint(text, u)
  {
  }

  /** With no fingerprint at all the issuer is UNKNOWN, and only then. */
  lemma DetectCasTypeUnknown(text: string)
    ensures DetectCasType(text) == UNKNOWN <==>
      forall u: CasType | u != UNKNOWN :: !EntryFingerprint(text, u)
  {
    if DetectCasType(text) != UNKNOWN {
      assert EntryFingerprint(text, DetectCasType(text));
    }
  }

  /**
   * The two detections agree except on NSDL: a text naming `NSDL` without the depository's
   * full name is NSDL to the base parser and something later in the order to the entry point.
   */
  lemma DetectionsDiffer(text: string)
    ensures DetectCasType(text) == BaseParser.DetectCasType(text) <==>
      !(BaseParser.DetectCasType(text) == NSDL && !Contains(text, "National Securities Depository"))
    ensures DetectCasType(text) == CDSL <==> BaseParser.DetectCasType(text) == CDSL
  {
  }

  /** `this.parsers`: the issuer tags that have a parser. */
  const Parsers: set<string> := {"CDSL"}

  const NoTextError := "Failed to extract text from PDF. The PDF might be corrupted or in an unsupported format."

  /**
   * `parse`, given the text read from the PDF, a clock reading and the scheme-table extractor:
   * blank text fails, an issuer without a parser fails naming its tag, and otherwise the
   * result is the CDSL parser's record, formatted.
   */
  function Parse(text: string, isoNow: string, table: string -> Option<SchemeCaptures>): (r: Result<CasData, string>)
    ensures IsBlank(text) ==> r == Failure(NoTextError)
    ensures !IsBlank(text) && DetectCasType(text) != CDSL ==>
      r == Failure("Parser not implemented for CAS type: " + Tag(DetectCasType(text)))
    ensures r.Success? <==> !IsBlank(text) && DetectCasType(text) == CDSL
    ensures r.Success? ==> r.value == Format(CdslParse(text, isoNow, table), isoNow)
  {
    TrimEmptyIffBlank(text);
    if |Trim(text)| == 0 then Failure(NoTextError)
    else
      var casType := DetectCasType(text);
      if Tag(casType) !in Parsers then
        Failure("Parser not implemented for CAS type: " + Tag(casType))
      else
        TagInjective(casType, CDSL);
        Success(Format(CdslParse(text, isoNow, table), isoNow))
  }

  /** A successful parse reports the CDSL issuer and has the formatter's normal form. */
  lemma ParseSuccessIsCdsl(text: string, isoNow: string, table: string -> Option<SchemeCaptures>)
    requires Parse(text, isoNow, table).Success?
    ensures Parse(text, isoNow, table).value.meta.casType == "CDSL"
    ensures var d := Parse(text, isoNow, table).value; Format(d, isoNow) == d
  {
    DetectionsDiffer(text);
    FormatIdempotent(CdslParse(text, isoNow, table), isoNow);
  }
}
