/**
 * The labelled fields of a CDSL statement: `Label : value` patterns such as
 * `DP\s+ID\s*:?\s*(\d+)` or `Email\s+Id\s*:?\s*([^\s]+@[^\s]+)`, each an anchored matcher
 * for `Scan.FirstMatch`.
 */
module CdslFields {
  import opened Wrappers
  import opened Text
  import opened Scan

  /** `label\s*:?\s*(\d+)`: the digit run after the label and its optional colon. */
  function DigitsAfter(s: string, p: nat, words: seq<string>): (r: Option<string>)
    ensures r.Some? ==> |r.value| > 0 && forall k | 0 <= k < |r.value| :: IsDigit(r.value[k])
  {
    match WordsAt(s, p, words)
    case None => None
    case Some(q) => RunAfterColon(s, q, IsDigit)
  }

  /** `label\s*:?\s*([^\n]+)`. */
  function LineAfter(s: string, p: nat, words: seq<string>): (r: Option<string>)
  {
    match WordsAt(s, p, words)
    case None => None
    case Some(q) => LineCapture(s, q)
  }

  /** An `@` with at least one character before it and one after it. */
  predicate HasInnerAt(tok: string)
  {
    exists i | 1 <= i < |tok| - 1 :: tok[i] == '@'
  }

  /**
   * `[^\s]+@[^\s]+` from `t`: the whole whitespace-free token there, when it holds an inner `@`.
   * The first run backtracks to the last such `@` and the second run then reaches the token's end,
   * so the capture is always the entire token.
   */
  function EmailTokenAt(s: string, t: nat): (r: Option<string>)
    requires t <= |s|
    ensures r.Some? ==> HasInnerAt(r.value) && forall k | 0 <= k < |r.value| :: !IsWs(r.value[k])
  {
    var e := SkipWhile(s, t, c => !IsWs(c));
    var tok := s[t..e];
    if HasInnerAt(tok) then Some(tok) else None
  }

  /**
   * `\s*:?\s*([^\s]+@[^\s]+)` from `q`. When a colon follows and the token after it fails, the
   * engine gives up the colon and tries the token that starts at the colon itself.
   */
  function EmailAfterColon(s: string, q: nat): (r: Option<string>)
    requires q <= |s|
    ensures r.Some? ==> HasInnerAt(r.value) && forall k | 0 <= k < |r.value| :: !IsWs(r.value[k])
  {
    var c0 := SkipWs(s, q);
    if c0 < |s| && s[c0] == ':' then
      match EmailTokenAt(s, SkipWs(s, c0 + 1))
      case Some(x) => Some(x)
      case None => EmailTokenAt(s, c0)
    else EmailTokenAt(s, c0)
  }

  /** `Email\s+Id\s*:?\s*([^\s]+@[^\s]+)` (flag `i`) at `p`. */
  function EmailIdAt(s: string, p: nat): (r: Option<string>)
    ensures r.Some? ==> HasInnerAt(r.value) && forall k | 0 <= k < |r.value| :: !IsWs(r.value[k])
  {
    match WordsAt(s, p, ["Email", "Id"])
    case None => None
    case Some(q) => EmailAfterColon(s, q)
  }

  /** Lower-casing an address keeps its inner `@` and leaves no upper-case letter. */
  lemma LowerEmail(v: string)
    requires HasInnerAt(v)
    ensures HasInnerAt(ToLower(v)) && forall k | 0 <= k < |ToLower(v)| :: !IsUpper(ToLower(v)[k])
  {
    var i :| 1 <= i < |v| - 1 && v[i] == '@';
    assert ToLower(v)[i] == '@';
  }

  /** `DP\s+Name\s*:\s*([^\n]+)` (flag `i`) at `p`. */
  function DpNameAt(s: string, p: nat): (r: Option<string>)
  {
    match WordsAt(s, p, ["DP", "Name"])
    case None => None
    case Some(q) => LineCaptureColon(s, q)
  }

  function DpIdAt(s: string, p: nat): (r: Option<string>) { DigitsAfter(s, p, ["DP", "ID"]) }
  function ClientIdAt(s: string, p: nat): (r: Option<string>) { DigitsAfter(s, p, ["CLIENT", "ID"]) }
  function BoSubStatusAt(s: string, p: nat): (r: Option<string>) { LineAfter(s, p, ["BO", "Sub", "Status"]) }
  function NomineeAt(s: string, p: nat): (r: Option<string>) { LineAfter(s, p, ["Nominee"]) }

  /** A BO id found by the `g`-flag pattern `BO\s+ID\s*:?\s*(\d+)`, with the end of its match. */
  datatype IdMatch = IdMatch(id: string, end: nat)

  function IdEnd(m: IdMatch): nat { m.end }

  /** `BO\s+ID\s*:?\s*(\d+)` (flag `i`) at `p`. */
  function BoIdAt(s: string, p: nat): (r: Option<IdMatch>)
    ensures r.Some? ==> p < r.value.end <= |s|
    ensures r.Some? ==> |r.value.id| > 0 && forall k | 0 <= k < |r.value.id| :: IsDigit(r.value.id[k])
    ensures r.Some? <==> DigitsAfter(s, p, ["BO", "ID"]).Some?
    ensures r.Some? ==> r.value.id == DigitsAfter(s, p, ["BO", "ID"]).value
  {
    match WordsAt(s, p, ["BO", "ID"])
    case None => None
    case Some(q) =>
      var c := AfterColon(s, q);
      match RunEnd(s, c, IsDigit, 1)
      case None => None
      case Some(e) => Some(IdMatch(s[c..e], e))
  }

  /** On a line `DP ID : 12345678`, the DP id read is the digit run. */
  lemma DigitsAfterValue(s: string, p: nat, words: seq<string>, q: nat, c: nat, e: nat)
    requires WordsAt(s, p, words) == Some(q)
    requires q <= c <= e <= |s| && c < e
    requires forall k | q <= k < c :: IsWs(s[k]) || (s[k] == ':' && forall j | q <= j < k :: IsWs(s[j]))
    requires forall k | c <= k < e :: IsDigit(s[k])
    requires e == |s| || !IsDigit(s[e])
    ensures DigitsAfter(s, p, words) == Some(s[c..e])
  {
    assert IsDigit(s[c]);
    AfterColonAt(s, q, c);
    SkipWhileRun(s, c, e, IsDigit);
  }
}
