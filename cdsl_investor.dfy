/**
 * The investor block and the statement period of a CDSL statement: PAN, address pincode,
 * e-mail, mobile number and CAS id, each found by its labelled pattern with the fallbacks the
 * extractor tries, and the `Period : <date> to <date>` line.
 */
module CdslInvestor {
  import opened Wrappers
  import opened Text
  import opened Scan
  import opened Records
  import opened BaseParser
  import opened CdslFields

  // ---------------------------------------------------------------- PAN

  /**
   * `[A-Z]{5}[0-9]{4}[A-Z]` at `i`; with `ic` (the `i` flag) the letters may be of either case.
   */
  predicate IsPanAt(s: string, i: nat, ic: bool)
  {
    && i + 10 <= |s|
    && (forall k | i <= k < i + 5 :: if ic then IsLetter(s[k]) else IsUpper(s[k]))
    && (forall k | i + 5 <= k < i + 9 :: IsDigit(s[k]))
    && (if ic then IsLetter(s[i + 9]) else IsUpper(s[i + 9]))
  }

  /** `PAN\s*:?\s*([A-Z]{5}[0-9]{4}[A-Z])` (flag `i`) at `p`. */
  function LabelledPanAt(s: string, p: nat): (r: Option<string>)
    ensures r.Some? ==> |r.value| == 10 && IsPanAt(r.value, 0, true)
  {
    match WordsAt(s, p, ["PAN"])
    case None => None
    case Some(q) => PanAfterColon(s, q)
  }

  /** `\s*:?\s*([A-Z]{5}[0-9]{4}[A-Z])` (flag `i`) from `q`. */
  function PanAfterColon(s: string, q: nat): (r: Option<string>)
    requires q <= |s|
    ensures r.Some? ==> |r.value| == 10 && IsPanAt(r.value, 0, true)
  {
    var c := AfterColon(s, q);
    if IsPanAt(s, c, true) then PanSlice(s, c, true); Some(s[c..c + 10]) else None
  }

  /** The ten characters of a PAN-shaped token form a PAN on their own. */
  lemma PanSlice(s: string, c: nat, ic: bool)
    requires IsPanAt(s, c, ic)
    ensures IsPanAt(s[c..c + 10], 0, ic)
  {
    var t := s[c..c + 10];
    assert forall k | 0 <= k < 10 :: t[k] == s[c + k];
  }

  /** A PAN in capitals is one under the `i` flag too. */
  lemma PanIgnoringCase(t: string)
    requires IsPanAt(t, 0, false)
    ensures IsPanAt(t, 0, true)
  {
  }

  /** `([A-Z]{5}[0-9]{4}[A-Z])` at `p`, letter case significant. */
  function BarePanAt(s: string, p: nat): (r: Option<string>)
    ensures r.Some? ==> |r.value| == 10 && IsPanAt(r.value, 0, false)
  {
    if IsPanAt(s, p, false) then PanSlice(s, p, false); Some(s[p..p + 10]) else None
  }

  /** The PAN: after a `PAN` label, else the first bare PAN-shaped token, else ''. */
  function Pan(text: string): (r: string)
    ensures r == "" || (|r| == 10 && IsPanAt(r, 0, true))
  {
    match Search(text, LabelledPanAt)
    case Some(v) =>
      var f := FirstMatch(text, 0, LabelledPanAt).value;
      assert LabelledPanAt(text, f.pos) == Some(v);
      v
    case None =>
      match Search(text, BarePanAt)
      case None => ""
      case Some(v) =>
        var f := FirstMatch(text, 0, BarePanAt).value;
        assert BarePanAt(text, f.pos) == Some(v);
        PanIgnoringCase(v);
        v
  }

  // ---------------------------------------------------------------- e-mail

  predicate IsLocalChar(c: char) { IsAlnum(c) || c == '.' || c == '_' || c == '%' || c == '+' || c == '-' }
  predicate IsDomainChar(c: char) { IsAlnum(c) || c == '.' || c == '-' }

  /** The last `d` in `[lo, hi)` where `\.[a-zA-Z]{2,}` can start. */
  function LastDot(s: string, lo: nat, hi: nat): (r: Option<nat>)
    requires hi <= |s|
    ensures r.Some? ==> lo <= r.value < hi && r.value + 2 < |s| && s[r.value] == '.'
    ensures r.Some? ==> IsLetter(s[r.value + 1]) && IsLetter(s[r.value + 2])
    decreases hi
  {
    if hi <= lo then None
    else
      var d := hi - 1;
      if s[d] == '.' && d + 2 < |s| && IsLetter(s[d + 1]) && IsLetter(s[d + 2]) then Some(d)
      else LastDot(s, lo, d)
  }

  /**
   * `[a-zA-Z0-9._%+-]+@[a-zA-Z0-9.-]+\.[a-zA-Z]{2,}` at `p`. The local part is the whole run
   * (`@` is not in its class); the domain run gives back characters from the right until a
   * point followed by two letters is found, and the top-level part is that letter run.
   */
  function BareEmailAt(s: string, p: nat): (r: Option<string>)
    ensures r.Some? ==> HasInnerAt(r.value) && forall k | 0 <= k < |r.value| :: !IsWs(r.value[k])
  {
    if p > |s| then None
    else
      var l := SkipWhile(s, p, IsLocalChar);
      if l == p || l == |s| || s[l] != '@' then None
      else
        var d := SkipWhile(s, l + 1, IsDomainChar);
        match LastDot(s, l + 2, d)
        case None => None
        case Some(dot) =>
          var t := SkipWhile(s, dot + 1, IsLetter);
          BareEmailShape(s, p, l, d, dot, t);
          Some(s[p..t])
  }

  /** Local part, `@`, domain up to the point and the letters after it hold no whitespace. */
  lemma BareEmailShape(s: string, p: nat, l: nat, d: nat, dot: nat, t: nat)
    requires p < l && l + 2 <= dot < d <= |s| && dot + 1 <= t <= |s| && s[l] == '@'
    requires forall k | p <= k < l :: IsLocalChar(s[k])
    requires forall k | l + 1 <= k < d :: IsDomainChar(s[k])
    requires forall k | dot + 1 <= k < t :: IsLetter(s[k])
    ensures HasInnerAt(s[p..t]) && forall k | 0 <= k < |s[p..t]| :: !IsWs(s[p..t][k])
  {
    var r := s[p..t];
    assert r[l - p] == '@';
    forall k | 0 <= k < |r| ensures !IsWs(r[k]) {
      assert r[k] == s[p + k];
    }
  }

  /** Every whitespace character removed (`replace(/\s/g, '')`). */
  function RemoveWs(s: string): (r: string)
    ensures forall k | 0 <= k < |r| :: !IsWs(r[k])
  {
    if s == [] then [] else (if IsWs(s[0]) then [] else [s[0]]) + RemoveWs(s[1..])
  }

  /** The investor's e-mail: after an `Email Id` label, else the first bare address, lower-cased. */
  function InvestorEmail(text: string): (r: string)
  {
    match Search(text, EmailIdAt)
    case Some(v) => RemoveWs(ToLower(v))
    case None =>
      match Search(text, BareEmailAt)
      case Some(v) => RemoveWs(ToLower(v))
      case None => ""
  }

  lemma {:induction false} RemoveWsNone(s: string)
    requires forall k | 0 <= k < |s| :: !IsWs(s[k])
    ensures RemoveWs(s) == s
  {
    if s != [] { RemoveWsNone(s[1..]); }
  }

  lemma LowerKeepsWs(v: string)
    requires forall k | 0 <= k < |v| :: !IsWs(v[k])
    ensures forall k | 0 <= k < |ToLower(v)| :: !IsWs(ToLower(v)[k])
  {
  }

  /**
   * A found e-mail is the matched address itself, lower-cased: it has no whitespace, no
   * upper-case letter and an inner `@`; without any address the e-mail is ''.
   */
  lemma InvestorEmailShape(text: string)
    ensures var e := InvestorEmail(text);
      && (forall k | 0 <= k < |e| :: !IsWs(e[k]) && !IsUpper(e[k]))
      && (e == "" <==> Search(text, EmailIdAt).None? && Search(text, BareEmailAt).None?)
  {
    var v: string;
    if Search(text, EmailIdAt).Some? {
      var f := FirstMatch(text, 0, EmailIdAt).value;
      assert EmailIdAt(text, f.pos) == Some(f.value);
      v := f.value;
    } else if Search(text, BareEmailAt).Some? {
      var f := FirstMatch(text, 0, BareEmailAt).value;
      assert BareEmailAt(text, f.pos) == Some(f.value);
      v := f.value;
    } else {
      return;
    }
    LowerKeepsWs(v);
    RemoveWsNone(ToLower(v));
    LowerEmail(v);
  }

  // ---------------------------------------------------------------- mobile, CAS id, pincode

  predicate IsMobileChar(c: char) { IsDigit(c) || c == 'X' || c == 'x' }

  /** `Mobile\s+No\s*:?\s*([X0-9]{10,})` (flag `i`) at `p`. */
  function MobileAt(s: string, p: nat): (r: Option<string>)
    ensures r.Some? ==> |r.value| >= 10 && forall k | 0 <= k < |r.value| :: IsMobileChar(r.value[k])
  {
    match WordsAt(s, p, ["Mobile", "No"])
    case None => None
    case Some(q) =>
      var c := AfterColon(s, q);
      match RunEnd(s, c, IsMobileChar, 10)
      case None => None
      case Some(e) => Some(s[c..e])
  }

  /** The mobile number, kept only when it is not masked with an upper-case `X`. */
  function Mobile(text: string): (r: string)
    ensures r != "" ==> |r| >= 10 && !Contains(r, "X")
    ensures r != "" ==> forall k | 0 <= k < |r| :: IsMobileChar(r[k])
  {
    match Search(text, MobileAt)
    case Some(v) =>
      if Contains(v, "X") then ""
      else
        var f := FirstMatch(text, 0, MobileAt).value;
        assert MobileAt(text, f.pos) == Some(f.value);
        v
    case None => ""
  }

  /** `CAS\s+ID\s*:?\s*([A-Z0-9]+)` (flag `i`) at `p`. */
  function CasIdAt(s: string, p: nat): (r: Option<string>)
    ensures r.Some? ==> |r.value| > 0 && forall k | 0 <= k < |r.value| :: IsAlnum(r.value[k])
  {
    match WordsAt(s, p, ["CAS", "ID"])
    case None => None
    case Some(q) => RunAfterColon(s, q, IsAlnum)
  }

  /** `(\d{6})` at `p`. */
  function SixDigitsAt(s: string, p: nat): (r: Option<string>)
    ensures r.Some? ==> |r.value| == 6 && forall k | 0 <= k < 6 :: IsDigit(r.value[k])
  {
    if p + 6 <= |s| && forall k | p <= k < p + 6 :: IsDigit(s[k]) then Some(s[p..p + 6]) else None
  }

  // ---------------------------------------------------------------- name and address

  predicate IsLetterOrWs(c: char) { IsLetter(c) || IsWs(c) }

  /** `\s+(?:S\s+O|D\s+O|W\s+O)\s+` (flag `i`) at `e`. */
  predicate RelationAfter(s: string, e: nat)
  {
    && e <= |s|
    && match WsPlus(s, e)
       case None => false
       case Some(q) =>
         match (if WordsAt(s, q, ["S", "O"]).Some? then WordsAt(s, q, ["S", "O"])
                else if WordsAt(s, q, ["D", "O"]).Some? then WordsAt(s, q, ["D", "O"])
                else WordsAt(s, q, ["W", "O"]))
         case None => false
         case Some(r) => WsPlus(s, r).Some?
  }

  /** `\s+PAN\s*:` (flag `i`) at `e`. */
  predicate PanLabelAfter(s: string, e: nat)
  {
    && e <= |s|
    && match WsPlus(s, e)
       case None => false
       case Some(q) =>
         match WordsAt(s, q, ["PAN"])
         case None => false
         case Some(r) => SkipWs(s, r) < |s| && s[SkipWs(s, r)] == ':'
  }

  /** `([A-Z][a-z]+(?:\s+[a-z]+)*)` followed by `stop` (flag `i`) at `p`: the words captured. */
  function NameBefore(s: string, p: nat, stop: (string, nat) -> bool): (r: Option<string>)
    ensures r.Some? ==> |r.value| >= 2 && IsLetter(r.value[0]) && IsLetter(r.value[|r.value| - 1])
    ensures r.Some? ==> forall k | 0 <= k < |r.value| :: IsLetterOrWs(r.value[k])
  {
    if p > |s| then None
    else
      match WordChain(s, p, 2, 1, stop)
      case None => None
      case Some(e) => Some(s[p..e])
  }

  function RelationNameAt(s: string, p: nat): (r: Option<string>) { NameBefore(s, p, RelationAfter) }
  function PanNameAt(s: string, p: nat): (r: Option<string>) { NameBefore(s, p, PanLabelAfter) }

  /**
   * `single\s+name\s+of\s+([A-Z\s]+)\s+\(` (flag `i`) at `c`. The class admits whitespace,
   * so its greedy run stops only at the `(` (or fails); it then gives back the one whitespace
   * character `\s+` needs. When the run after the spaces is too short for that, the leading
   * `\s+` gives back spaces instead and the capture starts inside them.
   */
  function SingleNameAt(s: string, c: nat): (r: Option<string>)
    ensures r.Some? ==> |r.value| > 0 && forall k | 0 <= k < |r.value| :: IsLetterOrWs(r.value[k])
  {
    match WordsAt(s, c, ["single", "name", "of"])
    case None => None
    case Some(q) => NameBeforeParen(s, q)
  }

  /** `\s+([A-Z\s]+)\s+\(` from `q`, with the backtracking described above. */
  function NameBeforeParen(s: string, q: nat): (r: Option<string>)
    requires q <= |s|
    ensures r.Some? ==> |r.value| > 0 && forall k | 0 <= k < |r.value| :: IsLetterOrWs(r.value[k])
  {
    var w := SkipWs(s, q);
    var e := SkipWhile(s, q, IsLetterOrWs);
    if w == q || e == |s| || s[e] != '(' || !IsWs(s[e - 1]) || e - 1 <= q + 1 then None
    else
      var a := if e - 1 > w then w else e - 2;
      SliceOfRun(s, q, e, a, e - 1, IsLetterOrWs);
      Some(s[a..e - 1])
  }

  /** `Your\s+Demat\s+Account[^]*?single\s+name\s+of\s+([A-Z\s]+)\s+\(` (flag `i`) at `p`. */
  function DematHolderAt(s: string, p: nat): (r: Option<string>)
    ensures r.Some? ==> |r.value| > 0 && forall k | 0 <= k < |r.value| :: IsLetterOrWs(r.value[k])
  {
    match WordsAt(s, p, ["Your", "Demat", "Account"])
    case None => None
    case Some(q) =>
      match FirstMatch(s, q, SingleNameAt)
      case None => None
      case Some(f) => Some(f.value)
  }

  /** The name capture: before `S O`/`D O`/`W O`, else before `PAN :`, else the demat holder's. */
  function NameCapture(text: string): (r: Option<string>)
    ensures r.Some? ==> forall k | 0 <= k < |r.value| :: IsLetterOrWs(r.value[k])
  {
    match Search(text, RelationNameAt)
    case Some(v) =>
      var f := FirstMatch(text, 0, RelationNameAt).value;
      assert RelationNameAt(text, f.pos) == Some(f.value);
      Some(v)
    case None =>
      match Search(text, PanNameAt)
      case Some(v) =>
        var f := FirstMatch(text, 0, PanNameAt).value;
        assert PanNameAt(text, f.pos) == Some(f.value);
        Some(v)
      case None =>
        match Search(text, DematHolderAt)
        case Some(v) =>
          var f := FirstMatch(text, 0, DematHolderAt).value;
          assert DematHolderAt(text, f.pos) == Some(f.value);
          Some(v)
        case None => None
  }

  /** `(?:PINCODE|Statement|YOUR)` (flag `i`) at `t`. */
  function StopWordAt(s: string, t: nat): (r: Option<nat>)
  {
    if AtIc(s, t, "PINCODE") || AtIc(s, t, "Statement") || AtIc(s, t, "YOUR") then Some(t) else None
  }

  /** The last position at or before `t` where a stop word starts. */
  function LastStop(s: string, t: nat): (r: Option<nat>)
    ensures r.Some? ==> r.value <= t && StopWordAt(s, r.value).Some?
    ensures r.Some? ==> forall k | r.value < k <= t :: StopWordAt(s, k).None?
    ensures r.None? ==> forall k: nat | k <= t :: StopWordAt(s, k).None?
    decreases t
  {
    if StopWordAt(s, t).Some? then Some(t)
    else if t == 0 then None
    else LastStop(s, t - 1)
  }

  /** A stop word starts at `i` or later. */
  predicate StopFrom(s: string, i: nat)
  {
    LastStop(s, |s|).Some? && i <= LastStop(s, |s|).value
  }

  /** `StopFrom` is what the lazy `[^]*?` searching for a stop word needs. */
  lemma StopFromFirstMatch(s: string, i: nat)
    ensures StopFrom(s, i) <==> FirstMatch(s, i, StopWordAt).Some?
  {
    var l := LastStop(s, |s|);
    if FirstMatch(s, i, StopWordAt).Some? {
      var p := FirstMatch(s, i, StopWordAt).value.pos;
      assert StopWordAt(s, p).Some?;
    }
    if StopFrom(s, i) {
      assert StopWordAt(s, l.value).Some?;
      assert l.value <= |s|;
    }
  }

  /** A letter after whitespace with a stop word somewhere after it: where the capture can start. */
  predicate AddressStartAt(s: string, a: nat)
  {
    1 <= a < |s| && IsLetter(s[a]) && IsWs(s[a - 1]) && StopFrom(s, a + 1)
  }

  /**
   * The largest `a` in `[lo, hi)` where `\s+([A-Z][^]*?)(?:PINCODE|Statement|YOUR)` can take its
   * capture start: a letter after whitespace with a stop word somewhere after it.
   */
  function LastAddressStart(s: string, lo: nat, hi: nat): (r: Option<nat>)
    requires hi <= |s|
    ensures r.Some? ==> lo <= r.value < hi && AddressStartAt(s, r.value)
    decreases hi
  {
    if hi <= lo || hi == 0 then None
    else
      var a := hi - 1;
      if AddressStartAt(s, a) then Some(a)
      else LastAddressStart(s, lo, a)
  }

  /** The engine's order: no capture start lies past the one found. */
  lemma {:induction false} LastAddressStartLargest(s: string, lo: nat, hi: nat)
    requires hi <= |s| && LastAddressStart(s, lo, hi).Some?
    ensures forall a | LastAddressStart(s, lo, hi).value < a < hi :: !AddressStartAt(s, a)
    decreases hi
  {
    if !AddressStartAt(s, hi - 1) {
      assert LastAddressStart(s, lo, hi) == LastAddressStart(s, lo, hi - 1);
      LastAddressStartLargest(s, lo, hi - 1);
    }
  }

  /** No capture start is found only when there is none in the range. */
  lemma {:induction false} LastAddressStartNone(s: string, lo: nat, hi: nat)
    requires hi <= |s| && LastAddressStart(s, lo, hi).None?
    ensures forall a | lo <= a < hi :: !AddressStartAt(s, a)
    decreases hi
  {
    if lo < hi {
      assert !AddressStartAt(s, hi - 1);
      LastAddressStartNone(s, lo, hi - 1);
    }
  }

  /**
   * `S\s+O\s+[A-Z\s]+\s+([A-Z][^]*?)(?:PINCODE|Statement|YOUR)` (flag `i`) at `p`: the capture
   * after `S O`, read by `AddressFrom`.
   */
  function AddressAt(s: string, p: nat): (r: Option<string>)
    ensures r.Some? ==> |r.value| > 0 && IsLetter(r.value[0])
    ensures r.Some? ==> WordsAt(s, p, ["S", "O"]).Some? && WordsAt(s, p, ["S", "O"]).value < |s|
    ensures r.Some? ==> IsWs(s[WordsAt(s, p, ["S", "O"]).value])
  {
    match WordsAt(s, p, ["S", "O"])
    case None => None
    case Some(q) => AddressFrom(s, q)
  }

  /** The pattern matches at `p` exactly when `S O` is there and a genuine address shape follows it. */
  lemma AddressAtMatches(s: string, p: nat)
    ensures AddressAt(s, p).Some? <==> (WordsAt(s, p, ["S", "O"]).Some? &&
      exists a: nat, t: nat :: AddressShape(s, WordsAt(s, p, ["S", "O"]).value, a, t))
    ensures AddressAt(s, p).Some? ==> exists a: nat, t: nat ::
      AddressShape(s, WordsAt(s, p, ["S", "O"]).value, a, t) && AddressAt(s, p).value == s[a..t]
  {
    if WordsAt(s, p, ["S", "O"]).Some? {
      AddressFromMatches(s, WordsAt(s, p, ["S", "O"]).value);
    }
  }

  /** A letter straight after the `O` fails `O\s+`: no address, though a stop word follows. */
  lemma AddressNeedsBlankAfterO()
    ensures AddressAt("S OAB CD PINCODE", 0).None?
  {
    var s := "S OAB CD PINCODE";
    assert s[1] == ' ' && s[2] == 'O' && s[3] == 'A';
    assert SkipWs(s, 2) == 2;
    assert SkipWs(s, 1) == 2;
    assert WordsAt(s, 0, ["S", "O"]) == Some(3);
  }

  /**
   * Where the address capture after `S O` starts, reading from `q` just after the `O`, as the
   * backtracking engine chooses it: `\s+` needs a blank right after the `O` and first takes all
   * the blanks; the latest capture start past them comes first, and only when there is none does
   * a shorter blank run (three blanks or more) let the capture start at the first word.
   */
  function AddressStart(s: string, q: nat): (r: Option<nat>)
    requires q <= |s|
    ensures r.Some? ==> q < |s| && IsWs(s[q])
    ensures r.Some? ==> q + 3 <= r.value < SkipWhile(s, q, IsLetterOrWs) && AddressStartAt(s, r.value)
  {
    var w := SkipWs(s, q);
    var e := SkipWhile(s, q, IsLetterOrWs);
    if w == q then None
    else
      match LastAddressStart(s, w + 2, e)
      case Some(a) => Some(a)
      case None => if w >= q + 3 && w < e && StopFrom(s, w + 1) then Some(w) else None
  }

  /** The address capture after `S O`: from its start to the first stop word after its first letter. */
  function AddressFrom(s: string, q: nat): (r: Option<string>)
    requires q <= |s|
    ensures r.Some? ==> |r.value| > 0 && IsLetter(r.value[0])
    ensures r.Some? ==> q < |s| && IsWs(s[q])
  {
    match AddressStart(s, q)
    case None => None
    case Some(a) =>
      StopFromFirstMatch(s, a + 1);
      Some(s[a..FirstMatch(s, a + 1, StopWordAt).value.pos])
  }

  /**
   * `O\s+[A-Z\s]+\s+([A-Z][^]*?)(?:PINCODE|Statement|YOUR)` read from `q`, just after the `O`,
   * with the capture `s[a..t]`: a blank after the `O`, then letters and blanks ending in a blank
   * before the capture's first letter at `a` (three characters at least), and `t` the first
   * stop word after that letter.
   */
  predicate AddressShape(s: string, q: nat, a: nat, t: nat)
  {
    && q + 3 <= a < t <= |s|
    && IsWs(s[q]) && IsWs(s[a - 1]) && IsLetter(s[a])
    && (forall k | q <= k < a :: IsLetterOrWs(s[k]))
    && StopWordAt(s, t).Some?
    && (forall k | a + 1 <= k < t :: StopWordAt(s, k).None?)
  }

  /** The scanner finds an address exactly when the pattern can match, and its capture is a genuine one. */
  lemma AddressFromMatches(s: string, q: nat)
    requires q <= |s|
    ensures AddressFrom(s, q).Some? ==>
      exists a: nat, t: nat :: AddressShape(s, q, a, t) && AddressFrom(s, q).value == s[a..t]
    ensures AddressFrom(s, q).None? ==> forall a: nat, t: nat :: !AddressShape(s, q, a, t)
  {
    if AddressStart(s, q).Some? {
      var a := AddressStart(s, q).value;
      AddressStartShape(s, q);
      var t := FirstMatch(s, a + 1, StopWordAt).value.pos;
      assert AddressShape(s, q, a, t) && AddressFrom(s, q).value == s[a..t];
    } else {
      forall a: nat, t: nat | AddressShape(s, q, a, t) ensures false {
        AddressShapeFound(s, q, a, t);
      }
    }
  }

  /** The capture start found, up to the first stop word after it, has the pattern's shape. */
  lemma AddressStartShape(s: string, q: nat)
    requires q <= |s| && AddressStart(s, q).Some?
    ensures FirstMatch(s, AddressStart(s, q).value + 1, StopWordAt).Some?
    ensures var a := AddressStart(s, q).value;
      AddressShape(s, q, a, FirstMatch(s, a + 1, StopWordAt).value.pos)
  {
    var a := AddressStart(s, q).value;
    StopFromFirstMatch(s, a + 1);
    var e := SkipWhile(s, q, IsLetterOrWs);
    assert forall k | q <= k < a :: IsLetterOrWs(s[k]);
  }

  /** A shape the pattern can match makes the scanner find a capture start. */
  lemma AddressShapeFound(s: string, q: nat, a: nat, t: nat)
    requires q <= |s| && AddressShape(s, q, a, t)
    ensures AddressStart(s, q).Some?
  {
    var w := SkipWs(s, q);
    var e := SkipWhile(s, q, IsLetterOrWs);
    StopFromFirstMatch(s, a + 1);
    assert AddressStartAt(s, a);
    assert w != q && a < e;
    if a < w + 2 {
      assert a == w;
    } else if LastAddressStart(s, w + 2, e).None? {
      LastAddressStartNone(s, w + 2, e);
    }
  }

  /**
   * `extractInvestorInfo`: the name is the cleaned name capture; the address is the cleaned
   * address capture, collapsed and trimmed once more, and the pincode the first six-digit run
   * of that address. A field whose pattern does not match stays ''.
   */
  function InvestorInfo(text: string): (r: Investor)
    ensures r.pan == Pan(text) && r.email == InvestorEmail(text) && r.mobile == Mobile(text)
    ensures r.casId == Search(text, CasIdAt).GetOr("")
    ensures r.name == (if NameCapture(text).Some? then CleanText(NameCapture(text).value) else "")
    ensures r.address == (if Search(text, AddressAt).Some? then CleanText(Search(text, AddressAt).value) else "")
    ensures r.pincode == Search(r.address, SixDigitsAt).GetOr("")
  {
    var name := match NameCapture(text) case Some(n) => CleanText(n) case None => "";
    var address := (match Search(text, AddressAt)
      case None => ""
      case Some(a) => RecleanIsIdentity(a); Trim(Collapse(CleanText(a))));
    var pincode := if Search(text, AddressAt).Some? then Search(address, SixDigitsAt).GetOr("") else "";
    Investor(name, Pan(text), address, InvestorEmail(text), Mobile(text), Search(text, CasIdAt).GetOr(""), pincode)
  }

  /** Collapsing and trimming a cleaned text again changes nothing. */
  lemma RecleanIsIdentity(a: string)
    ensures Trim(Collapse(CleanText(a))) == CleanText(a)
  {
    CleanTextNormal(a);
    TrimClean(CleanText(a));
    CollapseSingleSpaced(CleanText(a));
  }

  // ---------------------------------------------------------------- extractStatementPeriod

  /** A `DD-MMM-YYYY` token, as the period patterns capture it. */
  predicate IsDateToken(t: string) { |t| == 11 && IsDashDateAt(t, 0) }

  /** `\s*:?\s*(date)\s*to\s*(date)` from `q`, both dates `DD-MMM-YYYY` (flag `i`). */
  function DatesAfter(s: string, q: nat, colonBeforeSecond: bool): (r: Option<Period>)
    requires q <= |s|
    ensures r.Some? ==> IsDateToken(r.value.from) && IsDateToken(r.value.to)
  {
    var c := AfterColon(s, q);
    if !IsDashDateAt(s, c) then None
    else
      var t := SkipWs(s, c + 11);
      if !AtIc(s, t, "to") then None
      else
        var d := if colonBeforeSecond then AfterColon(s, t + 2) else SkipWs(s, t + 2);
        if IsDashDateAt(s, d) then
          DateTokenAt(s, c);
          DateTokenAt(s, d);
          Some(Period(s[c..c + 11], s[d..d + 11]))
        else None
  }

  /** The eleven characters of a date at `c` form a date token. */
  lemma DateTokenAt(s: string, c: nat)
    requires IsDashDateAt(s, c)
    ensures IsDateToken(s[c..c + 11])
  {
    var t := s[c..c + 11];
    assert forall k | 0 <= k < 11 :: t[k] == s[c + k];
  }

  /** `(?:Period|Statement\s+Period)\s*:?\s*(date)\s*to\s*(date)` (flag `i`) at `p`: the two date texts. */
  function PeriodAt(s: string, p: nat): (r: Option<Period>)
    ensures r.Some? ==> IsDateToken(r.value.from) && IsDateToken(r.value.to)
  {
    match WordsAt(s, p, ["Period"])
    case Some(q) => DatesAfter(s, q, false)
    case None =>
      match WordsAt(s, p, ["Statement", "Period"])
      case Some(q) => DatesAfter(s, q, false)
      case None => None
  }

  /** `From\s*:?\s*(date)\s*To\s*:?\s*(date)` (flag `i`) at `p`. */
  function FromToAt(s: string, p: nat): (r: Option<Period>)
    ensures r.Some? ==> IsDateToken(r.value.from) && IsDateToken(r.value.to)
  {
    match WordsAt(s, p, ["From"])
    case Some(q) => DatesAfter(s, q, true)
    case None => None
  }

  /** The date texts of the first `Period` line, else of the first `From … To …` line. */
  function PeriodDates(text: string): (r: Option<Period>)
    ensures r.Some? ==> IsDateToken(r.value.from) && IsDateToken(r.value.to)
    ensures r.None? <==> Search(text, PeriodAt).None? && Search(text, FromToAt).None?
    ensures Search(text, PeriodAt).Some? ==> r == Search(text, PeriodAt)
  {
    match FirstMatch(text, 0, PeriodAt)
    case Some(f) => Some(f.value)
    case None =>
      match FirstMatch(text, 0, FromToAt)
      case Some(f) => Some(f.value)
      case None => None
  }

  /**
   * `extractStatementPeriod`: both dates found, each passed through `parseDate`; '' for both
   * when neither pattern matches.
   */
  function StatementPeriod(text: string): (r: Period)
  {
    match PeriodDates(text)
    case None => Period("", "")
    case Some(dates) => Period(ParseDate(dates.from), ParseDate(dates.to))
  }

  /** A date of the period with a known month abbreviation, in any case, is written `YYYY-MM-DD`. */
  function IsoDate(t: string): string
    requires IsDateToken(t) && ToUpper(t[3..6]) in Months
  {
    t[7..11] + "-" + Months[ToUpper(t[3..6])] + "-" + t[..2]
  }

  /**
   * The statement period is the first period line's pair of dates, rewritten `YYYY-MM-DD` when
   * their months are known, and `('', '')` exactly when no period line is found.
   */
  lemma StatementPeriodIso(text: string)
    ensures PeriodDates(text).None? ==> StatementPeriod(text) == Period("", "")
    ensures PeriodDates(text).Some? ==>
      var d := PeriodDates(text).value;
      (ToUpper(d.from[3..6]) in Months ==> StatementPeriod(text).from == IsoDate(d.from))
      && (ToUpper(d.to[3..6]) in Months ==> StatementPeriod(text).to == IsoDate(d.to))
  {
    if PeriodDates(text).Some? {
      var d := PeriodDates(text).value;
      if ToUpper(d.from[3..6]) in Months { DateToken(d.from); }
      if ToUpper(d.to[3..6]) in Months { DateToken(d.to); }
    }
  }

  lemma DateToken(t: string)
    requires IsDateToken(t) && ToUpper(t[3..6]) in Months
    ensures ParseDate(t) == IsoDate(t)
  {
    assert t == t[..2] + "-" + t[3..6] + "-" + t[7..11];
    ParseDateDash(t[..2], t[3..6], t[7..11]);
  }
}
