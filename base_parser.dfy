/**
 * The issuer-independent half of the statement parser: issuer fingerprinting, the text
 * normalisers (whitespace, numbers, dates, text between two markers), the insurance
 * placeholder, statement metadata and the portfolio summary.
 */
module BaseParser {
  import opened Wrappers
  import opened Text
  import opened Records
  import opened Scan

  // ---------------------------------------------------------------- issuer classification

  datatype CasType = CDSL | NSDL | CAMS | KFINTECH | UNKNOWN

  /** The tag string the source uses for each issuer. */
  function Tag(t: CasType): string
  {
    match t
    case CDSL => "CDSL"
    case NSDL => "NSDL"
    case CAMS => "CAMS"
    case KFINTECH => "KFINTECH"
    case UNKNOWN => "UNKNOWN"
  }

  lemma TagInjective(a: CasType, b: CasType)
    ensures Tag(a) == Tag(b) ==> a == b
  {
  }

  /** The rank of an issuer in the fingerprint order; UNKNOWN comes last. */
  function Rank(t: CasType): nat
  {
    match t
    case CDSL => 0
    case NSDL => 1
    case CAMS => 2
    case KFINTECH => 3
    case UNKNOWN => 4
  }

  /** Whether the text carries the fingerprint of issuer `t`, as the base parser tests it. */
  predicate Fingerprint(text: string, t: CasType)
  {
    match t
    case CDSL => Contains(text, "CDSL") && Contains(text, "Central Depository Services")
    case NSDL => Contains(text, "NSDL")
    case CAMS => Contains(text, "Computer Age Management Services")
    case KFINTECH => Contains(text, "KFintech") || Contains(text, "Karvy")
    case UNKNOWN => true
  }

  /** `BaseParser.detectCASType`: the first issuer, in fingerprint order, whose fingerprint is present. */
  function DetectCasType(text: string): (t: CasType)
  {
    if Contains(text, "CDSL") && Contains(text, "Central Depository Services") then CDSL
    else if Contains(text, "NSDL") then NSDL
    else if Contains(text, "Computer Age Management Services") then CAMS
    else if Contains(text, "KFintech") || Contains(text, "Karvy") then KFINTECH
    else UNKNOWN
  }

  /** First match wins: the detected issuer's fingerprint is present and no earlier one is. */
  lemma DetectCasTypeFirstMatch(text: string, u: CasType)
    ensures Fingerprint(text, DetectCasType(text))
    ensures Rank(u) < Rank(DetectCasType(text)) ==> !Fingerprint(text, u)
  {
  }

  /** UNKNOWN exactly when no issuer fingerprint is present. */
  lemma DetectCasTypeUnknown(text: string)
    ensures DetectCasType(text) == UNKNOWN <==>
      forall u: CasType | u != UNKNOWN :: !Fingerprint(text, u)
  {
    if DetectCasType(text) != UNKNOWN {
      assert Fingerprint(text, DetectCasType(text));
    } else {
      forall u: CasType | u != UNKNOWN ensures !Fingerprint(text, u) {
        DetectCasTypeFirstMatch(text, u);
      }
    }
  }

  // ---------------------------------------------------------------- cleanText

  /** Every whitespace run of `s` replaced by one space (`replace(/\s+/g, ' ')`). */
  function Collapse(s: string): string
    decreases |s|
  {
    if s == [] then []
    else if IsWs(s[0]) then [' '] + Collapse(s[SkipWs(s, 0)..])
    else [s[0]] + Collapse(s[1..])
  }

  /** `cleanText`: trim, then collapse the inner whitespace runs. */
  function CleanText(s: string): string
  {
    Collapse(Trim(s))
  }

  /** Whitespace appears only as single spaces. */
  predicate SingleSpaced(s: string)
  {
    forall i | 0 <= i < |s| :: IsWs(s[i]) ==> s[i] == ' ' && (i + 1 < |s| ==> !IsWs(s[i + 1]))
  }

  /** The normal form `cleanText` produces: single spaces between words, none at the ends. */
  predicate IsClean(s: string)
  {
    SingleSpaced(s) && (|s| > 0 ==> !IsWs(s[0]) && !IsWs(s[|s| - 1]))
  }

  /** The non-whitespace characters of `s`, in order. */
  function NonWs(s: string): string
  {
    if s == [] then [] else (if IsWs(s[0]) then [] else [s[0]]) + NonWs(s[1..])
  }

  lemma {:induction false} NonWsAppend(a: string, b: string)
    ensures NonWs(a + b) == NonWs(a) + NonWs(b)
    decreases |a|
  {
    if a == [] {
      assert a + b == b;
    } else {
      assert (a + b)[1..] == a[1..] + b;
      NonWsAppend(a[1..], b);
    }
  }

  lemma {:induction false} NonWsBlank(s: string)
    requires IsBlank(s)
    ensures NonWs(s) == []
    decreases |s|
  {
    if s != [] { NonWsBlank(s[1..]); }
  }

  /** The collapse keeps emptiness and whether each end is whitespace. */
  lemma {:induction false} CollapseEnds(s: string)
    ensures |Collapse(s)| == 0 <==> |s| == 0
    ensures |s| > 0 ==> (IsWs(Collapse(s)[0]) <==> IsWs(s[0]))
    ensures |s| > 0 ==> (IsWs(Collapse(s)[|Collapse(s)| - 1]) <==> IsWs(s[|s| - 1]))
    decreases |s|
  {
    if s == [] {
    } else if IsWs(s[0]) {
      var rest := s[SkipWs(s, 0)..];
      CollapseEnds(rest);
      assert Collapse(s) == [' '] + Collapse(rest);
      if rest != [] {
        assert s[|s| - 1] == rest[|rest| - 1];
      }
    } else {
      CollapseEnds(s[1..]);
      assert Collapse(s) == [s[0]] + Collapse(s[1..]);
      if |s| > 1 {
        assert s[|s| - 1] == s[1..][|s[1..]| - 1];
      }
    }
  }

  /** The collapse leaves only single spaces. */
  lemma {:induction false} CollapseSpaced(s: string)
    ensures SingleSpaced(Collapse(s))
    decreases |s|
  {
    if s == [] {
    } else if IsWs(s[0]) {
      var rest := s[SkipWs(s, 0)..];
      CollapseSpaced(rest);
      CollapseEnds(rest);
      var c := Collapse(rest);
      assert Collapse(s) == [' '] + c;
      assert |c| > 0 ==> !IsWs(c[0]);
      forall i | 0 <= i < |[' '] + c| && IsWs(([' '] + c)[i])
        ensures ([' '] + c)[i] == ' ' && (i + 1 < |[' '] + c| ==> !IsWs(([' '] + c)[i + 1]))
      {
        if i > 0 { assert ([' '] + c)[i] == c[i - 1]; }
      }
    } else {
      CollapseSpaced(s[1..]);
      var c := Collapse(s[1..]);
      assert Collapse(s) == [s[0]] + c;
      forall i | 0 <= i < |[s[0]] + c| && IsWs(([s[0]] + c)[i])
        ensures ([s[0]] + c)[i] == ' ' && (i + 1 < |[s[0]] + c| ==> !IsWs(([s[0]] + c)[i + 1]))
      {
        assert i > 0 && ([s[0]] + c)[i] == c[i - 1];
      }
    }
  }

  /** The collapse keeps every non-whitespace character in order. */
  lemma {:induction false} CollapseNonWs(s: string)
    ensures NonWs(Collapse(s)) == NonWs(s)
    decreases |s|
  {
    if s == [] {
    } else if IsWs(s[0]) {
      var j := SkipWs(s, 0);
      CollapseNonWs(s[j..]);
      LeadingRunNonWs(s, j);
      SpaceNonWs(Collapse(s[j..]));
    } else {
      CollapseNonWs(s[1..]);
      assert NonWs(s) == [s[0]] + NonWs(s[1..]);
      assert NonWs(Collapse(s)) == [s[0]] + NonWs(Collapse(s[1..]));
    }
  }

  /** A leading whitespace run adds nothing to `NonWs`. */
  lemma {:induction false} LeadingRunNonWs(s: string, j: nat)
    requires j <= |s| && forall k | 0 <= k < j :: IsWs(s[k])
    ensures NonWs(s) == NonWs(s[j..])
    decreases j
  {
    if j > 0 {
      assert IsWs(s[0]);
      assert NonWs(s) == NonWs(s[1..]);
      assert forall k | 0 <= k < j - 1 :: s[1..][k] == s[k + 1];
      LeadingRunNonWs(s[1..], j - 1);
      assert s[1..][j - 1..] == s[j..];
    }
  }

  lemma SpaceNonWs(c: string)
    ensures NonWs([' '] + c) == NonWs(c)
  {
    assert ([' '] + c)[1..] == c;
  }

  lemma CollapseShape(s: string)
    ensures SingleSpaced(Collapse(s))
    ensures |Collapse(s)| == 0 <==> |s| == 0
    ensures |s| > 0 ==> (IsWs(Collapse(s)[0]) <==> IsWs(s[0]))
    ensures |s| > 0 ==> (IsWs(Collapse(s)[|Collapse(s)| - 1]) <==> IsWs(s[|s| - 1]))
    ensures NonWs(Collapse(s)) == NonWs(s)
  {
    CollapseEnds(s);
    CollapseSpaced(s);
    CollapseNonWs(s);
  }

  /** A single-spaced string is left as it is by the collapse. */
  lemma {:induction false} CollapseSingleSpaced(s: string)
    requires SingleSpaced(s)
    ensures Collapse(s) == s
    decreases |s|
  {
    if s == [] {
    } else if IsWs(s[0]) {
      assert 0 + 1 < |s| ==> !IsWs(s[0 + 1]);
      assert SkipWs(s, 0) == 1;
      CollapseSingleSpaced(s[1..]);
    } else {
      CollapseSingleSpaced(s[1..]);
    }
  }

  lemma TrimClean(s: string)
    requires |s| == 0 || (!IsWs(s[0]) && !IsWs(s[|s| - 1]))
    ensures Trim(s) == s
  {
  }

  /** `Trim` keeps every non-whitespace character. */
  lemma TrimKeepsNonWs(s: string)
    ensures NonWs(Trim(s)) == NonWs(s)
  {
    var a := SkipWs(s, 0);
    var b := TrimEndIndex(s, a, |s|);
    var x, y, z := s[..a], s[a..b], s[b..];
    assert Trim(s) == y;
    assert IsBlank(x) by {
      forall i | 0 <= i < |x| ensures IsWs(x[i]) { assert x[i] == s[i]; }
    }
    assert IsBlank(z) by {
      forall i | 0 <= i < |z| ensures IsWs(z[i]) { assert z[i] == s[b + i]; }
    }
    assert s == (x + y) + z;
    NonWsAppend(x + y, z);
    NonWsAppend(x, y);
    NonWsBlank(x);
    NonWsBlank(z);
  }

  /** The result of `cleanText` is in normal form and keeps every non-whitespace character in order. */
  lemma CleanTextNormal(s: string)
    ensures IsClean(CleanText(s))
    ensures NonWs(CleanText(s)) == NonWs(s)
  {
    CollapseShape(Trim(s));
    TrimKeepsNonWs(s);
  }

  /** A string already in normal form is its own `cleanText`. */
  lemma CleanTextFixpoint(s: string)
    requires IsClean(s)
    ensures CleanText(s) == s
  {
    TrimClean(s);
    CollapseSingleSpaced(s);
  }

  /** `cleanText` is idempotent. */
  lemma CleanTextIdempotent(s: string)
    ensures CleanText(CleanText(s)) == CleanText(s)
  {
    CleanTextNormal(s);
    CleanTextFixpoint(CleanText(s));
  }

  // ---------------------------------------------------------------- parseNumber

  /** The characters `parseNumber` keeps: `[0-9.-]`. */
  predicate IsNumericChar(c: char) { IsDigit(c) || c == '.' || c == '-' }

  /** `replace(/[^0-9.-]/g, '')`. */
  function KeepNumeric(s: string): (r: string)
    ensures forall i | 0 <= i < |r| :: IsNumericChar(r[i])
  {
    if s == [] then [] else (if IsNumericChar(s[0]) then [s[0]] else []) + KeepNumeric(s[1..])
  }

  function DigitValue(c: char): nat { if IsDigit(c) then c as int - '0' as int else 0 }

  /** The integer a run of decimal digits denotes. */
  function DigitsValue(ds: string): nat
  {
    if ds == [] then 0 else DigitsValue(ds[..|ds| - 1]) * 10 + DigitValue(ds[|ds| - 1])
  }

  /** The fraction `0.ds` a run of decimal digits denotes. */
  function FractionValue(ds: string): real
  {
    if ds == [] then 0.0 else (DigitValue(ds[0]) as real + FractionValue(ds[1..])) / 10.0
  }

  /**
   * `parseFloat` on text already reduced to `[0-9.-]`: an optional minus, then digits with an
   * optional fraction, at least one digit in all; the longest such prefix is read and the rest
   * ignored. None is JavaScript's NaN. (Leading whitespace, `+`, exponents and `Infinity`
   * cannot occur in such text.)
   */
  function ParseDecimalPrefix(s: string): Option<real>
  {
    var neg := |s| > 0 && s[0] == '-';
    var i := if neg then 1 else 0;
    var j := SkipWhile(s, i, IsDigit);
    var k := if j < |s| && s[j] == '.' then SkipWhile(s, j + 1, IsDigit) else j;
    var intDigits := s[i..j];
    var fracDigits := if k > j then s[j + 1..k] else "";
    if |intDigits| + |fracDigits| == 0 then None
    else
      var v := DigitsValue(intDigits) as real + FractionValue(fracDigits);
      Some(if neg then -v else v)
  }

  /** `parseNumber`: empty or unparsable text gives 0; characters outside `[0-9.-]` are dropped first. */
  function ParseNumber(s: string): real
  {
    if s == "" then 0.0 else ParseDecimalPrefix(KeepNumeric(s)).GetOr(0.0)
  }

  lemma {:induction false} KeepNumericAppend(a: string, b: string)
    ensures KeepNumeric(a + b) == KeepNumeric(a) + KeepNumeric(b)
    decreases |a|
  {
    if a == [] {
      assert a + b == b;
    } else {
      assert (a + b)[1..] == a[1..] + b;
      KeepNumericAppend(a[1..], b);
    }
  }

  lemma {:induction false} KeepNumericKeepsNumeric(s: string)
    requires forall i | 0 <= i < |s| :: IsNumericChar(s[i])
    ensures KeepNumeric(s) == s
    decreases |s|
  {
    if s != [] { KeepNumericKeepsNumeric(s[1..]); }
  }

  /** Characters outside `[0-9.-]` play no part: the number is that of the reduced text. */
  lemma ParseNumberReduced(s: string)
    ensures ParseNumber(s) == ParseNumber(KeepNumeric(s))
  {
    KeepNumericKeepsNumeric(KeepNumeric(s));
  }

  /** Thousands separators are ignored: `'1,671.25'` reads as `'1671.25'`. */
  lemma ParseNumberIgnoresComma(a: string, b: string)
    ensures ParseNumber(a + "," + b) == ParseNumber(a + b)
  {
    KeepNumericAppend(a + ",", b);
    KeepNumericAppend(a, ",");
    KeepNumericAppend(a, b);
    assert KeepNumeric(",") == [];
    assert KeepNumeric(a + "," + b) == KeepNumeric(a + b);
    if a + b == "" {
      EmptyNumeralIsNaN();
    }
  }

  /** The empty numeral does not parse. */
  lemma EmptyNumeralIsNaN()
    ensures ParseDecimalPrefix("") == None
  {
    assert SkipWhile("", 0, IsDigit) == 0;
  }

  /** Text without a single digit reads as 0. */
  lemma {:induction false} ParseNumberNoDigits(s: string)
    requires forall i | 0 <= i < |s| :: !IsDigit(s[i])
    ensures ParseNumber(s) == 0.0
  {
    NoDigitsKept(s);
    var t := KeepNumeric(s);
    if s != "" {
      var neg := |t| > 0 && t[0] == '-';
      var i := if neg then 1 else 0;
      assert SkipWhile(t, i, IsDigit) == i;
      if i < |t| && t[i] == '.' {
        assert SkipWhile(t, i + 1, IsDigit) == i + 1;
      }
    }
  }

  lemma {:induction false} NoDigitsKept(s: string)
    requires forall i | 0 <= i < |s| :: !IsDigit(s[i])
    ensures forall i | 0 <= i < |KeepNumeric(s)| :: !IsDigit(KeepNumeric(s)[i])
    decreases |s|
  {
    if s != [] { NoDigitsKept(s[1..]); }
  }

  /** The decimal numeral of a natural number, as the statement prints it (no separators). */
  function NatDigits(n: nat): (r: string)
    ensures |r| > 0 && forall i | 0 <= i < |r| :: IsDigit(r[i])
  {
    if n < 10 then [('0' as int + n) as char] else NatDigits(n / 10) + [('0' as int + n % 10) as char]
  }

  lemma {:induction false} DigitsValueNatDigits(n: nat)
    ensures DigitsValue(NatDigits(n)) == n
  {
    var r := NatDigits(n);
    if n >= 10 {
      DigitsValueNatDigits(n / 10);
      assert r[..|r| - 1] == NatDigits(n / 10);
    } else {
      assert r[..0] == [];
    }
  }

  /** Reading back a printed natural number gives the number. */
  lemma ParseNumberNatDigits(n: nat)
    ensures ParseNumber(NatDigits(n)) == n as real
  {
    var s := NatDigits(n);
    KeepNumericKeepsNumeric(s);
    assert SkipWhile(s, 0, IsDigit) == |s|;
    assert s[0..|s|] == s;
    DigitsValueNatDigits(n);
  }

  /** An amount of `c` hundredths printed as `<units>.<d><d>`. */
  function HundredthsText(c: nat): string
  {
    NatDigits(c / 100) + "." + [TenthsDigit(c), HundredthsDigit(c)]
  }

  /** An unsigned numeral whose digits run to `j`, then a point and digits to `k`. */
  lemma ParseDecimalUnsigned(s: string, j: nat, k: nat)
    requires 0 < j < |s| && s[0] != '-' && s[j] == '.'
    requires SkipWhile(s, 0, IsDigit) == j && SkipWhile(s, j + 1, IsDigit) == k
    ensures ParseDecimalPrefix(s) == Some(DigitsValue(s[0..j]) as real + FractionValue(s[j + 1..k]))
  {
    var kk := if j < |s| && s[j] == '.' then SkipWhile(s, j + 1, IsDigit) else j;
    assert kk == k;
    var fracDigits := if kk > j then s[j + 1..kk] else "";
    assert fracDigits == s[j + 1..k];
  }

  /** Where the parts of `q.f` lie. */
  lemma PointedParts(q: string, f: string)
    requires |q| > 0 && AllDigits(q) && AllDigits(f)
    ensures var s := q + "." + f;
      && s[0] != '-' && s[|q|] == '.' && s[0..|q|] == q && s[|q| + 1..|s|] == f
      && SkipWhile(s, 0, IsDigit) == |q| && SkipWhile(s, |q| + 1, IsDigit) == |s|
  {
    var s := q + "." + f;
    assert forall k | 0 <= k < |q| :: s[k] == q[k];
    assert forall k | |q| + 1 <= k < |s| :: s[k] == f[k - |q| - 1];
    SkipWhileRun(s, 0, |q|, IsDigit);
    SkipWhileRun(s, |q| + 1, |s|, IsDigit);
  }

  /** A numeral `q.f` with a non-empty integer part reads as its integer part plus its fraction. */
  lemma ParseDecimalPointed(q: string, f: string)
    requires |q| > 0 && AllDigits(q) && AllDigits(f)
    ensures ParseDecimalPrefix(q + "." + f) == Some(DigitsValue(q) as real + FractionValue(f))
  {
    PointedParts(q, f);
    ParseDecimalUnsigned(q + "." + f, |q|, |q + "." + f|);
  }

  /** The digit characters of the two decimals of `c` hundredths. */
  function TenthsDigit(c: nat): char { ('0' as int + (c % 100) / 10) as char }
  function HundredthsDigit(c: nat): char { ('0' as int + c % 10) as char }

  lemma HundredthsParts(c: nat)
    ensures HundredthsText(c) == NatDigits(c / 100) + "." + [TenthsDigit(c), HundredthsDigit(c)]
    ensures AllDigits([TenthsDigit(c), HundredthsDigit(c)])
    ensures DigitValue(TenthsDigit(c)) == (c % 100) / 10 && DigitValue(HundredthsDigit(c)) == c % 10
    ensures forall k | 0 <= k < |HundredthsText(c)| :: IsNumericChar(HundredthsText(c)[k])
  {
    var q := NatDigits(c / 100);
    var s := HundredthsText(c);
    forall k | 0 <= k < |s| ensures IsNumericChar(s[k]) {
      if k < |q| { assert s[k] == q[k]; }
    }
  }

  lemma FractionOfTwo(d1: char, d2: char)
    ensures FractionValue([d1, d2]) == (DigitValue(d1) as real + DigitValue(d2) as real / 10.0) / 10.0
  {
    assert [d2][1..] == [];
    assert FractionValue([d2]) == (DigitValue(d2) as real + FractionValue([])) / 10.0;
    assert [d1, d2][1..] == [d2];
    assert FractionValue([d1, d2]) == (DigitValue(d1) as real + FractionValue([d2])) / 10.0;
  }

  lemma HundredthsArithmetic(c: nat)
    ensures (c / 100) as real + (((c % 100) / 10) as real + (c % 10) as real / 10.0) / 10.0 == c as real / 100.0
  {
    var u := c / 100;
    var t := (c % 100) / 10;
    var o := c % 10;
    assert c == 100 * u + 10 * t + o;
    assert c as real == 100.0 * u as real + 10.0 * t as real + o as real;
  }

  /** Reading back a printed two-decimal amount gives the amount. */
  lemma ParseNumberHundredths(c: nat)
    ensures ParseNumber(HundredthsText(c)) == c as real / 100.0
  {
    var q := NatDigits(c / 100);
    var f := [TenthsDigit(c), HundredthsDigit(c)];
    HundredthsParts(c);
    KeepNumericKeepsNumeric(HundredthsText(c));
    ParseDecimalPointed(q, f);
    DigitsValueNatDigits(c / 100);
    FractionOfTwo(TenthsDigit(c), HundredthsDigit(c));
    HundredthsArithmetic(c);
  }

  lemma PrintedExample()
    ensures "1" + "671.25" == HundredthsText(167125)
  {
    assert NatDigits(1) == "1";
    assert NatDigits(16) == NatDigits(1) + "6" == "16";
    assert NatDigits(167) == NatDigits(16) + "7" == "167";
    assert NatDigits(1671) == NatDigits(167) + "1" == "1671";
    assert TenthsDigit(167125) == '2' && HundredthsDigit(167125) == '5';
    assert HundredthsText(167125) == "1671" + "." + "25";
  }

  /** The documented example: `'1,671.25'` reads as 1671.25. */
  lemma ParseNumberExample()
    ensures ParseNumber("1,671.25") == 1671.25
  {
    ParseNumberIgnoresComma("1", "671.25");
    CommaExample();
    PrintedExample();
    ParseNumberHundredths(167125);
  }

  lemma CommaExample()
    ensures "1" + "," + "671.25" == "1,671.25"
  {
  }

  // ---------------------------------------------------------------- parseDate

  /** `\d{2}-[A-Z]{3}-\d{4}` with the `i` flag, at index `i`. */
  predicate IsDashDateAt(s: string, i: nat)
  {
    i + 11 <= |s| && IsDigit(s[i]) && IsDigit(s[i + 1]) && s[i + 2] == '-'
    && IsLetter(s[i + 3]) && IsLetter(s[i + 4]) && IsLetter(s[i + 5]) && s[i + 6] == '-'
    && IsDigit(s[i + 7]) && IsDigit(s[i + 8]) && IsDigit(s[i + 9]) && IsDigit(s[i + 10])
  }

  /** `\d{2}\/\d{2}\/\d{4}` at index `i`. */
  predicate IsSlashDateAt(s: string, i: nat)
  {
    i + 10 <= |s| && IsDigit(s[i]) && IsDigit(s[i + 1]) && s[i + 2] == '/'
    && IsDigit(s[i + 3]) && IsDigit(s[i + 4]) && s[i + 5] == '/'
    && IsDigit(s[i + 6]) && IsDigit(s[i + 7]) && IsDigit(s[i + 8]) && IsDigit(s[i + 9])
  }

  /** The first index at or after `from` where a `DD-MMM-YYYY` date starts (`regex.test`). */
  function FindDashDate(s: string, from: nat): (r: Option<nat>)
    ensures r.Some? ==> from <= r.value && IsDashDateAt(s, r.value)
    ensures r.None? ==> forall i | from <= i :: !IsDashDateAt(s, i)
    decreases |s| - from
  {
    if from + 11 > |s| then None
    else if IsDashDateAt(s, from) then Some(from)
    else FindDashDate(s, from + 1)
  }

  /** The first index at or after `from` where a `DD/MM/YYYY` date starts. */
  function FindSlashDate(s: string, from: nat): (r: Option<nat>)
    ensures r.Some? ==> from <= r.value && IsSlashDateAt(s, r.value)
    ensures r.None? ==> forall i | from <= i :: !IsSlashDateAt(s, i)
    decreases |s| - from
  {
    if from + 10 > |s| then None
    else if IsSlashDateAt(s, from) then Some(from)
    else FindSlashDate(s, from + 1)
  }

  /** The month table of `parseDate`, keyed by upper-case abbreviation. */
  const Months: map<string, string> := map[
    "JAN" := "01", "FEB" := "02", "MAR" := "03", "APR" := "04",
    "MAY" := "05", "JUN" := "06", "JUL" := "07", "AUG" := "08",
    "SEP" := "09", "OCT" := "10", "NOV" := "11", "DEC" := "12"]

  /**
   * `parseDate`. When a `DD-MMM-YYYY` date occurs anywhere, the text is split at `-` and
   * reassembled as part 2, month number of part 1, part 0 (an unknown abbreviation prints as
   * `undefined`, as a template literal prints a missing table entry); otherwise, when a
   * `DD/MM/YYYY` date occurs, split at `/` and reassembled as parts 2, 1, 0; otherwise unchanged.
   */
  function ParseDate(s: string): (r: string)
    ensures FindDashDate(s, 0).None? && FindSlashDate(s, 0).None? ==> r == s
  {
    match FindDashDate(s, 0)
    case Some(i) =>
      SplitTwoSeps(s, '-', i + 2, i + 6);
      var parts := Split(s, '-');
      var key := ToUpper(parts[1]);
      var month := if key in Months then Months[key] else "undefined";
      parts[2] + "-" + month + "-" + parts[0]
    case None =>
      match FindSlashDate(s, 0)
      case Some(i) =>
        SplitTwoSeps(s, '/', i + 2, i + 5);
        var parts := Split(s, '/');
        parts[2] + "-" + parts[1] + "-" + parts[0]
      case None => s
  }

  predicate AllDigits(s: string) { forall i | 0 <= i < |s| :: IsDigit(s[i]) }
  predicate AllLetters(s: string) { forall i | 0 <= i < |s| :: IsLetter(s[i]) }

  /** `DD-MMM-YYYY` with a known month, in any letter case, becomes `YYYY-MM-DD`. */
  lemma ParseDateDash(dd: string, mon: string, yyyy: string)
    requires |dd| == 2 && AllDigits(dd) && |mon| == 3 && AllLetters(mon) && |yyyy| == 4 && AllDigits(yyyy)
    requires ToUpper(mon) in Months
    ensures ParseDate(dd + "-" + mon + "-" + yyyy) == yyyy + "-" + Months[ToUpper(mon)] + "-" + dd
  {
    DashDateParts(dd, mon, yyyy);
  }

  lemma DashDateParts(dd: string, mon: string, yyyy: string)
    requires |dd| == 2 && AllDigits(dd) && |mon| == 3 && AllLetters(mon) && |yyyy| == 4 && AllDigits(yyyy)
    ensures FindDashDate(dd + "-" + mon + "-" + yyyy, 0) == Some(0)
    ensures Split(dd + "-" + mon + "-" + yyyy, '-') == [dd, mon, yyyy]
  {
    var s := dd + "-" + mon + "-" + yyyy;
    assert IsDashDateAt(s, 0) by {
      assert s[0] == dd[0] && s[1] == dd[1] && s[2] == '-';
      assert s[3] == mon[0] && s[4] == mon[1] && s[5] == mon[2] && s[6] == '-';
      assert s[7] == yyyy[0] && s[8] == yyyy[1] && s[9] == yyyy[2] && s[10] == yyyy[3];
    }
    DashSplit(dd, mon, yyyy);
  }

  lemma DashSplit(dd: string, mon: string, yyyy: string)
    requires |dd| == 2 && AllDigits(dd) && |mon| == 3 && AllLetters(mon) && |yyyy| == 4 && AllDigits(yyyy)
    ensures Split(dd + "-" + mon + "-" + yyyy, '-') == [dd, mon, yyyy]
  {
    var s := dd + "-" + mon + "-" + yyyy;
    assert s == dd + ['-'] + (mon + ['-'] + yyyy);
    SplitFirst(dd, '-', mon + ['-'] + yyyy);
    SplitFirst(mon, '-', yyyy);
    SplitNoSep(yyyy, '-');
  }

  /** `DD/MM/YYYY` becomes `YYYY-MM-DD`. */
  lemma ParseDateSlash(dd: string, mm: string, yyyy: string)
    requires |dd| == 2 && AllDigits(dd) && |mm| == 2 && AllDigits(mm) && |yyyy| == 4 && AllDigits(yyyy)
    ensures ParseDate(dd + "/" + mm + "/" + yyyy) == yyyy + "-" + mm + "-" + dd
  {
    var s := dd + "/" + mm + "/" + yyyy;
    assert IsSlashDateAt(s, 0);
    assert |s| == 10;
    assert FindDashDate(s, 0).None?;
    assert s == dd + ['/'] + (mm + ['/'] + yyyy);
    SplitFirst(dd, '/', mm + ['/'] + yyyy);
    SplitFirst(mm, '/', yyyy);
    SplitNoSep(yyyy, '/');
  }

  // ---------------------------------------------------------------- extractBetween

  /**
   * A search pattern as `String.match` uses it: an anchored matcher that says, for a start
   * position, whether the pattern matches there and where that match ends.
   */
  type Pattern = (string, nat) -> Option<nat>

  /**
   * `extractBetween`: empty when the start pattern does not match; otherwise the text after the
   * leftmost start match (`substring` clamps a start past the end to the end), cut before the
   * leftmost end match in it when there is one, and trimmed.
   */
  function ExtractBetween(text: string, startPattern: Pattern, endPattern: Pattern): (r: string)
  {
    match FirstMatch(text, 0, startPattern)
    case None => ""
    case Some(f) =>
      var startIndex := f.value;
      var rest := if startIndex <= |text| then text[startIndex..] else "";
      match FirstMatch(rest, 0, endPattern)
      case None => Trim(rest)
      case Some(g) => Trim(rest[..g.pos])
  }

  /** No start match anywhere: nothing is extracted. */
  lemma ExtractBetweenNoStart(text: string, startPattern: Pattern, endPattern: Pattern)
    requires forall p | 0 <= p <= |text| :: startPattern(text, p).None?
    ensures ExtractBetween(text, startPattern, endPattern) == ""
  {
  }

  /**
   * The leftmost start match is at `i` and ends at `e`, and the leftmost end match after it
   * starts `j` characters on: the result is the trimmed text strictly between the two.
   */
  lemma ExtractBetweenLayout(text: string, startPattern: Pattern, endPattern: Pattern, i: nat, e: nat, j: nat)
    requires i <= e <= |text| && startPattern(text, i) == Some(e)
    requires forall p | 0 <= p < i :: startPattern(text, p).None?
    requires e + j <= |text| && endPattern(text[e..], j).Some?
    requires forall p | 0 <= p < j :: endPattern(text[e..], p).None?
    ensures ExtractBetween(text, startPattern, endPattern) == Trim(text[e..e + j])
  {
    FirstMatchIs(text, startPattern, i);
    FirstMatchIs(text[e..], endPattern, j);
    assert text[e..][..j] == text[e..e + j];
  }

  /**
   * The leftmost start match is at `i` and ends at `e`, and the end pattern matches nowhere
   * after it: the result is the trimmed rest of the text.
   */
  lemma ExtractBetweenNoEnd(text: string, startPattern: Pattern, endPattern: Pattern, i: nat, e: nat)
    requires i <= e <= |text| && startPattern(text, i) == Some(e)
    requires forall p | 0 <= p < i :: startPattern(text, p).None?
    requires forall p | 0 <= p <= |text| - e :: endPattern(text[e..], p).None?
    ensures ExtractBetween(text, startPattern, endPattern) == Trim(text[e..])
  {
    FirstMatchIs(text, startPattern, i);
  }

  /** A match at `i` with none before it is the leftmost match. */
  lemma FirstMatchIs(s: string, m: Pattern, i: nat)
    requires i <= |s| && m(s, i).Some?
    requires forall p | 0 <= p < i :: m(s, p).None?
    ensures FirstMatch(s, 0, m) == Some(Found(i, m(s, i).value))
  {
  }

  /** A literal marker as a pattern: it matches where the text has it, and ends after it. */
  function Literal(t: string): (m: Pattern)
    ensures forall s: string, p: nat :: m(s, p).Some? <==> At(s, p, t)
  {
    (s: string, p: nat) => if At(s, p, t) then Some(p + |t|) else None
  }

  /** With literal markers the layout reads as before: the text strictly between the first two. */
  lemma ExtractBetweenLiteral(text: string, before: string, start: string, rest: string, middle: string, end: string)
    requires text == before + start + rest
    requires |middle| + |end| <= |rest| && rest[..|middle| + |end|] == middle + end
    requires forall p | 0 <= p < |before| :: !At(text, p, start)
    requires forall p | 0 <= p < |middle| :: !At(rest, p, end)
    ensures ExtractBetween(text, Literal(start), Literal(end)) == Trim(middle)
  {
    var i, e, j := |before|, |before| + |start|, |middle|;
    var sp, ep := Literal(start), Literal(end);
    assert text[i..e] == start;
    assert sp(text, i) == Some(e);
    assert text[e..] == rest;
    assert rest[j..j + |end|] == (middle + end)[j..];
    assert ep(rest, j).Some?;
    assert forall p | 0 <= p < i :: sp(text, p).None?;
    assert forall p | 0 <= p < j :: ep(rest, p).None?;
    ExtractBetweenLayout(text, sp, ep, i, e, j);
    assert rest[..j] == (middle + end)[..j];
    assert text[e..e + j] == rest[..j];
  }

  // ---------------------------------------------------------------- insurance, metadata, summary

  /** `extractInsurance`: the reference issuer lists no policies. */
  function ExtractInsurance(): (r: Insurance)
    ensures |r.lifeInsurancePolicies| == 0
  {
    Insurance([])
  }

  /** `new Date().toISOString().split('.')[0]`: the timestamp cut before its fraction of a second. */
  function GeneratedAt(isoNow: string): (r: string)
    ensures forall i | 0 <= i < |r| :: r[i] != '.'
    ensures |r| <= |isoNow| && r == isoNow[..|r|]
  {
    var i := SkipWhile(isoNow, 0, c => c != '.');
    isoNow[..i]
  }

  /** `extractMetadata`. */
  function ExtractMetadata(casType: string, isoNow: string, period: Period): (m: Meta)
    ensures m.casType == casType && m.statementPeriod == period
    ensures m.generatedAt == GeneratedAt(isoNow)
  {
    Meta(casType, GeneratedAt(isoNow), period)
  }

  /**
   * The summary `calculateSummary` computes: counts are list lengths, each class total is the
   * sum of the members' values, and the grand total is the sum of the three class totals.
   */
  function SummaryOf(accounts: seq<DematAccount>, folios: seq<Folio>, insurance: Insurance): (s: Summary)
    ensures s.demat.count == |accounts| && s.mutualFunds.count == |folios|
    ensures s.insurance.count == |insurance.lifeInsurancePolicies|
    ensures s.totalValue == s.demat.totalValue + s.mutualFunds.totalValue + s.insurance.totalValue
  {
    var d := AccountsSum(accounts);
    var m := FoliosSum(folios);
    var p := PoliciesSum(insurance.lifeInsurancePolicies);
    Summary(ClassTotal(|accounts|, d), ClassTotal(|folios|, m),
            ClassTotal(|insurance.lifeInsurancePolicies|, p), d + m + p)
  }

  /** `calculateSummary`: three accumulation loops, then the grand total. */
  method CalculateSummary(data: CasData) returns (summary: Summary)
    ensures summary == SummaryOf(data.dematAccounts, data.mutualFunds, data.insurance)
  {
    var accounts := data.dematAccounts;
    var folios := data.mutualFunds;
    var policies := data.insurance.lifeInsurancePolicies;
    var demat := 0.0;
    var k := 0;
    while k < |accounts|
      invariant 0 <= k <= |accounts|
      invariant demat == AccountsSum(accounts[..k])
    {
      assert accounts[..k + 1][..k] == accounts[..k];
      demat := demat + accounts[k].value;
      k := k + 1;
    }
    assert accounts[..k] == accounts;
    var funds := 0.0;
    k := 0;
    while k < |folios|
      invariant 0 <= k <= |folios|
      invariant funds == FoliosSum(folios[..k])
    {
      assert folios[..k + 1][..k] == folios[..k];
      funds := funds + folios[k].value;
      k := k + 1;
    }
    assert folios[..k] == folios;
    var insured := 0.0;
    k := 0;
    while k < |policies|
      invariant 0 <= k <= |policies|
      invariant insured == PoliciesSum(policies[..k])
    {
      assert policies[..k + 1][..k] == policies[..k];
      insured := insured + policies[k].value;
      k := k + 1;
    }
    assert policies[..k] == policies;
    summary := Summary(ClassTotal(|accounts|, demat), ClassTotal(|folios|, funds),
                       ClassTotal(|policies|, insured), demat + funds + insured);
  }

  /** With the empty insurance placeholder the insurance class counts nothing and totals 0. */
  lemma SummaryInsuranceEmpty(accounts: seq<DematAccount>, folios: seq<Folio>)
    ensures SummaryOf(accounts, folios, ExtractInsurance()).insurance == ClassTotal(0, 0.0)
    ensures SummaryOf(accounts, folios, ExtractInsurance()).totalValue == AccountsSum(accounts) + FoliosSum(folios)
  {
  }

  /** Splitting the account list splits the demat total. */
  lemma SummaryDematAdditive(a: seq<DematAccount>, b: seq<DematAccount>, folios: seq<Folio>, insurance: Insurance)
    ensures SummaryOf(a + b, folios, insurance).demat.totalValue
         == SummaryOf(a, folios, insurance).demat.totalValue + SummaryOf(b, folios, insurance).demat.totalValue
  {
    AccountsSumAppend(a, b);
  }
}
