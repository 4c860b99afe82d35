/** The compatibility matrix: identity of a Marstek device (model string,
    firmware number, hardware version, model family key), its capabilities,
    and the firmware-dependent divisors that turn raw protocol fields into
    physical units.

    Python's regular expressions, str.isalnum, str.lower and int() are modelled
    on ASCII: a digit is '0'..'9', whitespace is the ASCII whitespace Python
    recognises, letters are 'a'..'z' and 'A'..'Z'. */
module Compatibility {
  import opened Common

  const HwVersion2 := "2.0"
  const HwVersion3 := "3.0"
  const HwVersionAny := "*"
  const ModelAny := "*"

  /** Known device families, in the order they are tried. */
  const ModelTokens: seq<string> := ["venusa", "venusb", "venusc", "venusd", "venuse"]

  // ---------------------------------------------------------------------
  // Characters

  predicate IsDigit(c: char) { '0' <= c <= '9' }

  predicate IsUpper(c: char) { 'A' <= c <= 'Z' }

  predicate IsLower(c: char) { 'a' <= c <= 'z' }

  predicate IsAlnum(c: char) { IsDigit(c) || IsUpper(c) || IsLower(c) }

  /** The ASCII characters Python treats as whitespace (regex \s, int(), str.strip). */
  predicate IsSpace(c: char)
  {
    c == ' ' || ('\t' <= c <= '\r') || ('\U{1C}' <= c <= '\U{1F}')
  }

  function ToLower(c: char): (r: char)
    ensures IsAlnum(c) ==> IsAlnum(r) && !IsUpper(r)
    ensures IsUpper(c) ==> IsLower(r) && r as int == c as int + 32
    ensures !IsUpper(c) ==> r == c
  {
    if IsUpper(c) then (c as int - 'A' as int + 'a' as int) as char else c
  }

  predicate AllDigits(s: string) { forall i :: 0 <= i < |s| ==> IsDigit(s[i]) }

  predicate HasDigit(s: string) { exists i :: 0 <= i < |s| && IsDigit(s[i]) }

  predicate NoSpace(s: string) { forall i :: 0 <= i < |s| ==> !IsSpace(s[i]) }

  predicate AllSpace(s: string) { forall i :: 0 <= i < |s| ==> IsSpace(s[i]) }

  // ---------------------------------------------------------------------
  // Firmware version

  /** The firmware value as the caller supplies it: None, an int or a string. */
  datatype FirmwareInput = FwNone | FwInt(n: int) | FwText(s: string)

  function DigitValue(c: char): nat
    requires IsDigit(c)
  {
    c as int - '0' as int
  }

  function DigitChar(d: nat): (c: char)
    requires d < 10
    ensures IsDigit(c) && DigitValue(c) == d
  {
    ('0' as int + d) as char
  }

  /** The value of a string of decimal digits. */
  function DigitsValue(ds: string): nat
    requires AllDigits(ds)
  {
    if ds == [] then 0 else DigitsValue(ds[..|ds| - 1]) * 10 + DigitValue(ds[|ds| - 1])
  }

  /** Python's str() of a natural number. */
  function NatToText(n: nat): (s: string)
    ensures |s| > 0 && AllDigits(s)
  {
    if n < 10 then [DigitChar(n)] else NatToText(n / 10) + [DigitChar(n % 10)]
  }

  /** Python's str() of an int. */
  function IntToText(n: int): string
  {
    if n < 0 then "-" + NatToText(-n) else NatToText(n)
  }

  /** The start of the run of whitespace that ends at j. */
  function SpaceRunStart(s: string, j: nat): (i: nat)
    requires j <= |s|
    ensures i <= j
    ensures forall k :: i <= k < j ==> IsSpace(s[k])
    ensures i == 0 || !IsSpace(s[i - 1])
  {
    if 0 < j && IsSpace(s[j - 1]) then SpaceRunStart(s, j - 1) else j
  }

  /** str.lstrip(): drop the leading whitespace. */
  function TrimLeft(s: string): (r: string)
    ensures |r| <= |s| && r == s[|s| - |r|..]
    ensures forall k :: 0 <= k < |s| - |r| ==> IsSpace(s[k])
    ensures r == [] || !IsSpace(r[0])
  {
    s[SpaceRunEnd(s, 0)..]
  }

  /** str.rstrip(): drop the trailing whitespace. */
  function TrimRight(s: string): (r: string)
    ensures |r| <= |s| && r == s[..|r|]
    ensures forall k :: |r| <= k < |s| ==> IsSpace(s[k])
    ensures r == [] || !IsSpace(r[|r| - 1])
  {
    s[..SpaceRunStart(s, |s|)]
  }

  /** int() of text with no surrounding whitespace: an optional sign, then
      one or more decimal digits. */
  function ParseSigned(t: string): (r: Option<int>)
    ensures r.Some? ==> |t| > 0 && (IsDigit(t[0]) || (|t| > 1 && IsDigit(t[1])))
  {
    if |t| > 1 && (t[0] == '-' || t[0] == '+') && AllDigits(t[1..]) then
      assert IsDigit(t[1..][0]);
      var v: int := DigitsValue(t[1..]);
      Some(if t[0] == '-' then -v else v)
    else if |t| > 0 && AllDigits(t) then
      Some(DigitsValue(t))
    else
      None
  }

  /** Python's int(text): surrounding whitespace, an optional sign, then one
      or more decimal digits; anything else is a ValueError (None here). */
  function ParseInt(s: string): (r: Option<int>)
    ensures r.Some? ==> HasDigit(s)
  {
    var l := TrimLeft(s);
    var t := TrimRight(l);
    var r := ParseSigned(t);
    assert r.Some? ==> HasDigit(s) by {
      if r.Some? {
        var k := if IsDigit(t[0]) then 0 else 1;
        assert t[k] == l[k] == s[|s| - |l| + k];
      }
    }
    r
  }

  /** _parse_firmware_version: None gives 0, an int passes through, a string
      is parsed and falls back to 0 when it is not a decimal integer. */
  function ParseFirmwareVersion(fw: FirmwareInput): (r: int)
    ensures fw.FwNone? ==> r == 0
    ensures fw.FwInt? ==> r == fw.n
    ensures fw.FwText? && ParseInt(fw.s).None? ==> r == 0
    ensures fw.FwText? && r != 0 ==> HasDigit(fw.s)
  {
    match fw
    case FwNone => 0
    case FwInt(n) => n
    case FwText(s) =>
      match ParseInt(s)
      case Some(n) => n
      case None => 0
  }

  lemma {:induction false} DigitsValueOfNatToText(n: nat)
    ensures DigitsValue(NatToText(n)) == n
  {
    if n >= 10 {
      DigitsValueOfNatToText(n / 10);
      var s := NatToText(n / 10) + [DigitChar(n % 10)];
      assert s[..|s| - 1] == NatToText(n / 10);
    }
  }

  /** Firmware given as the text of an int reads back as that int. */
  lemma FirmwareTextRoundTrip(n: int)
    ensures ParseFirmwareVersion(FwText(IntToText(n))) == n
  {
    if n < 0 {
      DigitsValueOfNatToText(-n);
      ParseNegativeDigits(NatToText(-n));
    } else {
      DigitsValueOfNatToText(n);
      ParseDigits(NatToText(n));
    }
  }

  lemma TrimNothing(s: string)
    requires s != [] && !IsSpace(s[0]) && !IsSpace(s[|s| - 1])
    ensures TrimRight(TrimLeft(s)) == s
  {
    assert TrimLeft(s) == s;
  }

  lemma ParseDigits(ds: string)
    requires ds != [] && AllDigits(ds)
    ensures ParseInt(ds) == Some(DigitsValue(ds))
  {
    TrimNothing(ds);
  }

  lemma ParseNegativeDigits(ds: string)
    requires ds != [] && AllDigits(ds)
    ensures ParseInt("-" + ds) == Some(-(DigitsValue(ds) as int))
  {
    var s := "-" + ds;
    assert s[0] == '-' && s[1..] == ds;
    assert s[|s| - 1] == ds[|ds| - 1];
    TrimNothing(s);
    var t := TrimRight(TrimLeft(s));
    assert t == s;
    assert |t| > 1 && t[0] == '-' && AllDigits(t[1..]);
  }

  /** A firmware string without a single digit cannot be parsed and reads as 0. */
  lemma FirmwareWithoutDigitsIsZero(s: string)
    requires !HasDigit(s)
    ensures ParseFirmwareVersion(FwText(s)) == 0
  {
  }

  /** The shape int() accepts: whitespace, an optional sign, one or more
      digits, whitespace. */
  predicate IntTextParts(s: string, lead: string, sign: string, ds: string, trail: string)
  {
    AllSpace(lead) && AllSpace(trail) && (sign == "" || sign == "+" || sign == "-")
    && ds != [] && AllDigits(ds) && s == lead + (sign + ds) + trail
  }

  lemma TrimLeftSpaces(w: string, x: string)
    requires AllSpace(w) && x != [] && !IsSpace(x[0])
    ensures TrimLeft(w + x) == x
  {
    var s := w + x;
    assert s[|w|] == x[0];
    assert s[|w|..] == x;
  }

  lemma TrimRightSpaces(x: string, w: string)
    requires AllSpace(w) && x != [] && !IsSpace(x[|x| - 1])
    ensures TrimRight(x + w) == x
  {
    var s := x + w;
    assert s[|x| - 1] == x[|x| - 1];
    assert s[..|x|] == x;
  }

  lemma ParseSignedOf(sign: string, ds: string)
    requires sign == "" || sign == "+" || sign == "-"
    requires ds != [] && AllDigits(ds)
    ensures ParseSigned(sign + ds) == Some(if sign == "-" then -(DigitsValue(ds) as int) else DigitsValue(ds))
  {
    var t := sign + ds;
    if sign == "" {
      assert t == ds;
    } else {
      assert t[0] == sign[0];
      assert t[1..] == ds;
    }
  }

  lemma ParseIntOfCore(s: string, sign: string, ds: string)
    requires sign == "" || sign == "+" || sign == "-"
    requires ds != [] && AllDigits(ds)
    requires TrimRight(TrimLeft(s)) == sign + ds
    ensures ParseInt(s) == Some(if sign == "-" then -(DigitsValue(ds) as int) else DigitsValue(ds))
  {
    ParseSignedOf(sign, ds);
  }

  /** int() of whitespace, an optional sign, digits and whitespace is the
      signed value of the digits. */
  lemma ParseIntAccepts(lead: string, sign: string, ds: string, trail: string)
    requires IntTextParts(lead + (sign + ds) + trail, lead, sign, ds, trail)
    ensures ParseInt(lead + (sign + ds) + trail) == Some(if sign == "-" then -(DigitsValue(ds) as int) else DigitsValue(ds))
  {
    var core := sign + ds;
    var rest := core + trail;
    assert lead + (sign + ds) + trail == lead + rest;
    assert rest[0] == core[0] && !IsSpace(core[0]) by {
      if sign == "" {
        assert core[0] == ds[0];
      } else {
        assert core[0] == sign[0];
      }
    }
    TrimLeftSpaces(lead, rest);
    assert core[|core| - 1] == ds[|ds| - 1];
    TrimRightSpaces(core, trail);
    ParseIntOfCore(lead + (sign + ds) + trail, sign, ds);
  }

  lemma SignedParts(t: string) returns (sign: string, ds: string)
    requires ParseSigned(t).Some?
    ensures sign == "" || sign == "+" || sign == "-"
    ensures ds != [] && AllDigits(ds) && t == sign + ds
  {
    if |t| > 1 && (t[0] == '-' || t[0] == '+') && AllDigits(t[1..]) {
      sign, ds := t[..1], t[1..];
      assert sign == [t[0]];
    } else {
      sign, ds := "", t;
    }
  }

  lemma LeadSplit(s: string)
    ensures AllSpace(s[..|s| - |TrimLeft(s)|])
    ensures s == s[..|s| - |TrimLeft(s)|] + TrimLeft(s)
  {
    var p := |s| - |TrimLeft(s)|;
    assert s[..p] + s[p..] == s;
  }

  lemma TrailSplit(l: string)
    ensures AllSpace(l[|TrimRight(l)|..])
    ensures l == TrimRight(l) + l[|TrimRight(l)|..]
  {
    var t := TrimRight(l);
    assert l[..|t|] + l[|t|..] == l;
  }

  lemma StripParts(s: string) returns (lead: string, trail: string)
    ensures AllSpace(lead) && AllSpace(trail)
    ensures s == lead + TrimRight(TrimLeft(s)) + trail
  {
    var l := TrimLeft(s);
    var t := TrimRight(l);
    LeadSplit(s);
    TrailSplit(l);
    lead := s[..|s| - |l|];
    trail := l[|t|..];
    assert lead + (t + trail) == lead + t + trail;
  }

  /** Text int() accepts has the accepted shape. */
  lemma ParseIntShape(s: string) returns (lead: string, sign: string, ds: string, trail: string)
    requires ParseInt(s).Some?
    ensures IntTextParts(s, lead, sign, ds, trail)
  {
    var t := TrimRight(TrimLeft(s));
    assert ParseSigned(t).Some?;
    lead, trail := StripParts(s);
    sign, ds := SignedParts(t);
  }

  /** int(text) succeeds exactly on text of the accepted shape. */
  lemma ParseIntIff(s: string)
    ensures ParseInt(s).Some? <==> exists lead, sign, ds, trail :: IntTextParts(s, lead, sign, ds, trail)
  {
    if ParseInt(s).Some? {
      var lead, sign, ds, trail := ParseIntShape(s);
    }
    if exists lead, sign, ds, trail :: IntTextParts(s, lead, sign, ds, trail) {
      var lead, sign, ds, trail :| IntTextParts(s, lead, sign, ds, trail);
      ParseIntAccepts(lead, sign, ds, trail);
    }
  }

  /** int() refuses text whose stripped core holds a character other than a
      digit, apart from a leading sign. */
  lemma ParseIntRejects(s: string, k: nat)
    requires var t := TrimRight(TrimLeft(s));
      k < |t| && !IsDigit(t[k]) && !(k == 0 && (t[0] == '-' || t[0] == '+'))
    ensures ParseInt(s).None?
  {
    var t := TrimRight(TrimLeft(s));
    if 0 < k && |t| > 1 {
      assert t[1..][k - 1] == t[k];
    }
  }

  /** Text such as "1.5" or "v139" is not an int and reads as firmware 0. */
  lemma FirmwareRejectsMixedText()
    ensures ParseFirmwareVersion(FwText("1.5")) == 0
    ensures ParseFirmwareVersion(FwText("v139")) == 0
  {
    var a := "1.5";
    assert SpaceRunEnd(a, 0) == 0 && SpaceRunStart(a, 3) == 3;
    assert TrimRight(TrimLeft(a)) == a;
    ParseIntRejects(a, 1);
    var b := "v139";
    assert SpaceRunEnd(b, 0) == 0 && SpaceRunStart(b, 4) == 4;
    assert TrimRight(TrimLeft(b)) == b;
    ParseIntRejects(b, 0);
  }

  // ---------------------------------------------------------------------
  // Hardware version: the first match of the regular expression (\d+\.\d+)

  /** End of the run of digits that starts at i. */
  function DigitRunEnd(s: string, i: nat): (j: nat)
    requires i <= |s|
    ensures i <= j <= |s|
    ensures forall k :: i <= k < j ==> IsDigit(s[k])
    ensures j == |s| || !IsDigit(s[j])
    decreases |s| - i
  {
    if i < |s| && IsDigit(s[i]) then DigitRunEnd(s, i + 1) else i
  }

  /** A hardware-version token: digits, a dot, digits. */
  predicate IsVersionToken(t: string)
  {
    exists k :: 0 < k < |t| - 1 && t[k] == '.' && forall m :: 0 <= m < |t| && m != k ==> IsDigit(t[m])
  }

  /** Where the match of \d+\.\d+ anchored at i ends, if it matches there.
      Both digit runs are greedy; a shorter first run cannot be followed by
      the dot, so the only candidate is the full run. */
  function VersionMatchAt(s: string, i: nat): (r: Option<nat>)
    requires i <= |s|
    ensures r.Some? ==> i < r.value <= |s| && IsVersionToken(s[i..r.value])
    ensures r.Some? ==> r.value == |s| || !IsDigit(s[r.value])
  {
    if i < |s| && IsDigit(s[i]) then
      var j := DigitRunEnd(s, i);
      if j + 1 < |s| && s[j] == '.' && IsDigit(s[j + 1]) then
        var e := DigitRunEnd(s, j + 1);
        assert IsVersionToken(s[i..e]) by {
          var t := s[i..e];
          assert 0 < j - i < |t| - 1 && t[j - i] == '.';
          forall m | 0 <= m < |t| && m != j - i ensures IsDigit(t[m]) {
            assert t[m] == s[i + m];
          }
        }
        Some(e)
      else
        None
    else
      None
  }

  /** The dot of a version token s[i..e], with digits on either side. */
  lemma VersionTokenDot(s: string, i: nat, e: nat) returns (k: nat)
    requires i < e <= |s| && IsVersionToken(s[i..e])
    ensures i < k < e - 1 && s[k] == '.'
    ensures forall m :: i <= m < k ==> IsDigit(s[m])
    ensures forall m :: k < m < e ==> IsDigit(s[m])
  {
    var t := s[i..e];
    var j :| 0 < j < |t| - 1 && t[j] == '.' && forall m :: 0 <= m < |t| && m != j ==> IsDigit(t[m]);
    k := i + j;
    forall m | i <= m < e && m != k ensures IsDigit(s[m]) {
      assert s[m] == t[m - i];
    }
  }

  /** Wherever a version token starts, the pattern matches there, and the
      match runs on to the end of the token's last digit run. */
  lemma VersionMatchComplete(s: string, i: nat, e: nat)
    requires i < e <= |s| && IsVersionToken(s[i..e])
    ensures VersionMatchAt(s, i) == Some(DigitRunEnd(s, e))
  {
    var k := VersionTokenDot(s, i, e);
    DigitRunFrom(s, i, k);
    assert IsDigit(s[k + 1]);
    DigitRunSkip(s, k + 1, e);
  }

  lemma {:induction false} DigitRunSkip(s: string, i: nat, j: nat)
    requires i <= j <= |s|
    requires forall k :: i <= k < j ==> IsDigit(s[k])
    ensures DigitRunEnd(s, i) == DigitRunEnd(s, j)
    decreases j - i
  {
    if i < j {
      DigitRunSkip(s, i + 1, j);
    }
  }

  /** re.search: the leftmost position at or after i where the pattern matches. */
  function FindVersion(s: string, i: nat): (r: Option<(nat, nat)>)
    requires i <= |s|
    ensures r.Some? ==> i <= r.value.0 <= |s| && VersionMatchAt(s, r.value.0) == Some(r.value.1)
    ensures r.Some? ==> forall k :: i <= k < r.value.0 ==> VersionMatchAt(s, k).None?
    ensures r.None? ==> forall k :: i <= k <= |s| ==> VersionMatchAt(s, k).None?
    decreases |s| - i
  {
    match VersionMatchAt(s, i)
    case Some(e) => Some((i, e))
    case None => if i == |s| then None else FindVersion(s, i + 1)
  }

  /** parse_hardware_version. */
  function ParseHardwareVersion(model: string): (r: string)
    ensures IsVersionToken(r)
    ensures FindVersion(model, 0).None? ==> r == HwVersion2
    ensures FindVersion(model, 0).Some? ==> r == model[FindVersion(model, 0).value.0..FindVersion(model, 0).value.1]
  {
    assert HwVersion2[1] == '.' && IsDigit(HwVersion2[0]) && IsDigit(HwVersion2[2]);
    if model == "" then HwVersion2
    else
      match FindVersion(model, 0)
      case Some((b, e)) => model[b..e]
      case None => HwVersion2
  }

  /** The hardware version is the first version token of the model string,
      and the default when there is none. */
  lemma HardwareVersionIsFirstToken(model: string, b: nat)
    requires b <= |model| && VersionMatchAt(model, b).Some?
    requires forall k :: 0 <= k < b ==> VersionMatchAt(model, k).None?
    ensures ParseHardwareVersion(model) == model[b..VersionMatchAt(model, b).value]
  {
    var r := FindVersion(model, 0);
    assert r.Some?;
    assert r.value.0 == b;
    assert model != "" by {
      assert b < VersionMatchAt(model, b).value <= |model|;
    }
  }

  lemma HardwareVersionDefault(model: string)
    requires forall k :: 0 <= k <= |model| ==> VersionMatchAt(model, k).None?
    ensures ParseHardwareVersion(model) == HwVersion2
  {
  }

  /** A model holding a version token anywhere has its hardware version
      taken from a match that starts no later than that token. */
  lemma HardwareVersionFound(model: string, i: nat, e: nat)
    requires i < e <= |model| && IsVersionToken(model[i..e])
    ensures FindVersion(model, 0).Some? && FindVersion(model, 0).value.0 <= i
    ensures ParseHardwareVersion(model) == model[FindVersion(model, 0).value.0..FindVersion(model, 0).value.1]
  {
    VersionMatchComplete(model, i, e);
  }

  // ---------------------------------------------------------------------
  // Base model: re.sub(r"\s+\d+\.\d+.*$", "", model)

  function SpaceRunEnd(s: string, i: nat): (j: nat)
    requires i <= |s|
    ensures i <= j <= |s|
    ensures forall k :: i <= k < j ==> IsSpace(s[k])
    ensures j == |s| || !IsSpace(s[j])
    decreases |s| - i
  {
    if i < |s| && IsSpace(s[i]) then SpaceRunEnd(s, i + 1) else i
  }

  /** First newline at or after i, or the end of the string. */
  function LineEnd(s: string, i: nat): (e: nat)
    requires i <= |s|
    ensures i <= e <= |s|
    ensures e == |s| || s[e] == '\n'
    ensures forall k :: i <= k < e ==> s[k] != '\n'
    decreases |s| - i
  {
    if i < |s| && s[i] != '\n' then LineEnd(s, i + 1) else i
  }

  /** Where the match of \s+\d+\.\d+.*$ anchored at i ends, if it matches.
      `.` stops at a newline and `$` holds at the end of the string or just
      before a final newline. */
  function SuffixMatchAt(s: string, i: nat): (r: Option<nat>)
    requires i <= |s|
    ensures r.Some? ==> i < r.value <= |s| && (r.value == |s| || r.value == |s| - 1)
    ensures r.Some? ==> IsSpace(s[i]) && VersionMatchAt(s, SpaceRunEnd(s, i)).Some?
  {
    if i < |s| && IsSpace(s[i]) then
      var q := SpaceRunEnd(s, i);
      match VersionMatchAt(s, q)
      case None => None
      case Some(t) =>
        var e := LineEnd(s, t);
        if e == |s| || e == |s| - 1 then Some(e) else None
    else
      None
  }

  function FindSuffix(s: string, i: nat): (r: Option<(nat, nat)>)
    requires i <= |s|
    ensures r.Some? ==> i <= r.value.0 <= |s| && SuffixMatchAt(s, r.value.0) == Some(r.value.1)
    decreases |s| - i
  {
    match SuffixMatchAt(s, i)
    case Some(e) => Some((i, e))
    case None => if i == |s| then None else FindSuffix(s, i + 1)
  }

  /** When no position from i on matches, the suffix search finds nothing. */
  lemma {:induction false} FindSuffixNone(s: string, i: nat)
    requires i <= |s|
    requires forall k :: i <= k <= |s| ==> SuffixMatchAt(s, k).None?
    ensures FindSuffix(s, i).None?
    decreases |s| - i
  {
    assert SuffixMatchAt(s, i).None?;
    if i < |s| {
      FindSuffixNone(s, i + 1);
    }
  }

  lemma SpaceRunFrom(s: string, i: nat, j: nat)
    requires i <= j <= |s|
    requires forall k :: i <= k < j ==> IsSpace(s[k])
    requires j == |s| || !IsSpace(s[j])
    ensures SpaceRunEnd(s, i) == j
    decreases j - i
  {
    if i < j {
      SpaceRunFrom(s, i + 1, j);
    }
  }

  /** The suffix pattern matches at i whenever whitespace from i is followed
      by a version token and no newline comes after it except a final one;
      the match runs to the end, or to just before that final newline. */
  lemma SuffixMatchComplete(s: string, i: nat, q: nat, e: nat)
    requires i < q < e <= |s| && AllSpace(s[i..q]) && IsVersionToken(s[q..e])
    requires forall k :: e <= k < |s| - 1 ==> s[k] != '\n'
    ensures SuffixMatchAt(s, i) == Some(if s[|s| - 1] == '\n' then |s| - 1 else |s|)
  {
    SpacesThenToken(s, i, q, e);
    var d := DigitRunEnd(s, e);
    var k := VersionTokenDot(s, q, e);
    assert IsDigit(s[e - 1]);
    LineEndAfter(s, d, e);
  }

  lemma SpacesThenToken(s: string, i: nat, q: nat, e: nat)
    requires i < q < e <= |s| && AllSpace(s[i..q]) && IsVersionToken(s[q..e])
    ensures IsSpace(s[i]) && SpaceRunEnd(s, i) == q
    ensures VersionMatchAt(s, q) == Some(DigitRunEnd(s, e))
  {
    forall k | i <= k < q ensures IsSpace(s[k]) {
      assert s[k] == s[i..q][k - i];
    }
    var k := VersionTokenDot(s, q, e);
    SpaceRunFrom(s, i, q);
    VersionMatchComplete(s, q, e);
  }

  lemma LineEndAfter(s: string, d: nat, e: nat)
    requires e <= d <= |s| && 0 < |s|
    requires forall k :: e <= k < |s| - 1 ==> s[k] != '\n'
    requires d < |s| || s[|s| - 1] != '\n'
    ensures LineEnd(s, d) == (if s[|s| - 1] == '\n' then |s| - 1 else |s|)
  {
  }

  /** get_base_model: the model with its whitespace + version suffix removed;
      at most a final newline survives the removal. */
  function GetBaseModel(model: string): (r: string)
    ensures FindSuffix(model, 0).None? ==> r == model
    ensures FindSuffix(model, 0).Some? ==>
      var b := FindSuffix(model, 0).value.0;
      b < |model| && IsSpace(model[b]) && r == model[..b] + (if model[|model| - 1] == '\n' then "\n" else "")
  {
    if model == "" then ""
    else
      match FindSuffix(model, 0)
      case Some((b, e)) =>
        assert e == |model| - 1 ==> model[e..] == "\n" by {
          if e == |model| - 1 {
            assert model[e] == '\n';
          }
        }
        model[..b] + model[e..]
      case None => model
  }

  /** A version token: one or more digits, a dot, one or more digits. */
  predicate VersionParts(a: string, b: string)
  {
    |a| > 0 && |b| > 0 && AllDigits(a) && AllDigits(b)
  }

  /** A model string built as "<name> <major>.<minor>", with a name that
      holds no digit and no whitespace, splits back into its parts. */
  lemma ModelStringRoundTrip(name: string, major: nat, minor: nat)
    requires NoSpace(name) && !HasDigit(name)
    ensures var ver := NatToText(major) + "." + NatToText(minor);
      ParseHardwareVersion(name + " " + ver) == ver && GetBaseModel(name + " " + ver) == name
  {
    ModelStringSplits(name, NatToText(major), NatToText(minor));
  }

  lemma ModelStringSplits(name: string, a: string, b: string)
    requires NoSpace(name) && !HasDigit(name) && VersionParts(a, b)
    ensures ParseHardwareVersion(name + " " + (a + "." + b)) == a + "." + b
    ensures GetBaseModel(name + " " + (a + "." + b)) == name
  {
    VersionTokenAfterName(name, a, b);
    ModelStringHardware(name, a + "." + b);
    ModelStringBase(name, a, b);
  }

  lemma ModelStringHardware(name: string, ver: string)
    requires !HasDigit(name)
    requires VersionMatchAt(name + " " + ver, |name| + 1) == Some(|name| + |ver| + 1)
    ensures ParseHardwareVersion(name + " " + ver) == ver
  {
    var model := name + " " + ver;
    assert forall k :: 0 <= k < |name| ==> model[k] == name[k];
    HardwareAfterPrefix(model, |name|);
    assert model[|name| + 1..] == ver;
  }

  lemma ModelStringBase(name: string, a: string, b: string)
    requires NoSpace(name) && VersionParts(a, b)
    requires VersionMatchAt(name + " " + (a + "." + b), |name| + 1) == Some(|name| + |a| + |b| + 2)
    ensures GetBaseModel(name + " " + (a + "." + b)) == name
  {
    var model := name + " " + (a + "." + b);
    assert forall k :: 0 <= k < |name| ==> model[k] == name[k];
    assert model[|name| + 1] == a[0];
    BaseBeforeSuffix(model, |name|);
    assert model[..|name|] == name;
  }

  lemma HardwareAfterPrefix(model: string, n: nat)
    requires n < |model| && VersionMatchAt(model, n + 1) == Some(|model|)
    requires forall k :: 0 <= k <= n ==> !IsDigit(model[k])
    ensures ParseHardwareVersion(model) == model[n + 1..]
  {
    forall k | 0 <= k < n + 1 ensures VersionMatchAt(model, k).None? {
      assert !IsDigit(model[k]);
    }
    HardwareVersionIsFirstToken(model, n + 1);
  }

  lemma BaseBeforeSuffix(model: string, n: nat)
    requires n + 1 < |model| && IsSpace(model[n]) && IsDigit(model[n + 1])
    requires VersionMatchAt(model, n + 1) == Some(|model|)
    requires forall k :: 0 <= k < n ==> !IsSpace(model[k])
    ensures GetBaseModel(model) == model[..n]
  {
    assert SpaceRunEnd(model, n + 1) == n + 1;
    assert SpaceRunEnd(model, n) == n + 1;
    assert LineEnd(model, |model|) == |model|;
    assert SuffixMatchAt(model, n) == Some(|model|);
    forall k | 0 <= k < n ensures SuffixMatchAt(model, k).None? {
      assert !IsSpace(model[k]);
    }
    FirstSuffixIs(model, n);
  }

  /** In "<name> <a>.<b>" the version token runs from after the space to the end. */
  lemma VersionTokenAfterName(name: string, a: string, b: string)
    requires VersionParts(a, b)
    ensures VersionMatchAt(name + " " + (a + "." + b), |name| + 1) == Some(|name| + |a| + |b| + 2)
  {
    var model := name + " " + (a + "." + b);
    var n := |name|;
    assert forall k :: n + 1 <= k < n + 1 + |a| ==> model[k] == a[k - n - 1];
    assert model[n + 1 + |a|] == '.';
    assert forall k :: n + 2 + |a| <= k < |model| ==> model[k] == b[k - n - 2 - |a|];
    DigitRunFrom(model, n + 1, n + 1 + |a|);
    DigitRunFrom(model, n + 2 + |a|, |model|);
  }

  lemma DigitRunFrom(s: string, i: nat, j: nat)
    requires i <= j <= |s|
    requires forall k :: i <= k < j ==> IsDigit(s[k])
    requires j == |s| || !IsDigit(s[j])
    ensures DigitRunEnd(s, i) == j
    decreases j - i
  {
    if i < j {
      DigitRunFrom(s, i + 1, j);
    }
  }

  lemma FirstSuffixIs(s: string, b: nat)
    requires b <= |s| && SuffixMatchAt(s, b).Some?
    requires forall k :: 0 <= k < b ==> SuffixMatchAt(s, k).None?
    ensures FindSuffix(s, 0) == Some((b, SuffixMatchAt(s, b).value))
  {
    FindSuffixFrom(s, 0, b);
  }

  lemma FindSuffixFrom(s: string, i: nat, b: nat)
    requires i <= b <= |s| && SuffixMatchAt(s, b).Some?
    requires forall k :: i <= k < b ==> SuffixMatchAt(s, k).None?
    ensures FindSuffix(s, i) == Some((b, SuffixMatchAt(s, b).value))
    decreases b - i
  {
    if i < b {
      assert SuffixMatchAt(s, i).None?;
      FindSuffixFrom(s, i + 1, b);
    }
  }

  // ---------------------------------------------------------------------
  // Model key

  /** _normalize_model: keep the alphanumeric characters, lower-cased. */
  function NormalizeModel(s: string): (r: string)
    ensures |r| <= |s|
    ensures forall i :: 0 <= i < |r| ==> IsAlnum(r[i]) && !IsUpper(r[i])
  {
    if s == [] then [] else (if IsAlnum(s[0]) then [ToLower(s[0])] else []) + NormalizeModel(s[1..])
  }

  /** Normalisation works character by character: it distributes over
      concatenation, keeps an alphanumeric character lower-cased and drops
      any other. */
  lemma {:induction false} NormalizeConcat(a: string, b: string)
    ensures NormalizeModel(a + b) == NormalizeModel(a) + NormalizeModel(b)
  {
    if a == [] {
      assert a + b == b;
    } else {
      assert (a + b)[1..] == a[1..] + b;
      NormalizeConcat(a[1..], b);
    }
  }

  lemma NormalizeChar(c: char)
    ensures IsAlnum(c) ==> NormalizeModel([c]) == [ToLower(c)]
    ensures !IsAlnum(c) ==> NormalizeModel([c]) == []
  {
    assert [c][1..] == [];
  }

  /** Normalising an already normal string changes nothing. */
  lemma {:induction false} NormalizeIdempotent(s: string)
    ensures NormalizeModel(NormalizeModel(s)) == NormalizeModel(s)
  {
    var r := NormalizeModel(s);
    NormalFixed(r);
  }

  lemma {:induction false} NormalFixed(r: string)
    requires forall i :: 0 <= i < |r| ==> IsAlnum(r[i]) && !IsUpper(r[i])
    ensures NormalizeModel(r) == r
  {
    if r != [] {
      NormalFixed(r[1..]);
    }
  }

  /** Python's `t in s` for strings. */
  predicate Contains(s: string, t: string)
  {
    exists i :: 0 <= i <= |s| - |t| && OccursAt(s, t, i)
  }

  predicate OccursAt(s: string, t: string, i: int)
  {
    0 <= i <= |s| - |t| && s[i..i + |t|] == t
  }

  /** The first of tokens[k..] contained in norm, as an index into tokens. */
  function FirstContained(norm: string, tokens: seq<string>, k: nat): (r: Option<nat>)
    requires k <= |tokens|
    ensures r.Some? ==> k <= r.value < |tokens| && Contains(norm, tokens[r.value])
    ensures r.Some? ==> forall j :: k <= j < r.value ==> !Contains(norm, tokens[j])
    ensures r.None? ==> forall j :: k <= j < |tokens| ==> !Contains(norm, tokens[j])
    decreases |tokens| - k
  {
    if k == |tokens| then None
    else if Contains(norm, tokens[k]) then Some(k)
    else FirstContained(norm, tokens, k + 1)
  }

  /** The model key of a model string, as a function. */
  function ModelKeyOf(model: string): (r: string)
    ensures r == ModelAny || r in ModelTokens
  {
    match FirstContained(NormalizeModel(GetBaseModel(model)), ModelTokens, 0)
    case Some(k) => ModelTokens[k]
    case None => ModelAny
  }

  /** "VenusE 3.0" has the model key "venuse". */
  lemma ModelKeyOfVenusE()
    ensures ModelKeyOf("VenusE 3.0") == "venuse"
  {
    BaseOfVenusE();
    NormalizeVenusE();
    VenusETokenIsLast();
  }

  lemma BaseOfVenusE()
    ensures GetBaseModel("VenusE 3.0") == "VenusE"
  {
    VenusEIsAName();
    assert VersionParts("3", "0");
    ModelStringSplits("VenusE", "3", "0");
    assert "VenusE" + " " + ("3" + "." + "0") == "VenusE 3.0";
  }

  lemma VenusEIsAName()
    ensures NoSpace("VenusE") && !HasDigit("VenusE")
  {
    var name := "VenusE";
    forall i | 0 <= i < |name| ensures !IsSpace(name[i]) && !IsDigit(name[i]) {
    }
  }

  lemma NormalizeVenusE()
    ensures NormalizeModel("VenusE") == "venuse"
  {
  }

  lemma VenusETokenIsLast()
    ensures FirstContained("venuse", ModelTokens, 0) == Some(4)
  {
    var norm := "venuse";
    forall j | 0 <= j < 4 ensures !Contains(norm, ModelTokens[j]) {
      assert |ModelTokens[j]| == 6 && ModelTokens[j][5] != norm[5];
      assert norm[0..6][5] != ModelTokens[j][5];
    }
    assert OccursAt(norm, ModelTokens[4], 0);
  }

  /** get_model_key: the first family token, in tuple order, that occurs in
      the normalised base model; the wildcard when none does. */
  method GetModelKey(model: string) returns (key: string)
    ensures key == ModelKeyOf(model)
    ensures key == ModelAny <==> forall t :: t in ModelTokens ==> !Contains(NormalizeModel(GetBaseModel(model)), t)
    ensures key != ModelAny ==>
      exists k :: 0 <= k < |ModelTokens| && key == ModelTokens[k]
        && Contains(NormalizeModel(GetBaseModel(model)), key)
        && forall j :: 0 <= j < k ==> !Contains(NormalizeModel(GetBaseModel(model)), ModelTokens[j])
  {
    var normalized := NormalizeModel(GetBaseModel(model));
    var k := 0;
    while k < |ModelTokens|
      invariant 0 <= k <= |ModelTokens|
      invariant forall j :: 0 <= j < k ==> !Contains(normalized, ModelTokens[j])
    {
      if Contains(normalized, ModelTokens[k]) {
        assert FirstContained(normalized, ModelTokens, 0) == Some(k) by {
          FirstContainedSkips(normalized, ModelTokens, 0, k);
        }
        return ModelTokens[k];
      }
      k := k + 1;
    }
    FirstContainedNone(normalized, ModelTokens, 0);
    return ModelAny;
  }

  lemma FirstContainedSkips(norm: string, tokens: seq<string>, i: nat, k: nat)
    requires i <= k < |tokens| && Contains(norm, tokens[k])
    requires forall j :: i <= j < k ==> !Contains(norm, tokens[j])
    ensures FirstContained(norm, tokens, i) == Some(k)
    decreases k - i
  {
    if i < k {
      FirstContainedSkips(norm, tokens, i + 1, k);
    }
  }

  lemma FirstContainedNone(norm: string, tokens: seq<string>, i: nat)
    requires i <= |tokens|
    requires forall j :: i <= j < |tokens| ==> !Contains(norm, tokens[j])
    ensures FirstContained(norm, tokens, i).None?
    decreases |tokens| - i
  {
    if i < |tokens| {
      FirstContainedNone(norm, tokens, i + 1);
    }
  }

  // ---------------------------------------------------------------------
  // The matrix

  /** A CompatibilityMatrix: its five fields are computed once, at construction. */
  datatype CompatibilityMatrix = CompatibilityMatrix(
    deviceModel: string,
    firmwareVersion: int,
    baseModel: string,
    hardwareVersion: string,
    modelKey: string)

  /** CompatibilityMatrix.__init__; a missing model reads as "". */
  method NewMatrix(model: Option<string>, firmware: FirmwareInput) returns (m: CompatibilityMatrix)
    ensures m.deviceModel == model.GetOr("")
    ensures m.firmwareVersion == ParseFirmwareVersion(firmware)
    ensures m.baseModel == GetBaseModel(m.deviceModel)
    ensures m.hardwareVersion == ParseHardwareVersion(m.deviceModel)
    ensures m.modelKey == ModelKeyOf(m.deviceModel)
    ensures IsVersionToken(m.hardwareVersion)
    ensures m.modelKey == ModelAny || m.modelKey in ModelTokens
  {
    var dm := model.GetOr("");
    var key := GetModelKey(dm);
    m := CompatibilityMatrix(dm, ParseFirmwareVersion(firmware), GetBaseModel(dm), ParseHardwareVersion(dm), key);
  }

  datatype DeviceCapabilities = DeviceCapabilities(supportsPv: bool, pvChannels: nat)

  const DefaultCapabilities := DeviceCapabilities(false, 0)

  const CapabilitiesByModel: map<string, DeviceCapabilities> := map[
    "venusa" := DeviceCapabilities(true, 4),
    "venusd" := DeviceCapabilities(true, 4),
    "venusc" := DeviceCapabilities(false, 0),
    "venuse" := DeviceCapabilities(false, 0)]

  /** CompatibilityMatrix.capabilities: PV with four channels for the A and D
      families, no PV for every other key (venusb and the wildcard included). */
  function Capabilities(m: CompatibilityMatrix): (c: DeviceCapabilities)
    ensures c.supportsPv <==> m.modelKey == "venusa" || m.modelKey == "venusd"
    ensures c.pvChannels == if c.supportsPv then 4 else 0
  {
    if m.modelKey in CapabilitiesByModel then CapabilitiesByModel[m.modelKey] else DefaultCapabilities
  }

  // ---------------------------------------------------------------------
  // Scaling

  /** (minimum firmware, divisor) pairs, as the source's {firmware: divisor}
      dictionaries; the thresholds are distinct. */
  type Thresholds = seq<(int, real)>

  /** The per-model, per-hardware-version tables of one field. */
  type FieldMap = map<string, map<string, Thresholds>>

  /** A field's tables: one per hardware version, shared by every model. */
  function Standard(hw2: Thresholds, hw3: Thresholds): FieldMap
  {
    map[ModelAny := map[HwVersion2 := hw2, HwVersion3 := hw3]]
  }

  /** The hardware 2.0 and 3.0 tables of each scaled field (SCALING_MATRIX);
      None for a field the matrix does not list. */
  function FieldTables(field: string): (r: Option<(Thresholds, Thresholds)>)
    ensures r.Some? ==> PositiveDivisors(r.value.0) && PositiveDivisors(r.value.1)
    ensures r.Some? ==> |r.value.0| > 0 && |r.value.1| > 0
  {
    if field == "bat_temp" then Some(([(0, 1.0), (154, 0.1)], [(0, 1.0), (139, 10.0)]))
    else if field == "bat_cap" || field == "bat_capacity" || field == "bat_rated_capacity" then
      Some(([(0, 100.0), (154, 1.0)], [(0, 1.0), (139, 0.1)]))
    else if field == "bat_power" then Some((Hw2PowerTable, [(0, 1.0)]))
    else if field == "total_grid_input_energy" || field == "total_grid_output_energy" || field == "total_load_energy" then
      Some(([(0, 0.1), (154, 0.01)], [(0, 1.0)]))
    else if field == "bat_voltage" || field == "bat_current" then Some(([(0, 100.0)], [(0, 100.0)]))
    else None
  }

  /** SCALING_MATRIX.get(field), with a missing field as the empty map. */
  function FieldScaling(field: string): FieldMap
  {
    match FieldTables(field)
    case Some((hw2, hw3)) => Standard(hw2, hw3)
    case None => map[]
  }

  predicate PositiveDivisors(es: Thresholds)
  {
    forall i :: 0 <= i < |es| ==> es[i].1 > 0.0
  }

  predicate WellFormed(fm: FieldMap)
  {
    forall k, h :: k in fm && h in fm[k] ==> PositiveDivisors(fm[k][h])
  }

  /** Every divisor in the table is positive, so scaling never divides by zero. */
  lemma FieldScalingWellFormed(field: string)
    ensures WellFormed(FieldScaling(field))
  {
    match FieldTables(field)
    case Some((hw2, hw3)) => StandardWellFormed(hw2, hw3);
    case None =>
  }

  lemma StandardWellFormed(hw2: Thresholds, hw3: Thresholds)
    requires PositiveDivisors(hw2) && PositiveDivisors(hw3)
    ensures WellFormed(Standard(hw2, hw3)) && OnlyStandardHw(Standard(hw2, hw3))
  {
  }

  /** The lookup chain of scale_value: the model key, else the wildcard
      model; then the hardware version, else the wildcard version. An empty
      dictionary counts as missing, as Python's `or` and `not` treat it. */
  function SelectTable(fm: FieldMap, modelKey: string, hw: string): (r: Option<Thresholds>)
    requires WellFormed(fm)
    ensures r.Some? ==> |r.value| > 0 && PositiveDivisors(r.value)
    // the model's own map, then the hardware version's own table
    ensures modelKey in fm && |fm[modelKey]| > 0 && hw in fm[modelKey] && |fm[modelKey][hw]| > 0 ==>
      r == Some(fm[modelKey][hw])
    // the model's own map, falling back to the any-version table
    ensures modelKey in fm && |fm[modelKey]| > 0 && !(hw in fm[modelKey] && |fm[modelKey][hw]| > 0)
      ==> r == (if HwVersionAny in fm[modelKey] && |fm[modelKey][HwVersionAny]| > 0
                then Some(fm[modelKey][HwVersionAny]) else None)
    // falling back to the any-model map, then the hardware version's own table
    ensures !(modelKey in fm && |fm[modelKey]| > 0) && ModelAny in fm && |fm[ModelAny]| > 0
      && hw in fm[ModelAny] && |fm[ModelAny][hw]| > 0
      ==> r == Some(fm[ModelAny][hw])
    // falling back to the any-model map and its any-version table
    ensures !(modelKey in fm && |fm[modelKey]| > 0) && ModelAny in fm && |fm[ModelAny]| > 0
      && !(hw in fm[ModelAny] && |fm[ModelAny][hw]| > 0)
      ==> r == (if HwVersionAny in fm[ModelAny] && |fm[ModelAny][HwVersionAny]| > 0
                then Some(fm[ModelAny][HwVersionAny]) else None)
    // neither the model nor the any-model entry: no table
    ensures !(modelKey in fm && |fm[modelKey]| > 0) && !(ModelAny in fm && |fm[ModelAny]| > 0) ==> r.None?
    ensures (forall k :: k in fm ==> |fm[k]| == 0) ==> r.None?
  {
    var modelMap :=
      if modelKey in fm && |fm[modelKey]| > 0 then Some(fm[modelKey])
      else if ModelAny in fm && |fm[ModelAny]| > 0 then Some(fm[ModelAny])
      else None;
    match modelMap
    case None => None
    case Some(mm) =>
      if hw in mm && |mm[hw]| > 0 then Some(mm[hw])
      else if HwVersionAny in mm && |mm[HwVersionAny]| > 0 then Some(mm[HwVersionAny])
      else None
  }

  /** The threshold table that applies to a field on this device. */
  function HardwareTable(m: CompatibilityMatrix, field: string): (r: Option<Thresholds>)
    ensures r.Some? ==> |r.value| > 0 && PositiveDivisors(r.value)
  {
    FieldScalingWellFormed(field);
    SelectTable(FieldScaling(field), m.modelKey, m.hardwareVersion)
  }

  /** A raw protocol value: only numbers are scaled. */
  datatype RawValue = RawNone | RawNum(x: real) | RawText(s: string)

  /** The pair with the largest threshold not above fw (the earlier one on a tie,
      as Python's max does), or None when every threshold is above fw. */
  function SelectThreshold(es: Thresholds, fw: int): (r: Option<(int, real)>)
    ensures r.Some? ==> r.value in es && r.value.0 <= fw
    ensures r.Some? ==> forall e :: e in es && e.0 <= fw ==> e.0 <= r.value.0
    ensures r.None? <==> forall e :: e in es ==> e.0 > fw
  {
    if es == [] then None
    else
      var rest := SelectThreshold(es[1..], fw);
      assert forall e :: e in es ==> e == es[0] || e in es[1..];
      if es[0].0 > fw then rest
      else if rest.Some? && rest.value.0 > es[0].0 then rest
      else Some(es[0])
  }

  /** The divisor scale_value applies to a field on this device: the one of
      the largest firmware threshold the device's firmware has reached. */
  function Divisor(m: CompatibilityMatrix, field: string): (d: Option<real>)
    ensures d.Some? ==> d.value > 0.0
  {
    match HardwareTable(m, field)
    case None => None
    case Some(es) =>
      match SelectThreshold(es, m.firmwareVersion)
      case None => None
      case Some(sel) =>
        assert sel.1 > 0.0 by {
          var i :| 0 <= i < |es| && es[i] == sel;
        }
        Some(sel.1)
  }

  /** CompatibilityMatrix.scale_value: a number is divided by the field's
      divisor; everything else, and every number no divisor applies to, is
      returned unchanged. */
  function ScaleValue(m: CompatibilityMatrix, value: RawValue, field: string): (r: RawValue)
    ensures !value.RawNum? || Divisor(m, field).None? ==> r == value
    ensures value.RawNum? && Divisor(m, field).Some? ==> r == RawNum(value.x / Divisor(m, field).value)
  {
    match value
    case RawNum(x) =>
      (match Divisor(m, field)
       case None => value
       case Some(d) => RawNum(x / d))
    case _ => value
  }

  /** bat_power on hardware 2.0 is in tenths of a watt before firmware 154
      and in watts from 154 on; below firmware 0 no threshold applies. */
  lemma BatPowerScalingHw2(m: CompatibilityMatrix, x: real)
    requires m.hardwareVersion == HwVersion2
    ensures m.firmwareVersion < 0 ==> ScaleValue(m, RawNum(x), "bat_power") == RawNum(x)
    ensures 0 <= m.firmwareVersion < 154 ==> ScaleValue(m, RawNum(x), "bat_power") == RawNum(x / 10.0)
    ensures 154 <= m.firmwareVersion ==> ScaleValue(m, RawNum(x), "bat_power") == RawNum(x)
  {
    PowerTableHw2(m);
    Hw2PowerThreshold(m.firmwareVersion);
    DivisorFromTable(m, "bat_power", Hw2PowerTable);
    var d := Divisor(m, "bat_power");
    if m.firmwareVersion < 0 {
      assert d.None?;
    } else if m.firmwareVersion < 154 {
      assert d == Some(10.0);
      assert ScaleValue(m, RawNum(x), "bat_power") == RawNum(x / d.value);
    } else {
      assert d == Some(1.0);
      assert x / 1.0 == x;
    }
  }

  /** The divisor is the one of the largest firmware threshold the device's
      firmware has reached, and there is one exactly when some threshold
      has been reached. */
  lemma DivisorIsLargestReached(m: CompatibilityMatrix, field: string)
    ensures Divisor(m, field).Some? <==>
      (HardwareTable(m, field).Some? && exists e :: e in HardwareTable(m, field).value && e.0 <= m.firmwareVersion)
    ensures Divisor(m, field).Some? ==>
      exists e :: e in HardwareTable(m, field).value && e.0 <= m.firmwareVersion && Divisor(m, field).value == e.1
        && forall e' :: e' in HardwareTable(m, field).value && e'.0 <= m.firmwareVersion ==> e'.0 <= e.0
  {
  }

  /** Divisor, read off a known table. */
  lemma DivisorFromTable(m: CompatibilityMatrix, field: string, es: Thresholds)
    requires HardwareTable(m, field) == Some(es)
    ensures SelectThreshold(es, m.firmwareVersion).None? ==> Divisor(m, field).None?
    ensures SelectThreshold(es, m.firmwareVersion).Some? ==>
      Divisor(m, field) == Some(SelectThreshold(es, m.firmwareVersion).value.1)
  {
  }

  /** On hardware 2.0 or 3.0 a listed field takes that version's table,
      whatever the model key; a field the matrix does not list has none. */
  lemma HardwareTableOfField(m: CompatibilityMatrix, field: string)
    ensures FieldTables(field).None? ==> HardwareTable(m, field).None?
    ensures FieldTables(field).Some? && m.hardwareVersion == HwVersion2 ==>
      HardwareTable(m, field) == Some(FieldTables(field).value.0)
    ensures FieldTables(field).Some? && m.hardwareVersion == HwVersion3 ==>
      HardwareTable(m, field) == Some(FieldTables(field).value.1)
  {
    FieldScalingWellFormed(field);
    var fm := FieldScaling(field);
    match FieldTables(field)
    case None =>
      assert fm == map[];
    case Some((hw2, hw3)) =>
      assert fm == map[ModelAny := map[HwVersion2 := hw2, HwVersion3 := hw3]];
      assert HwVersion2 != HwVersion3;
  }

  const Hw2PowerTable: Thresholds := [(0, 10.0), (154, 1.0)]

  lemma PowerTableHw2(m: CompatibilityMatrix)
    requires m.hardwareVersion == HwVersion2
    ensures HardwareTable(m, "bat_power") == Some(Hw2PowerTable)
  {
    assert FieldTables("bat_power") == Some((Hw2PowerTable, [(0, 1.0)]));
  }

  lemma Hw2PowerThreshold(fw: int)
    ensures SelectThreshold(Hw2PowerTable, fw)
      == if fw < 0 then None else if fw < 154 then Some((0, 10.0)) else Some((154, 1.0))
  {
    var es := Hw2PowerTable;
    assert |es[1..][1..]| == 0;
  }

  /** A hardware version the table does not list leaves every field raw. */
  lemma UnknownHardwareIsRaw(m: CompatibilityMatrix, value: RawValue, field: string)
    requires m.hardwareVersion != HwVersion2 && m.hardwareVersion != HwVersion3
    ensures ScaleValue(m, value, field) == value
  {
    FieldScalingStandardHw(field);
    FieldScalingWellFormed(field);
    NoTableForOtherHw(FieldScaling(field), m.modelKey, m.hardwareVersion);
  }

  /** Every table of the matrix is keyed by hardware 2.0 or 3.0 only. */
  predicate OnlyStandardHw(fm: FieldMap)
  {
    forall k :: k in fm ==> fm[k].Keys <= {HwVersion2, HwVersion3}
  }

  lemma FieldScalingStandardHw(field: string)
    ensures OnlyStandardHw(FieldScaling(field))
  {
    match FieldTables(field)
    case Some((hw2, hw3)) => StandardWellFormed(hw2, hw3);
    case None =>
  }

  lemma NoTableForOtherHw(fm: FieldMap, modelKey: string, hw: string)
    requires WellFormed(fm) && OnlyStandardHw(fm)
    requires hw != HwVersion2 && hw != HwVersion3
    ensures SelectTable(fm, modelKey, hw).None?
  {
    assert HwVersionAny != HwVersion2 && HwVersionAny != HwVersion3;
  }

  // ---------------------------------------------------------------------
  // Diagnostics

  datatype InfoValue = InfoText(s: string) | InfoInt(n: int)

  /** CompatibilityMatrix.get_info. */
  function GetInfo(m: CompatibilityMatrix): (info: map<string, InfoValue>)
    ensures info.Keys == {"device_model", "base_model", "model_key", "hardware_version", "firmware_version"}
    ensures info["device_model"] == InfoText(m.deviceModel) && info["base_model"] == InfoText(m.baseModel)
    ensures info["model_key"] == InfoText(m.modelKey) && info["hardware_version"] == InfoText(m.hardwareVersion)
    ensures info["firmware_version"] == InfoInt(m.firmwareVersion)
  {
    map["device_model" := InfoText(m.deviceModel),
        "base_model" := InfoText(m.baseModel),
        "model_key" := InfoText(m.modelKey),
        "hardware_version" := InfoText(m.hardwareVersion),
        "firmware_version" := InfoInt(m.firmwareVersion)]
  }

  /** The diagnostics carry exactly the matrix: two matrices with the same
      diagnostics are the same matrix. */
  lemma GetInfoDeterminesMatrix(m1: CompatibilityMatrix, m2: CompatibilityMatrix)
    requires GetInfo(m1) == GetInfo(m2)
    ensures m1 == m2
  {
    assert GetInfo(m1)["device_model"] == GetInfo(m2)["device_model"];
    assert GetInfo(m1)["base_model"] == GetInfo(m2)["base_model"];
    assert GetInfo(m1)["model_key"] == GetInfo(m2)["model_key"];
    assert GetInfo(m1)["hardware_version"] == GetInfo(m2)["hardware_version"];
    assert GetInfo(m1)["firmware_version"] == GetInfo(m2)["firmware_version"];
  }
}
