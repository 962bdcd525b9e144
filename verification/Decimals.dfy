/** Decimal text (`normalize_decimal` in `backend/src/util/user_input.cpp`,
    `format_usd_plain_fixed6` in `backend/src/util/strings.cpp`): canonical forms of exact values. */
module Decimals {
  import opened Text

  // ---------------------------------------------------------------------------------
  // Values
  // ---------------------------------------------------------------------------------

  predicate AllDigits(s: string) {
    forall i | 0 <= i < |s| :: IsDigit(s[i])
  }

  function Pow10(n: nat): nat {
    if n == 0 then 1 else 10 * Pow10(n - 1)
  }

  function Nat(s: string): nat
    requires AllDigits(s)
  {
    if s == "" then 0 else 10 * Nat(s[..|s| - 1]) + (s[|s| - 1] as int - '0' as int)
  }

  /** The digits before and after the point. */
  datatype Decimal = Decimal(whole: string, frac: string)

  predicate Digits(d: Decimal) {
    AllDigits(d.whole) && AllDigits(d.frac)
  }

  /** The value in units of 10^-scale. */
  function Value(d: Decimal, scale: nat): nat
    requires Digits(d) && |d.frac| <= scale
  {
    Nat(d.whole + d.frac) * Pow10(scale - |d.frac|)
  }

  function Zeros(n: nat): string {
    seq(n, _ => '0')
  }

  /** Without leading zeros, but not empty. */
  function StripLeading(s: string): string {
    if s == "" then "0" else if s[0] != '0' then s else StripLeading(s[1..])
  }

  function StripTrailing(s: string): string {
    if s != "" && s[|s| - 1] == '0' then StripTrailing(s[..|s| - 1]) else s
  }

  function Pad(s: string, n: nat): string {
    if |s| < n then s + Zeros(n - |s|) else s
  }

  // ---------------------------------------------------------------------------------
  // normalize_decimal
  // ---------------------------------------------------------------------------------

  datatype Error = Required | Negative | Invalid | TooLarge | TooPrecise | NotPositive

  datatype Result = Ok(text: string) | Err(error: Error)

  /** Cut at the point; `None` for a second point. */
  function SplitPoint(body: string): Option<Decimal> {
    var dot := Find(body, '.');
    if dot == |body| then Some(Decimal(body, ""))
    else if '.' in body[dot + 1..] then None
    else Some(Decimal(body[..dot], body[dot + 1..]))
  }

  function WithoutPlus(v: string): string {
    if v != "" && v[0] == '+' then v[1..] else v
  }

  function Render(d: Decimal): string {
    d.whole + "." + d.frac
  }

  function Canonical(d: Decimal, scale: nat): Decimal {
    Decimal(StripLeading(d.whole), Pad(d.frac, scale))
  }

  function Normalize(raw: string, scale: nat, maxIntegerDigits: nat, allowZero: bool): Result {
    var body := WithoutPlus(Trim(raw));
    if body == "" then Err(Required)
    else if body[0] == '-' then Err(Negative)
    else
      match SplitPoint(body)
      case None => Err(Invalid)
      case Some(d) =>
        if !Digits(d) then Err(Invalid)
        else if |StripLeading(d.whole)| > maxIntegerDigits then Err(TooLarge)
        else if |d.frac| > scale then Err(TooPrecise)
        else
          var text := Render(Canonical(d, scale));
          if !allowZero && text == "0." + Zeros(scale) then Err(NotPositive) else Ok(text)
  }

  method NormalizeDecimal(raw: string, scale: nat, maxIntegerDigits: nat, allowZero: bool) returns (r: Result)
    ensures r == Normalize(raw, scale, maxIntegerDigits, allowZero)
  {
    hide Trim, SplitPoint, StripLeading, Pad, Zeros, AllDigits;
    ZeroForNothing();
    var value := TrimAscii(raw);
    if value != "" && value[0] == '+' {
      value := value[1..];
    }
    if value == "" {
      return Err(Required);
    }
    if value[0] == '-' {
      return Err(Negative);
    }
    var parts := CutAtPoint(value);
    if parts.None? {
      return Err(Invalid);
    }
    var intPart, fracPart := parts.value.whole, parts.value.frac;
    if intPart == "" {
      intPart := "0";
    }
    var good := CheckDigits(intPart);
    if !good {
      return Err(Invalid);
    }
    good := CheckDigits(fracPart);
    if !good {
      return Err(Invalid);
    }
    intPart := EraseLeadingZeros(intPart);
    if |intPart| > maxIntegerDigits {
      return Err(TooLarge);
    }
    if |fracPart| > scale {
      return Err(TooPrecise);
    }
    fracPart := PadFraction(fracPart, scale);
    var normalized := intPart + "." + fracPart;
    if !allowZero && normalized == "0." + Zeros(scale) {
      return Err(NotPositive);
    }
    return Ok(normalized);
  }

  /** Writing `0` for a missing integer part changes neither check nor result. */
  lemma ZeroForNothing()
    ensures StripLeading("0") == StripLeading("") == "0" && AllDigits("0") && AllDigits("")
  {
  }

  method CutAtPoint(value: string) returns (parts: Option<Decimal>)
    ensures parts == SplitPoint(value)
  {
    var dot := Find(value, '.');
    if dot == |value| {
      return Some(Decimal(value, ""));
    }
    var after := value[dot + 1..];
    var next := Find(after, '.');
    assert after[..|after|] == after;
    if next != |after| {
      return None;
    }
    return Some(Decimal(value[..dot], after));
  }

  method EraseLeadingZeros(digits: string) returns (t: string)
    requires digits != ""
    ensures t == StripLeading(digits)
  {
    var first := 0;
    assert digits[0..] == digits;
    while first < |digits| && digits[first] == '0'
      invariant 0 <= first <= |digits|
      invariant StripLeading(digits[first..]) == StripLeading(digits)
    {
      assert digits[first..][1..] == digits[first + 1..];
      first := first + 1;
    }
    t := if first == |digits| then "0" else digits[first..];
  }

  method PadFraction(digits: string, scale: nat) returns (t: string)
    requires |digits| <= scale
    ensures t == Pad(digits, scale)
  {
    t := digits;
    while |t| < scale
      invariant |digits| <= |t| <= scale && t == digits + Zeros(|t| - |digits|)
    {
      assert Zeros(|t| - |digits|) + "0" == Zeros(|t| - |digits| + 1);
      t := t + "0";
    }
  }

  method CheckDigits(s: string) returns (good: bool)
    ensures good == AllDigits(s)
  {
    for i := 0 to |s|
      invariant forall k | 0 <= k < i :: IsDigit(s[k])
    {
      if s[i] < '0' || s[i] > '9' {
        return false;
      }
    }
    return true;
  }

  // ---------------------------------------------------------------------------------
  // Facts about digits
  // ---------------------------------------------------------------------------------

  lemma {:induction false} Pow10Add(a: nat, b: nat)
    ensures Pow10(a + b) == Pow10(a) * Pow10(b)
    decreases b
  {
    if b > 0 {
      Pow10Add(a, b - 1);
      assert Pow10(a) * (10 * Pow10(b - 1)) == 10 * (Pow10(a) * Pow10(b - 1));
    }
  }

  lemma {:induction false} NatBound(s: string)
    requires AllDigits(s)
    ensures Nat(s) < Pow10(|s|)
  {
    if s != "" {
      NatBound(s[..|s| - 1]);
    }
  }

  /** Splitting digits splits the number. */
  lemma {:induction false} NatAppend(a: string, b: string)
    requires AllDigits(a) && AllDigits(b)
    ensures AllDigits(a + b) && Nat(a + b) == Nat(a) * Pow10(|b|) + Nat(b)
    decreases |b|
  {
    if b == "" {
      assert a + b == a;
    } else {
      var init, last := b[..|b| - 1], b[|b| - 1];
      NatAppend(a, init);
      assert (a + b)[..|a + b| - 1] == a + init && (a + b)[|a + b| - 1] == last;
      Shift(Nat(a), Pow10(|init|), Nat(init), last as int - '0' as int);
    }
  }

  lemma Shift(a: nat, p: nat, b: nat, digit: int)
    ensures 10 * (a * p + b) + digit == a * (10 * p) + (10 * b + digit)
  {
  }

  lemma {:induction false} NatZeros(n: nat)
    ensures AllDigits(Zeros(n)) && Nat(Zeros(n)) == 0
  {
    if n > 0 {
      NatZeros(n - 1);
      assert Zeros(n)[..n - 1] == Zeros(n - 1);
    }
  }

  lemma {:induction false} StripLeadingNat(s: string)
    requires AllDigits(s)
    ensures AllDigits(StripLeading(s)) && Nat(StripLeading(s)) == Nat(s)
  {
    if s != "" && s[0] == '0' {
      StripLeadingNat(s[1..]);
      assert s == "0" + s[1..];
      NatAppend("0", s[1..]);
      NatOne("0");
    } else if s == "" {
      NatOne("0");
    }
  }

  lemma NatOne(s: string)
    requires |s| == 1 && AllDigits(s)
    ensures Nat(s) == s[0] as int - '0' as int
  {
    assert s[..0] == "";
  }

  lemma {:induction false} NatInjective(a: string, b: string)
    requires AllDigits(a) && AllDigits(b) && |a| == |b| && Nat(a) == Nat(b)
    ensures a == b
  {
    if a != "" {
      NatInjective(a[..|a| - 1], b[..|b| - 1]);
      assert a == a[..|a| - 1] + [a[|a| - 1]] && b == b[..|b| - 1] + [b[|b| - 1]];
    }
  }

  /** A leading digit that is not zero gives the number its full size. */
  lemma NatLarge(s: string)
    requires s != "" && AllDigits(s) && s[0] != '0'
    ensures Nat(s) >= Pow10(|s| - 1)
  {
    assert s == s[..1] + s[1..];
    NatAppend(s[..1], s[1..]);
    NatOne(s[..1]);
    assert Nat(s[..1]) * Pow10(|s| - 1) >= 1 * Pow10(|s| - 1) by {
      MulAtLeast(Nat(s[..1]), Pow10(|s| - 1));
    }
  }

  lemma MulAtLeast(a: nat, p: nat)
    requires a >= 1
    ensures a * p >= p
  {
  }

  // ---------------------------------------------------------------------------------
  // Canonical form
  // ---------------------------------------------------------------------------------

  predicate IsCanonical(d: Decimal, scale: nat) {
    Digits(d) && |d.frac| == scale && d.whole != "" && (|d.whole| > 1 ==> d.whole[0] != '0')
  }

  lemma {:induction false} StripLeadingShape(s: string)
    ensures var t := StripLeading(s); t != "" && (|t| > 1 ==> t[0] != '0')
    ensures s != "" && (|s| > 1 ==> s[0] != '0') ==> StripLeading(s) == s
  {
    if s != "" && s[0] == '0' {
      StripLeadingShape(s[1..]);
    }
  }

  /** Canonicalising keeps the value. */
  lemma CanonicalKeepsValue(d: Decimal, scale: nat)
    requires Digits(d) && |d.frac| <= scale
    ensures IsCanonical(Canonical(d, scale), scale)
    ensures Value(Canonical(d, scale), scale) == Value(d, scale)
  {
    hide Nat, Pow10;
    StripLeadingNat(d.whole);
    StripLeadingShape(d.whole);
    var n := scale - |d.frac|;
    NatZeros(n);
    var c := Canonical(d, scale);
    assert c.frac == d.frac + Zeros(n);
    NatAppend(d.whole, d.frac);
    NatAppend(d.frac, Zeros(n));
    NatAppend(c.whole, c.frac);
    Pow10Add(|d.frac|, n);
    assert Nat(c.whole + c.frac) == Nat(d.whole) * (Pow10(|d.frac|) * Pow10(n)) + Nat(d.frac) * Pow10(n);
    Factor(Nat(d.whole), Pow10(|d.frac|), Nat(d.frac), Pow10(n));
    PowZero();
  }

  lemma PowZero()
    ensures Pow10(0) == 1
  {
  }

  lemma Factor(a: nat, b: nat, c: nat, n: nat)
    ensures a * (b * n) + c * n == (a * b + c) * n
  {
  }

  lemma WholeValue(d: Decimal, scale: nat)
    requires Digits(d) && |d.frac| == scale
    ensures AllDigits(d.whole + d.frac) && Value(d, scale) == Nat(d.whole + d.frac)
  {
    hide Nat, Pow10;
    PowZero();
  }

  /** Equal canonical values are equal text. */
  lemma CanonicalUnique(a: Decimal, b: Decimal, scale: nat)
    requires IsCanonical(a, scale) && IsCanonical(b, scale) && Value(a, scale) == Value(b, scale)
    ensures a == b
  {
    hide Nat, Pow10, Value;
    var s, t := a.whole + a.frac, b.whole + b.frac;
    WholeValue(a, scale);
    WholeValue(b, scale);
    NatBound(s);
    NatBound(t);
    if |s| < |t| {
      NatLarge(t);
      Pow10Mono(|s|, |t| - 1);
    } else if |t| < |s| {
      NatLarge(s);
      Pow10Mono(|t|, |s| - 1);
    }
    NatInjective(s, t);
    assert a.whole == s[..|s| - scale] && a.frac == s[|s| - scale..];
    assert b.whole == t[..|t| - scale] && b.frac == t[|t| - scale..];
  }

  lemma {:induction false} Pow10Mono(a: nat, b: nat)
    requires a <= b
    ensures Pow10(a) <= Pow10(b)
    decreases b - a
  {
    if a < b {
      Pow10Mono(a, b - 1);
    }
  }

  // ---------------------------------------------------------------------------------
  // What normalisation accepts and preserves
  // ---------------------------------------------------------------------------------

  /** The numeral a text stands for: digits, optionally a point and digits. */
  ghost predicate IsNumeral(body: string, d: Decimal) {
    Digits(d) && ((body == d.whole && d.frac == "") || body == Render(d))
  }

  lemma NumeralSplit(body: string, d: Decimal)
    requires IsNumeral(body, d)
    ensures SplitPoint(body) == Some(d)
  {
    if body == d.whole && d.frac == "" {
      assert '.' !in body;
      assert Find(body, '.') == |body|;
    } else {
      assert body[..|d.whole|] == d.whole;
      FindAt(body, '.', |d.whole|);
      assert body[|d.whole| + 1..] == d.frac;
    }
  }

  lemma SplitNumeral(body: string)
    requires SplitPoint(body).Some? && Digits(SplitPoint(body).value)
    ensures IsNumeral(body, SplitPoint(body).value)
  {
    var dot := Find(body, '.');
    if dot < |body| {
      assert body == body[..dot] + [body[dot]] + body[dot + 1..];
    }
  }

  /** A text stands for a numeral: after trimming, and after one plus sign if there is one. */
  ghost predicate Reads(raw: string, d: Decimal) {
    var text := Trim(raw);
    IsNumeral(text, d) || (text != "" && text[0] == '+' && IsNumeral(text[1..], d))
  }

  lemma ReadsOne(raw: string, d: Decimal)
    ensures Reads(raw, d) <==> SplitPoint(WithoutPlus(Trim(raw))) == Some(d) && Digits(d)
    ensures Reads(raw, d) && WithoutPlus(Trim(raw)) != "" ==> WithoutPlus(Trim(raw))[0] != '-'
  {
    hide Trim, Find, SplitPoint;
    var text := Trim(raw);
    var body := WithoutPlus(text);
    if IsNumeral(body, d) {
      NumeralSplit(body, d);
    }
    if SplitPoint(body) == Some(d) && Digits(d) {
      SplitNumeral(body);
    }
  }

  /** The integer part has at most that many digits, leading zeros not counted. */
  ghost predicate Fits(d: Decimal, maxIntegerDigits: nat)
    requires Digits(d)
  {
    maxIntegerDigits > 0 && Nat(d.whole) < Pow10(maxIntegerDigits)
  }

  lemma FitsIsLength(d: Decimal, maxIntegerDigits: nat)
    requires Digits(d)
    ensures |StripLeading(d.whole)| <= maxIntegerDigits <==> Fits(d, maxIntegerDigits)
  {
    hide Nat, Pow10;
    var s := StripLeading(d.whole);
    StripLeadingShape(d.whole);
    StripLeadingNat(d.whole);
    NatBound(s);
    if |s| <= maxIntegerDigits {
      Pow10Mono(|s|, maxIntegerDigits);
    } else if maxIntegerDigits > 0 {
      NatLarge(s);
      Pow10Mono(maxIntegerDigits, |s| - 1);
    }
  }

  /** What is accepted and what each error means: a numeral within both digit limits, and not zero
      unless zero is allowed; otherwise the first thing wrong. */
  lemma AcceptsExactly(raw: string, scale: nat, maxIntegerDigits: nat, allowZero: bool)
    ensures
      var r, text := Normalize(raw, scale, maxIntegerDigits, allowZero), Trim(raw);
      if text == "" || text == "+" then r == Err(Required)
      else if "-" <= text || "+-" <= text then r == Err(Negative)
      else if forall d :: !Reads(raw, d) then r == Err(Invalid)
      else
        exists d :: Reads(raw, d) &&
          if !Fits(d, maxIntegerDigits) then r == Err(TooLarge)
          else if |d.frac| > scale then r == Err(TooPrecise)
          else if !allowZero && Value(d, scale) == 0 then r == Err(NotPositive)
          else r.Ok?
  {
    hide Nat, Pow10, StripLeading, Find, Trim, SplitPoint, Fits, Reads, Value;
    var text := Trim(raw);
    var body := WithoutPlus(text);
    assert text != "" && text != "+" ==> body != "" && (body[0] == '-' <==> "-" <= text || "+-" <= text);
    if body != "" && body[0] != '-' {
      var split := SplitPoint(body);
      if split.Some? && Digits(split.value) {
        var d := split.value;
        ReadsOne(raw, d);
        FitsIsLength(d, maxIntegerDigits);
        if |d.frac| <= scale {
          ZeroText(d, scale);
        }
      } else {
        forall d ensures !Reads(raw, d) {
          ReadsOne(raw, d);
        }
      }
    }
  }

  /** A point without a digit is accepted as zero, also after a plus sign. */
  lemma BarePoint(scale: nat, maxIntegerDigits: nat)
    requires maxIntegerDigits > 0
    ensures Normalize(".", scale, maxIntegerDigits, true) == Ok("0." + Zeros(scale))
    ensures Normalize("+.", scale, maxIntegerDigits, true) == Ok("0." + Zeros(scale))
  {
    hide Zeros, Trim, Find, Pad, AllDigits;
    ZeroForNothing();
    TrimFixed(".");
    TrimFixed("+.");
    assert "+."[1..] == ".";
    FindAt(".", '.', 0);
    assert "."[..0] == "" && "."[1..] == "";
    assert SplitPoint(".") == Some(Decimal("", ""));
    PadNothing(scale);
  }

  lemma PadNothing(scale: nat)
    ensures Pad("", scale) == Zeros(scale)
  {
  }

  lemma ZeroText(d: Decimal, scale: nat)
    requires Digits(d) && |d.frac| <= scale
    ensures Render(Canonical(d, scale)) == "0." + Zeros(scale) <==> Value(d, scale) == 0
  {
    hide Nat, Pow10;
    var zero := Decimal("0", Zeros(scale));
    var c := Canonical(d, scale);
    CanonicalKeepsValue(d, scale);
    ZeroValue(scale);
    assert Render(zero) == "0." + Zeros(scale);
    if Value(d, scale) == 0 {
      CanonicalUnique(c, zero, scale);
    }
    if Render(c) == Render(zero) {
      RenderInjective(c, zero);
    }
  }

  lemma ZeroValue(scale: nat)
    ensures IsCanonical(Decimal("0", Zeros(scale)), scale) && Value(Decimal("0", Zeros(scale)), scale) == 0
  {
    NatZeros(scale + 1);
    assert "0" + Zeros(scale) == Zeros(scale + 1);
    NatZeros(scale);
  }

  lemma RenderInjective(a: Decimal, b: Decimal)
    requires Digits(a) && Digits(b) && Render(a) == Render(b)
    ensures a == b
  {
    NumeralSplit(Render(a), a);
    NumeralSplit(Render(b), b);
  }

  /** The numeral in an accepted text. */
  function Numeral(raw: string): Decimal
    requires SplitPoint(WithoutPlus(Trim(raw))).Some?
  {
    SplitPoint(WithoutPlus(Trim(raw))).value
  }

  lemma AcceptedNumeral(raw: string, scale: nat, maxIntegerDigits: nat, allowZero: bool)
    requires Normalize(raw, scale, maxIntegerDigits, allowZero).Ok?
    ensures SplitPoint(WithoutPlus(Trim(raw))).Some? && Digits(Numeral(raw)) && |Numeral(raw).frac| <= scale
    ensures Normalize(raw, scale, maxIntegerDigits, allowZero).text == Render(Canonical(Numeral(raw), scale))
    ensures |StripLeading(Numeral(raw).whole)| <= maxIntegerDigits
  {
  }

  /** The value of the normal form is the value of the input, and normalising again changes nothing. */
  lemma NormalizePreserves(raw: string, scale: nat, maxIntegerDigits: nat, allowZero: bool)
    requires Normalize(raw, scale, maxIntegerDigits, allowZero).Ok?
    ensures
      var text := Normalize(raw, scale, maxIntegerDigits, allowZero).text;
      && SplitPoint(WithoutPlus(Trim(text))).Some? && Digits(Numeral(text)) && |Numeral(text).frac| == scale
      && SplitPoint(WithoutPlus(Trim(raw))).Some? && Digits(Numeral(raw)) && |Numeral(raw).frac| <= scale
      && Value(Numeral(text), scale) == Value(Numeral(raw), scale)
      && Reads(raw, Numeral(raw)) && text == Numeral(text).whole + "." + Numeral(text).frac
      && Normalize(text, scale, maxIntegerDigits, allowZero) == Ok(text)
  {
    hide Nat, Pow10, StripLeading, Trim, SplitPoint, Pad;
    AcceptedNumeral(raw, scale, maxIntegerDigits, allowZero);
    var c := Canonical(Numeral(raw), scale);
    var text := Render(c);
    CanonicalKeepsValue(Numeral(raw), scale);
    ReadsOne(raw, Numeral(raw));
    RenderStable(c, scale);
    CanonicalFixed(c, scale);
  }

  lemma RenderStable(c: Decimal, scale: nat)
    requires IsCanonical(c, scale)
    ensures WithoutPlus(Trim(Render(c))) == Render(c) && SplitPoint(Render(c)) == Some(c)
    ensures Render(c) != "" && Render(c)[0] != '-'
  {
    var text := Render(c);
    assert !IsSpace(text[0]);
    assert text[|text| - 1] == if c.frac == "" then '.' else c.frac[|c.frac| - 1];
    TrimFixed(text);
    NumeralSplit(text, c);
  }

  lemma CanonicalFixed(c: Decimal, scale: nat)
    requires IsCanonical(c, scale)
    ensures Canonical(c, scale) == c
  {
    StripLeadingShape(c.whole);
  }

  /** Two accepted texts get the same normal form exactly when they have the same value. */
  lemma NormalizeDecidesValue(a: string, b: string, scale: nat, maxIntegerDigits: nat, allowZero: bool)
    requires Normalize(a, scale, maxIntegerDigits, allowZero).Ok?
    requires Normalize(b, scale, maxIntegerDigits, allowZero).Ok?
    ensures SplitPoint(WithoutPlus(Trim(a))).Some? && Digits(Numeral(a)) && |Numeral(a).frac| <= scale
    ensures SplitPoint(WithoutPlus(Trim(b))).Some? && Digits(Numeral(b)) && |Numeral(b).frac| <= scale
    ensures Value(Numeral(a), scale) == Value(Numeral(b), scale) <==>
              Normalize(a, scale, maxIntegerDigits, allowZero) == Normalize(b, scale, maxIntegerDigits, allowZero)
  {
    hide Nat, Pow10, StripLeading, Trim, SplitPoint, Pad;
    AcceptedNumeral(a, scale, maxIntegerDigits, allowZero);
    AcceptedNumeral(b, scale, maxIntegerDigits, allowZero);
    var c, d := Canonical(Numeral(a), scale), Canonical(Numeral(b), scale);
    CanonicalKeepsValue(Numeral(a), scale);
    CanonicalKeepsValue(Numeral(b), scale);
    if Value(c, scale) == Value(d, scale) {
      CanonicalUnique(c, d, scale);
    }
    if Render(c) == Render(d) {
      RenderInjective(c, d);
    }
  }

  // ---------------------------------------------------------------------------------
  // format_usd_plain_fixed6
  // ---------------------------------------------------------------------------------

  function Unsigned(text: string): string {
    if text != "" && (text[0] == '+' || text[0] == '-') then text[1..] else text
  }

  function Minus(text: string): string {
    if text != "" && text[0] == '-' then "-" else ""
  }

  /** Everything after the first point counts as fraction here. */
  function FirstPoint(body: string): Decimal {
    var dot := Find(body, '.');
    if dot == |body| then Decimal(body, "") else Decimal(body[..dot], body[dot + 1..])
  }

  /** Shortest form: no leading zeros, no trailing zeros, no bare point. */
  function Plain(d: Decimal): string {
    var frac := StripTrailing(d.frac);
    StripLeading(d.whole) + (if frac == "" then "" else "." + frac)
  }

  function FormatUsd(raw: string): string {
    var text := Trim(raw);
    if text == "" then "0" else Minus(text) + Plain(FirstPoint(Unsigned(text)))
  }

  method FormatUsdPlainFixed6(raw: string) returns (out: string)
    ensures out == FormatUsd(raw)
  {
    hide Find, Trim, StripLeading, StripTrailing;
    var text := TrimAscii(raw);
    if text == "" {
      return "0";
    }
    var negative := false;
    if text[0] == '+' || text[0] == '-' {
      negative := text[0] == '-';
      text := text[1..];
    }
    var dot := Find(text, '.');
    var integer := if dot == |text| then text else text[..dot];
    var fraction := if dot == |text| then "" else text[dot + 1..];
    integer := KeepOneZero(integer);
    fraction := DropTrailingZeros(fraction);
    out := if negative then "-" else "";
    ghost var minus := out;
    out := out + integer;
    if fraction != "" {
      out := out + ".";
      out := out + fraction;
      assert out == minus + (integer + ("." + fraction));
    } else {
      assert out == minus + (integer + "");
    }
  }

  method DropTrailingZeros(digits: string) returns (t: string)
    ensures t == StripTrailing(digits)
  {
    t := digits;
    while t != "" && t[|t| - 1] == '0'
      invariant StripTrailing(t) == StripTrailing(digits)
      decreases |t|
    {
      t := t[..|t| - 1];
    }
  }

  /** Here the last zero is kept by the loop bound. */
  method KeepOneZero(digits: string) returns (t: string)
    ensures t == StripLeading(digits)
  {
    var integer := if digits == "" then "0" else digits;
    var nonZero := 0;
    assert integer[0..] == integer;
    assert StripLeading("0") == StripLeading("") == "0";
    while nonZero + 1 < |integer| && integer[nonZero] == '0'
      invariant 0 <= nonZero < |integer|
      invariant StripLeading(integer[nonZero..]) == StripLeading(digits)
    {
      assert integer[nonZero..][1..] == integer[nonZero + 1..];
      nonZero := nonZero + 1;
    }
    t := integer[nonZero..];
    assert |t| == 1 ==> t == [t[0]] && t[1..] == "";
  }

  predicate IsPlain(d: Decimal) {
    && Digits(d) && d.whole != "" && (|d.whole| > 1 ==> d.whole[0] != '0')
    && (d.frac != "" ==> d.frac[|d.frac| - 1] != '0')
  }

  function Shortest(d: Decimal): Decimal {
    Decimal(StripLeading(d.whole), StripTrailing(d.frac))
  }

  lemma {:induction false} StripTrailingZeros(s: string)
    ensures var t := StripTrailing(s);
            && |t| <= |s| && s == t + Zeros(|s| - |t|)
            && (t != "" ==> t[|t| - 1] != '0') && StripTrailing(t) == t
  {
    if s != "" && s[|s| - 1] == '0' {
      StripTrailingZeros(s[..|s| - 1]);
      var t := StripTrailing(s);
      assert s == s[..|s| - 1] + "0";
      assert Zeros(|s| - 1 - |t|) + "0" == Zeros(|s| - |t|);
    }
  }

  lemma ShortestDigits(d: Decimal)
    requires Digits(d)
    ensures var s := Shortest(d);
            && IsPlain(s) && |s.frac| <= |d.frac| && d.frac == s.frac + Zeros(|d.frac| - |s.frac|)
            && Nat(s.whole) == Nat(d.whole)
  {
    hide Nat;
    StripLeadingShape(d.whole);
    StripLeadingNat(d.whole);
    StripTrailingZeros(d.frac);
    var s := Shortest(d);
    forall i | 0 <= i < |s.frac| ensures IsDigit(s.frac[i]) {
      assert d.frac[i] == s.frac[i];
    }
  }

  lemma ShortestKeepsValue(d: Decimal, scale: nat)
    requires Digits(d) && |d.frac| <= scale
    ensures IsPlain(Shortest(d)) && |Shortest(d).frac| <= |d.frac|
    ensures Value(Shortest(d), scale) == Value(d, scale)
  {
    hide Nat, Pow10, Zeros, Shortest, StripLeading, StripTrailing;
    ShortestDigits(d);
    var s := Shortest(d);
    var n := |d.frac| - |s.frac|;
    NatZeros(n);
    NatAppend(s.frac, Zeros(n));
    NatAppend(d.whole, d.frac);
    NatAppend(s.whole, s.frac);
    Pow10Add(|s.frac|, n);
    Pow10Add(n, scale - |d.frac|);
    assert n + (scale - |d.frac|) == scale - |s.frac|;
    ScaleUp(Nat(s.whole), Pow10(|s.frac|), Nat(s.frac), Pow10(n), Pow10(scale - |d.frac|));
  }

  lemma ScaleUp(a: nat, p: nat, b: nat, n: nat, m: nat)
    ensures (a * p + b) * (n * m) == (a * (p * n) + b * n) * m
  {
    Factor(a, p, b, n);
  }

  /** Numerals with an optional sign. */
  ghost predicate IsSigned(raw: string, sign: string, d: Decimal) {
    && (sign == "" || sign == "+" || sign == "-")
    && Trim(raw) != "" && sign <= Trim(raw) && IsNumeral(Trim(raw)[|sign|..], d)
  }

  lemma UnsignedIs(raw: string, sign: string, d: Decimal)
    requires IsSigned(raw, sign, d)
    ensures Unsigned(Trim(raw)) == Trim(raw)[|sign|..] && Minus(Trim(raw)) == if sign == "-" then "-" else ""
  {
    hide Trim;
    NumeralFirstPoint(Trim(raw)[|sign|..], d);
    assert sign != "" ==> Trim(raw)[0] == sign[0];
  }

  lemma NumeralFirstPoint(body: string, d: Decimal)
    requires IsNumeral(body, d)
    ensures FirstPoint(body) == d && (body != "" ==> body[0] != '+' && body[0] != '-')
  {
    NumeralSplit(body, d);
  }

  lemma PlainNumeral(d: Decimal)
    requires IsPlain(d)
    ensures IsNumeral(Plain(d), d) && Plain(d) == if d.frac == "" then d.whole else Render(d)
    ensures var t := Plain(d); t != "" && !IsSpace(t[0]) && !IsSpace(t[|t| - 1])
  {
    StripLeadingShape(d.whole);
    StripTrailingZeros(d.frac);
    assert StripTrailing(d.frac) == d.frac;
  }

  /** On signed numerals formatting keeps sign and value, gives the shortest numeral, and is
      idempotent; a plus sign is dropped and a minus sign kept even on zero. */
  lemma FormatPreserves(raw: string, sign: string, d: Decimal, scale: nat)
    requires IsSigned(raw, sign, d) && |d.frac| <= scale
    ensures
      var out := FormatUsd(raw);
      && IsSigned(out, if sign == "-" then "-" else "", Shortest(d))
      && IsPlain(Shortest(d)) && |Shortest(d).frac| <= scale && Value(Shortest(d), scale) == Value(d, scale)
      && FormatUsd(out) == out
  {
    hide Nat, Pow10, Value, StripLeading, StripTrailing, Trim, Find, FormatUsd, Plain, Shortest, Unsigned;
    var s, minus := Shortest(d), if sign == "-" then "-" else "";
    ShortestKeepsValue(d, scale);
    FormatIs(raw, sign, d);
    SignedPlain(s, minus);
    ShortestTwice(d);
    FormatIs(minus + Plain(s), minus, s);
  }

  lemma FormatIs(raw: string, sign: string, d: Decimal)
    requires IsSigned(raw, sign, d)
    ensures FormatUsd(raw) == (if sign == "-" then "-" else "") + Plain(Shortest(d))
  {
    hide Plain, Shortest, Trim, Find;
    UnsignedIs(raw, sign, d);
    NumeralFirstPoint(Unsigned(Trim(raw)), d);
    ShortestTwice(d);
  }

  lemma SignedPlain(s: Decimal, minus: string)
    requires IsPlain(s) && (minus == "" || minus == "-")
    ensures IsSigned(minus + Plain(s), minus, s)
  {
    hide Plain, Trim, Find, IsNumeral, IsPlain, FirstPoint;
    PlainNumeral(s);
    NumeralFirstPoint(Plain(s), s);
    var text := minus + Plain(s);
    assert text[|text| - 1] == Plain(s)[|Plain(s)| - 1];
    TrimFixed(text);
    assert text[|minus|..] == Plain(s);
  }

  lemma ShortestTwice(d: Decimal)
    ensures Plain(Shortest(d)) == Plain(d) && Shortest(Shortest(d)) == Shortest(d)
  {
    StripLeadingShape(d.whole);
    StripLeadingShape(StripLeading(d.whole));
    StripTrailingZeros(d.frac);
  }

  /** What formatting does to any text with a point: leading zeros before the first point go, but for
      a last one, trailing zeros go, and a point with nothing behind it. */
  lemma FormatText(raw: string, sign: string, m: nat, whole: string, frac: string, k: nat)
    requires sign == "" || sign == "+" || sign == "-"
    requires Trim(raw) == sign + (Zeros(m) + whole + "." + (frac + Zeros(k)))
    requires '.' !in whole && whole != "" && (|whole| > 1 ==> whole[0] != '0')
    requires frac != "" ==> frac[|frac| - 1] != '0'
    requires sign == "" ==> m > 0 || (whole[0] != '+' && whole[0] != '-')
    ensures FormatUsd(raw) == (if sign == "-" then "-" else "") + whole + (if frac == "" then "" else "." + frac)
  {
    hide Trim, FirstPoint, StripLeading, StripTrailing, Zeros, Unsigned, Minus;
    var before, after := Zeros(m) + whole, frac + Zeros(k);
    var body := before + "." + after;
    assert '.' !in before && (sign == "" ==> body[0] != '+' && body[0] != '-') by {
      ZerosAt(m);
      assert forall i | 0 <= i < |before| :: before[i] == if i < m then '0' else whole[i - m];
      assert body[0] == before[0];
    }
    SignSplit(sign, body);
    CutAtFirst(before, after);
    LeadingZeros(m, whole);
    TrailingZeros(frac, k);
    var minus, tail := if sign == "-" then "-" else "", if frac == "" then "" else "." + frac;
    assert minus + (whole + tail) == minus + whole + tail;
  }

  lemma ZerosAt(m: nat)
    ensures |Zeros(m)| == m && forall i | 0 <= i < m :: Zeros(m)[i] == '0'
  {
  }

  lemma SignSplit(sign: string, body: string)
    requires sign == "" || sign == "+" || sign == "-"
    requires sign == "" ==> body != "" && body[0] != '+' && body[0] != '-'
    ensures Unsigned(sign + body) == body && Minus(sign + body) == if sign == "-" then "-" else ""
  {
    assert sign != "" ==> (sign + body)[0] == sign[0] && (sign + body)[1..] == body;
    assert sign == "" ==> sign + body == body;
  }

  lemma CutAtFirst(before: string, after: string)
    requires '.' !in before
    ensures FirstPoint(before + "." + after) == Decimal(before, after)
  {
    hide Find;
    var body := before + "." + after;
    assert body[..|before|] == before && body[|before| + 1..] == after;
    FindAt(body, '.', |before|);
  }

  lemma FormatBlank(raw: string)
    requires Trim(raw) == ""
    ensures FormatUsd(raw) == "0"
  {
  }

  lemma {:induction false} LeadingZeros(m: nat, whole: string)
    requires whole != "" && (|whole| > 1 ==> whole[0] != '0')
    ensures StripLeading(Zeros(m) + whole) == whole
  {
    if m == 0 {
      assert Zeros(0) + whole == whole;
      StripLeadingShape(whole);
    } else {
      assert (Zeros(m) + whole)[1..] == Zeros(m - 1) + whole;
      LeadingZeros(m - 1, whole);
    }
  }

  lemma {:induction false} TrailingZeros(frac: string, k: nat)
    requires frac != "" ==> frac[|frac| - 1] != '0'
    ensures StripTrailing(frac + Zeros(k)) == frac
  {
    var s := frac + Zeros(k);
    if k == 0 {
      assert s == frac;
    } else {
      assert s[|s| - 1] == '0' && s[..|s| - 1] == frac + Zeros(k - 1);
      TrailingZeros(frac, k - 1);
    }
  }

  /** Two non-negative numerals are formatted alike exactly when their values are equal. */
  lemma FormatDecidesValue(a: Decimal, b: Decimal, scale: nat)
    requires Digits(a) && Digits(b) && |a.frac| <= scale && |b.frac| <= scale
    ensures Plain(a) == Plain(b) <==> Value(a, scale) == Value(b, scale)
  {
    hide Nat, Pow10, StripLeading, StripTrailing, Find;
    ShortestTwice(a);
    ShortestTwice(b);
    ShortestKeepsValue(a, scale);
    ShortestKeepsValue(b, scale);
    var s, t := Shortest(a), Shortest(b);
    PlainNumeral(s);
    PlainNumeral(t);
    if Plain(s) == Plain(t) {
      NumeralFirstPoint(Plain(s), s);
      NumeralFirstPoint(Plain(t), t);
    }
    if Value(a, scale) == Value(b, scale) {
      CanonicalKeepsValue(s, scale);
      CanonicalKeepsValue(t, scale);
      CanonicalUnique(Canonical(s, scale), Canonical(t, scale), scale);
      SamePadding(s, t, scale);
    }
  }

  lemma SamePadding(s: Decimal, t: Decimal, scale: nat)
    requires IsPlain(s) && IsPlain(t) && |s.frac| <= scale && |t.frac| <= scale
    requires Canonical(s, scale) == Canonical(t, scale)
    ensures s == t
  {
    StripLeadingShape(s.whole);
    StripLeadingShape(t.whole);
    var p := Pad(s.frac, scale);
    assert p == s.frac + Zeros(scale - |s.frac|) == t.frac + Zeros(scale - |t.frac|);
    if |s.frac| < |t.frac| {
      PadLonger(s.frac, t.frac, scale);
    } else if |t.frac| < |s.frac| {
      PadLonger(t.frac, s.frac, scale);
    }
    assert s.frac == p[..|s.frac|] == t.frac;
  }

  lemma PadLonger(a: string, b: string, scale: nat)
    requires |a| < |b| <= scale && a + Zeros(scale - |a|) == b + Zeros(scale - |b|)
    ensures b[|b| - 1] == '0'
  {
    assert (b + Zeros(scale - |b|))[|b| - 1] == (a + Zeros(scale - |a|))[|b| - 1];
  }

  /** Any accepted price text, shown to the user, still has its value. */
  lemma NormalizeThenFormat(raw: string, scale: nat, maxIntegerDigits: nat, allowZero: bool)
    requires Normalize(raw, scale, maxIntegerDigits, allowZero).Ok?
    ensures
      var text := Normalize(raw, scale, maxIntegerDigits, allowZero).text;
      && SplitPoint(WithoutPlus(Trim(raw))).Some? && Digits(Numeral(raw)) && |Numeral(raw).frac| <= scale
      && FormatUsd(text) == Plain(Numeral(raw))
      && FormatUsd(FormatUsd(text)) == FormatUsd(text)
  {
    hide Nat, Pow10, StripLeading, StripTrailing, Trim, Find, Pad, Zeros;
    AcceptedNumeral(raw, scale, maxIntegerDigits, allowZero);
    var d := Numeral(raw);
    var c := Canonical(d, scale);
    CanonicalKeepsValue(d, scale);
    RenderStable(c, scale);
    RenderSigned(c, scale);
    FormatPreserves(Render(c), "", c, scale);
    NumeralFirstPoint(Render(c), c);
    FormatDecidesValue(c, d, scale);
  }

  lemma RenderSigned(c: Decimal, scale: nat)
    requires IsCanonical(c, scale)
    ensures IsSigned(Render(c), "", c) && Trim(Render(c)) == Render(c) == Unsigned(Render(c))
  {
    hide Trim;
    var text := Render(c);
    assert text[|text| - 1] == if c.frac == "" then '.' else c.frac[|c.frac| - 1];
    TrimFixed(text);
  }

  // ---------------------------------------------------------------------------------
  // normalize_usd_amount
  // ---------------------------------------------------------------------------------

  datatype UsdError = Empty | Malformed | TooManyDecimals | NotAboveZero

  datatype UsdResult = Amount(text: string) | Refused(error: UsdError)

  /** What the scan has read: digits, or digits, a point and digits. */
  ghost predicate Scanned(read: string, seenDot: bool, d: Decimal) {
    Digits(d) && (if seenDot then read == Render(d) else read == d.whole && d.frac == "")
  }

  /** The scan has read `j` characters without an error. */
  ghost predicate ReadUpTo(body: string, j: nat, seenDot: bool, d: Decimal) {
    j < |body| && Scanned(body[..j], seenDot, d) && |d.frac| <= 6
  }

  /** Accepted exactly: a numeral with at most six decimals and a value above zero; the text
      is then the shortest numeral of that value. The error names the first thing wrong. */
  ghost predicate UsdSpec(raw: string, r: UsdResult) {
    var body := WithoutPlus(Trim(raw));
    match r
    case Amount(text) =>
      exists d :: IsNumeral(body, d) && |d.frac| <= 6 && Value(d, 6) > 0 && text == Plain(d)
    case Refused(error) =>
      && (forall d | IsNumeral(body, d) && |d.frac| <= 6 :: Value(d, 6) == 0)
      && match error
         case Empty => Trim(raw) == ""
         case Malformed => Trim(raw) != "" && (IsNumeral(body, Decimal("", "")) || BadByte(body))
         case TooManyDecimals => SevenDecimals(body)
         case NotAboveZero => exists d :: IsNumeral(body, d) && |d.frac| <= 6 && d != Decimal("", "")
  }

  /** A character that is neither a digit nor the first point, before any seventh decimal. */
  ghost predicate BadByte(body: string) {
    exists j: nat, seenDot, d ::
      ReadUpTo(body, j, seenDot, d) && !IsDigit(body[j]) && (body[j] == '.' ==> seenDot)
  }

  /** A seventh decimal, before any other error. */
  ghost predicate SevenDecimals(body: string) {
    exists j: nat, d :: ReadUpTo(body, j, true, d) && |d.frac| == 6 && IsDigit(body[j])
  }

  /** A scanned text followed by a character that cannot continue it is no numeral. */
  lemma RejectedByte(body: string, j: nat, seenDot: bool, d: Decimal)
    requires j < |body| && Scanned(body[..j], seenDot, d)
    requires !IsDigit(body[j]) && (body[j] == '.' ==> seenDot)
    ensures forall e :: !IsNumeral(body, e)
  {
    if seenDot {
      assert body[|d.whole|] == body[..j][|d.whole|] == '.';
    }
    forall e ensures !IsNumeral(body, e) {
      if IsNumeral(body, e) {
        NumeralByte(body, e, j);
      }
    }
  }

  lemma NumeralByte(body: string, e: Decimal, k: nat)
    requires IsNumeral(body, e) && k < |body|
    ensures IsDigit(body[k]) || (body[k] == '.' && k == |e.whole|)
  {
  }

  lemma SeventhDecimal(body: string, j: nat, d: Decimal)
    requires j < |body| && Scanned(body[..j], true, d) && |d.frac| == 6
    ensures forall e | IsNumeral(body, e) :: |e.frac| > 6
  {
    assert body[|d.whole|] == body[..j][|d.whole|] == '.';
    forall e | IsNumeral(body, e) ensures |e.frac| > 6 {
      assert body == Render(e);
      assert forall k | 0 <= k < |body| :: k == |e.whole| || IsDigit(body[k]);
    }
  }

  lemma OneNumeral(body: string, d: Decimal)
    requires IsNumeral(body, d)
    ensures forall e | IsNumeral(body, e) :: e == d
    ensures SplitPoint(body) == Some(d)
  {
    NumeralSplit(body, d);
    forall e | IsNumeral(body, e) ensures e == d {
      NumeralSplit(body, e);
    }
  }

  lemma NoDigitsNoValue()
    ensures Value(Decimal("", ""), 6) == 0
  {
    assert "" + "" == "";
  }

  lemma FormatOfFixed(d: Decimal)
    requires Digits(d) && |d.frac| <= 6
    ensures FormatUsd(Render(Canonical(d, 6))) == Plain(d)
  {
    hide Nat, Pow10, StripLeading, StripTrailing, Trim, Find, Pad, Zeros;
    var c := Canonical(d, 6);
    CanonicalKeepsValue(d, 6);
    RenderStable(c, 6);
    RenderSigned(c, 6);
    NumeralFirstPoint(Render(c), c);
    FormatDecidesValue(c, d, 6);
  }

  lemma ScanPoint(read: string, d: Decimal)
    requires Scanned(read, false, d)
    ensures Scanned(read + ".", true, d)
  {
    assert d.frac == "" && Render(d) == d.whole + ".";
  }

  lemma ScanDigit(read: string, seenDot: bool, d: Decimal, ch: char)
    requires Scanned(read, seenDot, d) && IsDigit(ch)
    ensures Scanned(read + [ch], seenDot,
                    if seenDot then d.(frac := d.frac + [ch]) else d.(whole := d.whole + [ch]))
  {
    assert Render(d) + [ch] == Render(d.(frac := d.frac + [ch]));
  }

  lemma RefusedByte(raw: string, j: nat, seenDot: bool, d: Decimal)
    requires Trim(raw) != ""
    requires var body := WithoutPlus(Trim(raw));
             ReadUpTo(body, j, seenDot, d) && !IsDigit(body[j]) && (body[j] == '.' ==> seenDot)
    ensures UsdSpec(raw, Refused(Malformed))
  {
    hide IsNumeral, Scanned;
    RejectedByte(WithoutPlus(Trim(raw)), j, seenDot, d);
  }

  lemma RefusedSeventh(raw: string, j: nat, d: Decimal)
    requires var body := WithoutPlus(Trim(raw));
             ReadUpTo(body, j, true, d) && |d.frac| == 6 && IsDigit(body[j])
    ensures UsdSpec(raw, Refused(TooManyDecimals))
  {
    hide IsNumeral, Scanned;
    SeventhDecimal(WithoutPlus(Trim(raw)), j, d);
  }

  lemma RefusedEmpty(raw: string)
    requires Trim(raw) == ""
    ensures UsdSpec(raw, Refused(Empty))
  {
    hide Value;
    OneNumeral("", Decimal("", ""));
    NoDigitsNoValue();
  }

  lemma EndWithoutDigits(raw: string, d: Decimal)
    requires Trim(raw) != "" && IsNumeral(WithoutPlus(Trim(raw)), d) && d == Decimal("", "")
    ensures UsdSpec(raw, Refused(Malformed))
  {
    hide Value, Trim, WithoutPlus, IsNumeral;
    OneNumeral(WithoutPlus(Trim(raw)), d);
    NoDigitsNoValue();
  }

  lemma EndInZero(raw: string, d: Decimal)
    requires IsNumeral(WithoutPlus(Trim(raw)), d) && Digits(d) && |d.frac| <= 6
    requires d != Decimal("", "") && Value(d, 6) == 0
    ensures UsdSpec(raw, Refused(NotAboveZero))
  {
    hide Value, Trim, WithoutPlus, IsNumeral;
    OneNumeral(WithoutPlus(Trim(raw)), d);
  }

  lemma EndInAmount(raw: string, d: Decimal)
    requires IsNumeral(WithoutPlus(Trim(raw)), d) && Digits(d) && |d.frac| <= 6 && Value(d, 6) > 0
    ensures UsdSpec(raw, Amount(FormatUsd(Render(Canonical(d, 6)))))
  {
    hide Value, Trim, WithoutPlus, IsNumeral, FormatUsd, Canonical, Plain, Render;
    FormatOfFixed(d);
  }

  /** What a text read to the end without an error comes to. */
  lemma ReadToEnd(raw: string, seenDot: bool, d: Decimal)
    requires Trim(raw) != "" && Scanned(WithoutPlus(Trim(raw)), seenDot, d) && |d.frac| <= 6
    ensures SplitPoint(WithoutPlus(Trim(raw))) == Some(d)
    ensures d == Decimal("", "") ==> UsdSpec(raw, Refused(Malformed))
    ensures d != Decimal("", "") && Value(d, 6) == 0 ==> UsdSpec(raw, Refused(NotAboveZero))
    ensures Value(d, 6) > 0 ==> UsdSpec(raw, Amount(FormatUsd(Render(Canonical(d, 6)))))
  {
    var body := WithoutPlus(Trim(raw));
    assert IsNumeral(body, d);
    hide Value, IsNumeral, Scanned, FormatUsd, Canonical, Render, SplitPoint, Trim, WithoutPlus, UsdSpec;
    OneNumeral(body, d);
    if d == Decimal("", "") {
      EndWithoutDigits(raw, d);
      NoDigitsNoValue();
    } else if Value(d, 6) == 0 {
      EndInZero(raw, d);
    } else {
      EndInAmount(raw, d);
    }
  }

  /** The credit an administrator enters. The six-decimal text of the value is formed exactly. */
  method NormalizeUsdAmount(raw: string) returns (r: UsdResult)
    ensures UsdSpec(raw, r)
  {
    hide Value, Trim, UsdSpec, FormatUsd, SplitPoint, Canonical;
    var text := TrimAscii(raw);
    ghost var body := WithoutPlus(text);
    if text == "" {
      RefusedEmpty(raw);
      return Refused(Empty);
    }
    var seenDot, fractionDigits, digitCount := false, 0, 0;
    ghost var d := Decimal("", "");
    var start := if text[0] == '+' then 1 else 0;
    assert text[start..] == body;
    for i := start to |text|
      invariant Scanned(body[..i - start], seenDot, d)
      invariant fractionDigits == |d.frac| <= 6 && digitCount == |d.whole| + |d.frac|
    {
      hide Scanned;
      var ch := text[i];
      assert ch == body[i - start] && body[..i - start + 1] == body[..i - start] + [ch];
      assert ReadUpTo(body, i - start, seenDot, d);
      if ch == '.' {
        if seenDot {
          RefusedByte(raw, i - start, seenDot, d);
          return Refused(Malformed);
        }
        ScanPoint(body[..i - start], d);
        seenDot := true;
        continue;
      }
      if ch < '0' || ch > '9' {
        RefusedByte(raw, i - start, seenDot, d);
        return Refused(Malformed);
      }
      digitCount := digitCount + 1;
      ScanDigit(body[..i - start], seenDot, d, ch);
      if seenDot {
        fractionDigits := fractionDigits + 1;
        if fractionDigits > 6 {
          RefusedSeventh(raw, i - start, d);
          return Refused(TooManyDecimals);
        }
        d := d.(frac := d.frac + [ch]);
      } else {
        d := d.(whole := d.whole + [ch]);
      }
    }
    assert body[..|body|] == body;
    assert Digits(d);
    ReadToEnd(raw, seenDot, d);
    if digitCount == 0 {
      assert d == Decimal("", "");
      return Refused(Malformed);
    }
    var value := SplitPoint(WithoutPlus(text)).value;
    if Value(value, 6) == 0 {
      return Refused(NotAboveZero);
    }
    var out := FormatUsdPlainFixed6(Render(Canonical(value, 6)));
    return Amount(out);
  }
}
