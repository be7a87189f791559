/**
 Exact conversion between decimal amounts and base units, in integers only: decimal strings are
 scaled by a power of ten that is checked before it is built, and base units are printed back.
 */
module Units {
  import opened Arithmetic
  import opened TextScan
  import opened Wrappers

  // ---------- Powers of ten and digit strings ----------

  function Pow10(n: nat): (p: nat)
    ensures p >= 1
  {
    if n == 0 then 1 else 10 * Pow10(n - 1)
  }

  lemma {:induction false} Pow10Adds(a: nat, b: nat)
    ensures Pow10(a + b) == Pow10(a) * Pow10(b)
  {
    if a > 0 {
      Pow10Adds(a - 1, b);
      MulAssoc(10, Pow10(a - 1), Pow10(b));
    }
  }

  lemma {:induction false} Pow10Grows(a: nat, b: nat)
    requires a <= b
    ensures Pow10(a) <= Pow10(b)
  {
    if a < b {
      Pow10Grows(a, b - 1);
    }
  }

  function DigitValue(c: char): (n: nat)
    ensures n < 10
  {
    if IsDigit(c) then c as int - '0' as int else 0
  }

  function Val(s: string): nat {
    if s == "" then 0 else 10 * Val(s[..|s| - 1]) + DigitValue(s[|s| - 1])
  }

  lemma {:induction false} ValBound(s: string)
    ensures Val(s) < Pow10(|s|)
  {
    if s != "" {
      ValBound(s[..|s| - 1]);
    }
  }

  lemma {:induction false} ValConcat(a: string, b: string)
    ensures Val(a + b) == Val(a) * Pow10(|b|) + Val(b)
  {
    if b == "" {
      assert a + b == a;
    } else {
      var c := b[..|b| - 1];
      ValConcat(a, c);
      Appended(a, b);
      MulAssoc(10, Val(a), Pow10(|c|));
      assert 10 * (Val(a) * Pow10(|c|)) == Val(a) * Pow10(|b|);
    }
  }

  lemma Appended(a: string, b: string)
    requires b != ""
    ensures Val(a + b) == 10 * Val(a + b[..|b| - 1]) + DigitValue(b[|b| - 1])
    ensures Val(b) == 10 * Val(b[..|b| - 1]) + DigitValue(b[|b| - 1])
  {
    assert (a + b)[..|a + b| - 1] == a + b[..|b| - 1];
  }

  /** Digits without leading zeros, as a decimal's coefficient has them. */
  predicate Normal(digits: string) {
    digits != "" && AllDigits(digits) && (|digits| > 1 ==> digits[0] != '0')
  }

  function StripZeros(s: string): (r: string)
    ensures |r| <= |s|
  {
    if |s| > 1 && s[0] == '0' then StripZeros(s[1..]) else s
  }

  lemma {:induction false} StripZerosNormal(s: string)
    requires s != "" && AllDigits(s)
    ensures Normal(StripZeros(s)) && Val(StripZeros(s)) == Val(s)
  {
    if |s| > 1 && s[0] == '0' {
      StripZerosNormal(s[1..]);
      ValConcat("0", s[1..]);
      assert s == "0" + s[1..];
      assert Val("0") == 0 by {
        assert "0"[..0] == "";
      }
    }
  }

  /** A normal nonzero coefficient has exactly as many digits as it is written with. */
  lemma {:induction false} NormalIsLarge(s: string)
    requires Normal(s) && Val(s) != 0
    ensures Pow10(|s| - 1) <= Val(s)
  {
    if |s| > 1 {
      var t := s[..|s| - 1];
      assert t[0] == s[0];
      if Val(t) == 0 {
        LeadingDigit(t);
        assert false;
      }
      NormalIsLarge(t);
    } else {
      assert s[..0] == "";
    }
  }

  lemma {:induction false} LeadingDigit(t: string)
    requires t != "" && AllDigits(t) && Val(t) == 0
    ensures t[0] == '0'
  {
    if |t| > 1 {
      LeadingDigit(t[..|t| - 1]);
    }
  }

  // ---------- Decimal strings ----------

  /** A finite decimal: coefficient digits times ten to the exponent. */
  datatype Decimal = Decimal(negative: bool, digits: string, exponent: int)

  datatype Number = Finite(decimal: Decimal) | NonFinite

  function SpanDigits(s: string, i: nat): (j: nat)
    requires i <= |s|
    ensures i <= j <= |s|
    decreases |s| - i
  {
    if i < |s| && IsDigit(s[i]) then SpanDigits(s, i + 1) else i
  }

  lemma {:induction false} SpanIs(s: string, i: nat, j: nat)
    requires i <= j <= |s| && (forall k :: i <= k < j ==> IsDigit(s[k])) && (j < |s| ==> !IsDigit(s[j]))
    ensures SpanDigits(s, i) == j
    decreases j - i
  {
    if i < j {
      SpanIs(s, i + 1, j);
    }
  }

  lemma {:induction false} SpanAreDigits(s: string, i: nat)
    requires i <= |s|
    ensures AllDigits(s[i..SpanDigits(s, i)])
    decreases |s| - i
  {
    if i < |s| && IsDigit(s[i]) {
      SpanAreDigits(s, i + 1);
      assert s[i..SpanDigits(s, i)] == [s[i]] + s[i + 1..SpanDigits(s, i + 1)];
    }
  }

  predicate IsSpecial(s: string) {
    var t := LowerAll(s);
    || t == "inf" || t == "infinity"
    || ("nan" <= t && AllDigits(t[3..])) || ("snan" <= t && AllDigits(t[4..]))
  }

  function ParseExponent(s: string): Option<int> {
    if s == "" then Some(0)
    else if s[0] != 'e' && s[0] != 'E' then None
    else
      var signed := |s| > 1 && (s[1] == '+' || s[1] == '-');
      var digits := s[if signed then 2 else 1..];
      if digits == "" || !AllDigits(digits) then None
      else
        var exponent: int := Val(digits);
        Some(if signed && s[1] == '-' then -exponent else exponent)
  }

  /** A number from its digits, as many of them after the point as given, and the text that follows. */
  function Assemble(negative: bool, digits: string, pointed: nat, rest: string): Option<Number> {
    var exponent := ParseExponent(rest);
    if exponent.None? then None
    else Some(Finite(Decimal(negative, StripZeros(digits), exponent.value - pointed)))
  }

  function ParseUnsigned(negative: bool, s: string): Option<Number> {
    var i := SpanDigits(s, 0);
    var pointed := i < |s| && s[i] == '.';
    var j := if pointed then SpanDigits(s, i + 1) else i;
    var fraction := if pointed then s[i + 1..j] else "";
    if s[..i] + fraction == "" then (if IsSpecial(s) then Some(NonFinite) else None)
    else Assemble(negative, s[..i] + fraction, |fraction|, s[j..])
  }

  function ParseDecimal(s: string): Option<Number> {
    if s != "" && (s[0] == '+' || s[0] == '-') then ParseUnsigned(s[0] == '-', s[1..]) else ParseUnsigned(false, s)
  }

  /** Every parsed coefficient is written without leading zeros. */
  lemma ParsedIsNormal(s: string)
    requires ParseDecimal(s).Some? && ParseDecimal(s).value.Finite?
    ensures Normal(ParseDecimal(s).value.decimal.digits)
  {
    hide Val, Pow10, IsSpecial, ParseExponent, StripZeros, SpanDigits, IsDigit;
    var t := if s != "" && (s[0] == '+' || s[0] == '-') then s[1..] else s;
    var i := SpanDigits(t, 0);
    SpanAreDigits(t, 0);
    assert t[..i] == t[0..i];
    if i < |t| && t[i] == '.' {
      SpanAreDigits(t, i + 1);
      StripZerosNormal(t[..i] + t[i + 1..SpanDigits(t, i + 1)]);
    } else {
      assert t[..i] + "" == t[..i];
      StripZerosNormal(t[..i]);
    }
  }

  // ---------- What counts as a decimal ----------

  datatype Sign = Unsigned | Plus | Minus

  datatype Exponent = NoExponent | Exponent(capital: bool, sign: Sign, digits: string)

  /** A decimal as it is written: digits with at most one point among them, and an exponent. */
  datatype Literal = Literal(sign: Sign, whole: string, fraction: Option<string>, exponent: Exponent)

  function SignText(sign: Sign): string {
    match sign
    case Unsigned => ""
    case Plus => "+"
    case Minus => "-"
  }

  function ExponentText(e: Exponent): string {
    match e
    case NoExponent => ""
    case Exponent(capital, sign, digits) => (if capital then "E" else "e") + (SignText(sign) + digits)
  }

  function FractionDigits(l: Literal): string {
    l.fraction.GetOr("")
  }

  function Magnitude(l: Literal): string {
    l.whole + ((if l.fraction.Some? then "." + l.fraction.value else "") + ExponentText(l.exponent))
  }

  function Text(l: Literal): string {
    SignText(l.sign) + Magnitude(l)
  }

  predicate IsLiteral(l: Literal) {
    && AllDigits(l.whole) && AllDigits(FractionDigits(l)) && l.whole + FractionDigits(l) != ""
    && (l.exponent.Exponent? ==> l.exponent.digits != "" && AllDigits(l.exponent.digits))
  }

  function Written(e: Exponent): int {
    if e.NoExponent? then 0 else if e.sign == Minus then 0 - Val(e.digits) else Val(e.digits)
  }

  lemma ExponentReads(e: Exponent)
    requires e.Exponent? ==> e.digits != "" && AllDigits(e.digits)
    ensures ParseExponent(ExponentText(e)) == Some(Written(e))
  {
    hide Val;
    if e.Exponent? {
      var s := ExponentText(e);
      assert s[1..] == SignText(e.sign) + e.digits;
      if e.sign == Unsigned {
        assert s[1] == e.digits[0] && s[1..] == e.digits;
      } else {
        assert s[2..] == s[1..][1..] == e.digits;
      }
    }
  }

  /** Where the digits before the point end, and where those after it do. */
  lemma PointedLiteral(whole: string, fraction: string, e: Exponent)
    requires AllDigits(whole) && AllDigits(fraction)
    ensures var s, i, j := whole + (("." + fraction) + ExponentText(e)), |whole|, |whole| + 1 + |fraction|;
            && i < j <= |s| && SpanDigits(s, 0) == i && s[i] == '.' && SpanDigits(s, i + 1) == j
            && s[..i] == whole && s[i + 1..j] == fraction && s[j..] == ExponentText(e)
  {
    var rest := ExponentText(e);
    NoDigitFirst(e);
    hide AllDigits, ExponentText;
    Slices(whole, ".", fraction, rest);
    SpanOf(whole, "." + fraction + rest);
    SpanOf(fraction, rest);
    SpanShifts(whole + ".", fraction + rest);
  }

  lemma NoDigitFirst(e: Exponent)
    ensures var s := ExponentText(e); s != "" ==> !IsDigit(s[0]) && s[0] != '.'
  {
  }

  lemma Slices(a: string, b: string, c: string, d: string)
    ensures var s, j, k := a + ((b + c) + d), |a| + |b|, |a| + |b| + |c|;
            && s == a + (b + c + d) == a + b + (c + d) && s[..|a|] == a && s[j..k] == c && s[k..] == d
  {
  }

  /** The digits at the front of a text. */
  lemma SpanOf(digits: string, rest: string)
    requires AllDigits(digits) && (rest != "" ==> !IsDigit(rest[0]))
    ensures SpanDigits(digits + rest, 0) == |digits| && (digits + rest)[..|digits|] == digits
    ensures (digits + rest)[|digits|..] == rest
  {
    SpanIs(digits + rest, 0, |digits|);
  }

  lemma {:induction false} SpanShifts(a: string, s: string)
    ensures SpanDigits(a + s, |a|) == |a| + SpanDigits(s, 0)
  {
    SpanAreDigits(s, 0);
    SpanStops(s, 0);
    var n := SpanDigits(s, 0);
    assert forall k :: |a| <= k < |a| + n ==> (a + s)[k] == s[0..n][k - |a|];
    SpanIs(a + s, |a|, |a| + n);
  }

  lemma {:induction false} SpanStops(s: string, i: nat)
    requires i <= |s|
    ensures SpanDigits(s, i) < |s| ==> !IsDigit(s[SpanDigits(s, i)])
    decreases |s| - i
  {
    if i < |s| && IsDigit(s[i]) {
      SpanStops(s, i + 1);
    }
  }

  function Worth(negative: bool, digits: string, pointed: nat, e: Exponent): Option<Number> {
    Some(Finite(Decimal(negative, StripZeros(digits), Written(e) - pointed)))
  }

  lemma PointedReads(negative: bool, whole: string, fraction: string, e: Exponent)
    requires AllDigits(whole) && AllDigits(fraction) && whole + fraction != ""
    requires ParseExponent(ExponentText(e)) == Some(Written(e))
    ensures ParseUnsigned(negative, whole + (("." + fraction) + ExponentText(e)))
            == Worth(negative, whole + fraction, |fraction|, e)
  {
    hide ParseUnsigned, SpanDigits, ExponentText, Written, Assemble, AllDigits, IsDigit, ParseExponent, StripZeros, Worth;
    PointedLiteral(whole, fraction, e);
    PointedUnsigned(negative, whole + (("." + fraction) + ExponentText(e)), |whole|, |whole| + 1 + |fraction|);
    AssembleReads(negative, whole + fraction, |fraction|, e);
  }

  lemma PlainReads(negative: bool, whole: string, e: Exponent)
    requires AllDigits(whole) && whole != ""
    requires ParseExponent(ExponentText(e)) == Some(Written(e))
    ensures ParseUnsigned(negative, whole + ExponentText(e)) == Worth(negative, whole, 0, e)
  {
    NoDigitFirst(e);
    hide ParseUnsigned, SpanDigits, ExponentText, Written, Assemble, AllDigits, IsDigit, ParseExponent, StripZeros, Worth;
    SpanOf(whole, ExponentText(e));
    PlainUnsigned(negative, whole + ExponentText(e), |whole|);
    AssembleReads(negative, whole, 0, e);
  }

  lemma UnsignedReads(l: Literal, negative: bool)
    requires IsLiteral(l)
    ensures ParseUnsigned(negative, Magnitude(l))
            == Worth(negative, l.whole + FractionDigits(l), |FractionDigits(l)|, l.exponent)
  {
    ExponentReads(l.exponent);
    hide ParseUnsigned, ExponentText, Written, AllDigits, ParseExponent, Worth;
    if l.fraction.Some? {
      PointedReads(negative, l.whole, l.fraction.value, l.exponent);
    } else {
      assert "" + ExponentText(l.exponent) == ExponentText(l.exponent);
      assert l.whole + "" == l.whole;
      PlainReads(negative, l.whole, l.exponent);
    }
  }

  lemma PointedUnsigned(negative: bool, s: string, i: nat, j: nat)
    requires i < |s| && SpanDigits(s, 0) == i && s[i] == '.' && SpanDigits(s, i + 1) == j && s[..i] + s[i + 1..j] != ""
    ensures ParseUnsigned(negative, s) == Assemble(negative, s[..i] + s[i + 1..j], j - (i + 1), s[j..])
  {
    hide SpanDigits, Assemble, IsSpecial;
  }

  lemma PlainUnsigned(negative: bool, s: string, i: nat)
    requires 0 < i <= |s| && SpanDigits(s, 0) == i && (i < |s| ==> s[i] != '.')
    ensures ParseUnsigned(negative, s) == Assemble(negative, s[..i], 0, s[i..])
  {
    hide SpanDigits, Assemble, IsSpecial;
    assert s[..i] + "" == s[..i];
  }

  lemma AssembleReads(negative: bool, digits: string, pointed: nat, e: Exponent)
    requires ParseExponent(ExponentText(e)) == Some(Written(e))
    ensures Assemble(negative, digits, pointed, ExponentText(e))
            == Worth(negative, digits, pointed, e)
  {
  }

  /** Every decimal is read as written: with its sign, its digits, and the exponent less the digits after the point. */
  lemma LiteralReads(l: Literal)
    requires IsLiteral(l)
    ensures var parsed := ParseDecimal(Text(l));
            && parsed.Some? && parsed.value.Finite?
            && var d := parsed.value.decimal;
               && (d.negative <==> l.sign == Minus)
               && Normal(d.digits) && Val(d.digits) == Val(l.whole + FractionDigits(l))
               && d.exponent == Written(l.exponent) - |FractionDigits(l)|
  {
    UnsignedReads(l, l.sign == Minus);
    UnsignedStart(l);
    DigitsConcat(l.whole, FractionDigits(l));
    hide ParseUnsigned, ParseDecimal, StripZeros, Val, Written, Magnitude, AllDigits, FractionDigits, Normal, SignText;
    StripZerosNormal(l.whole + FractionDigits(l));
    SignReads(l.sign, Magnitude(l));
  }

  lemma SignReads(sign: Sign, s: string)
    requires s != "" && s[0] != '+' && s[0] != '-'
    ensures ParseDecimal(SignText(sign) + s) == ParseUnsigned(sign == Minus, s)
  {
    hide ParseUnsigned;
    if sign == Unsigned {
      assert SignText(sign) + s == s;
    } else {
      assert (SignText(sign) + s)[1..] == s;
    }
  }

  lemma UnsignedStart(l: Literal)
    requires IsLiteral(l)
    ensures Magnitude(l) != "" && (IsDigit(Magnitude(l)[0]) || Magnitude(l)[0] == '.')
  {
  }

  lemma ExponentIsWritten(s: string) returns (e: Exponent)
    requires ParseExponent(s).Some?
    ensures (e.Exponent? ==> e.digits != "" && AllDigits(e.digits)) && ExponentText(e) == s
  {
    hide Val;
    if s == "" {
      return NoExponent;
    }
    var sign := if |s| > 1 && s[1] == '+' then Plus else if |s| > 1 && s[1] == '-' then Minus else Unsigned;
    var digits := s[if sign == Unsigned then 1 else 2..];
    e := Exponent(s[0] == 'E', sign, digits);
    assert s[1..] == SignText(sign) + digits;
    assert s == (if s[0] == 'E' then "E" else "e") + s[1..];
  }

  lemma MagnitudeIsWritten(s: string, negative: bool) returns (l: Literal)
    requires ParseUnsigned(negative, s).Some? && ParseUnsigned(negative, s).value.Finite?
    ensures IsLiteral(l) && l.sign == Unsigned && Magnitude(l) == s
  {
    hide ParseExponent, StripZeros, IsSpecial, IsDigit, AllDigits, ExponentText;
    var i := SpanDigits(s, 0);
    SpanAreDigits(s, 0);
    assert s[..i] == s[0..i];
    if i < |s| && s[i] == '.' {
      var j := SpanDigits(s, i + 1);
      SpanAreDigits(s, i + 1);
      var e := ExponentIsWritten(s[j..]);
      l := Literal(Unsigned, s[..i], Some(s[i + 1..j]), e);
      assert s == s[..i] + (("." + s[i + 1..j]) + s[j..]);
    } else {
      var e := ExponentIsWritten(s[i..]);
      l := Literal(Unsigned, s[..i], None, e);
      assert s[..i] + "" == s[..i];
      NoDigits();
      assert s == s[..i] + ("" + s[i..]);
    }
  }

  lemma NoDigits()
    ensures AllDigits("")
  {
  }

  /** Nothing else is read as a number. */
  lemma OnlyLiteralsRead(s: string) returns (l: Literal)
    requires ParseDecimal(s).Some? && ParseDecimal(s).value.Finite?
    ensures IsLiteral(l) && Text(l) == s
  {
    hide ParseUnsigned, Magnitude, AllDigits;
    if s != "" && (s[0] == '+' || s[0] == '-') {
      l := MagnitudeIsWritten(s[1..], s[0] == '-');
      l := l.(sign := if s[0] == '-' then Minus else Plus);
      SameMagnitude(l, l.(sign := Unsigned));
      assert s == SignText(l.sign) + s[1..];
    } else {
      l := MagnitudeIsWritten(s, false);
      assert s == "" + s;
    }
  }

  lemma SameMagnitude(l: Literal, k: Literal)
    requires k == l.(sign := k.sign)
    ensures Magnitude(l) == Magnitude(k) && (IsLiteral(l) <==> IsLiteral(k))
  {
  }

  /** What is no number but is read: an infinity, or a NaN that may signal and carry digits. */
  datatype Special = Infinity(short: bool) | NaN(signals: bool, payload: string)

  function SpecialText(x: Special): string {
    match x
    case Infinity(short) => if short then "inf" else "infinity"
    case NaN(signals, payload) => (if signals then "snan" else "nan") + payload
  }

  predicate IsWord(s: string, x: Special) {
    LowerAll(s) == SpecialText(x) && (x.NaN? ==> AllDigits(x.payload))
  }

  /** Its letters may be in any case, and a sign may precede it. */
  lemma SpecialReads(sign: Sign, s: string, x: Special)
    requires IsWord(s, x)
    ensures ParseDecimal(SignText(sign) + s) == Some(NonFinite)
  {
    assert s != "" && Lower(s[0]) == SpecialText(x)[0];
    assert SpanDigits(s, 0) == 0 && s[0] != '.' && s[..0] + "" == "";
    WordIsSpecial(s, x);
    SignReads(sign, s);
    hide IsSpecial, SpanDigits, LowerAll, SpecialText;
  }

  lemma WordIsSpecial(s: string, x: Special)
    requires IsWord(s, x)
    ensures IsSpecial(s)
  {
    if x.NaN? {
      var t := LowerAll(s);
      if x.signals {
        assert t[4..] == x.payload;
      } else {
        assert t[3..] == x.payload;
      }
    }
  }

  lemma NonFiniteIsSpecial(negative: bool, s: string)
    requires ParseUnsigned(negative, s) == Some(NonFinite)
    ensures IsSpecial(s)
  {
    hide SpanDigits, ParseExponent, StripZeros, IsSpecial;
  }

  /** Nothing else is read as not finite. */
  lemma OnlySpecialsRead(s: string) returns (sign: Sign, word: string, x: Special)
    requires ParseDecimal(s) == Some(NonFinite)
    ensures s == SignText(sign) + word && IsWord(word, x)
  {
    hide ParseUnsigned, IsWord;
    sign, word := Unsigned, s;
    if s != "" && (s[0] == '+' || s[0] == '-') {
      sign, word := if s[0] == '+' then Plus else Minus, s[1..];
      assert s == [s[0]] + s[1..];
    }
    NonFiniteIsSpecial(sign == Minus, word);
    x := SpecialIsWord(word);
  }

  lemma SpecialIsWord(word: string) returns (x: Special)
    requires IsSpecial(word)
    ensures IsWord(word, x)
  {
    var t := LowerAll(word);
    hide LowerAll, AllDigits;
    if t == "inf" || t == "infinity" {
      x := Infinity(t == "inf");
    } else if "nan" <= t && AllDigits(t[3..]) {
      x := NaN(false, t[3..]);
      assert t == t[..3] + t[3..];
    } else {
      x := NaN(true, t[4..]);
      assert t == t[..4] + t[4..];
    }
  }

  // ---------- Scaling ----------

  // As many digits as the largest 256-bit number.
  const MAX_DIGITS := 78

  datatype UnitsError = Missing | Invalid | NotFinite | Negative | TooLarge | Fractional

  /** A conversion with the exponent of the power of ten it built, if it built one. */
  datatype Scaled = Scaled(result: Result<nat, UnitsError>, power: Option<nat>)

  function ScaleUnits(d: Decimal, decimals: int): Scaled {
    var coefficient, shift := Val(d.digits), d.exponent + decimals;
    if coefficient == 0 then Scaled(Success(0), None)
    else if shift >= 0 then
      if |d.digits| + shift > MAX_DIGITS then Scaled(Failure(TooLarge), None)
      else Scaled(Success(coefficient * Pow10(shift)), Some(shift))
    else if -shift > |d.digits| then Scaled(Failure(Fractional), None)
    else if coefficient % Pow10(-shift) != 0 then Scaled(Failure(Fractional), Some(-shift))
    else Scaled(Success(coefficient / Pow10(-shift)), Some(-shift))
  }

  function ParseUnits(value: string, decimals: int): Scaled {
    var s := Strip(value);
    if s == "" then Scaled(Failure(Missing), None)
    else
      var parsed := ParseDecimal(s);
      if parsed.None? then Scaled(Failure(Invalid), None)
      else if parsed.value.NonFinite? then Scaled(Failure(NotFinite), None)
      else if parsed.value.decimal.negative && Val(parsed.value.decimal.digits) != 0 then Scaled(Failure(Negative), None)
      else ScaleUnits(parsed.value.decimal, decimals)
  }

  /** The coefficient times ten to the given power, which may be negative, is exactly n. */
  predicate IsScaled(coefficient: nat, shift: int, n: nat) {
    if shift >= 0 then n == coefficient * Pow10(shift) else n * Pow10(-shift) == coefficient
  }

  /** The decimal is worth exactly n base units. */
  predicate Denotes(d: Decimal, decimals: int, n: nat) {
    IsScaled(Val(d.digits), d.exponent + decimals, n)
  }

  /** Rejecting a long shift early agrees with dividing: the remainder would not be zero. */
  lemma EarlyRejectionAgrees(digits: string, shift: nat)
    requires Val(digits) != 0 && shift > |digits|
    ensures Val(digits) % Pow10(shift) != 0
  {
    ValBound(digits);
    Pow10Grows(|digits|, shift);
    hide Val, Pow10;
    DivModIs(Val(digits), Pow10(shift), 0, Val(digits));
  }

  /** The digits checked before scaling are the digits of the result. */
  lemma DigitBoundIsExact(digits: string, shift: nat)
    requires Normal(digits) && Val(digits) != 0
    ensures |digits| + shift > MAX_DIGITS <==> Val(digits) * Pow10(shift) >= Pow10(MAX_DIGITS)
  {
    hide Val, Pow10;
    if |digits| + shift > MAX_DIGITS {
      NormalIsLarge(digits);
      Pow10Adds(|digits| - 1, shift);
      Pow10Grows(MAX_DIGITS, |digits| - 1 + shift);
      MulMonotone(Pow10(|digits| - 1), Val(digits), Pow10(shift));
    } else {
      ValBound(digits);
      Pow10Adds(|digits|, shift);
      Pow10Grows(|digits| + shift, MAX_DIGITS);
      MulMonotone(Pow10(|digits|), Val(digits), Pow10(shift));
    }
  }

  /**
   Scaling is exact and complete: it returns n exactly if the decimal denotes n base units and, when
   the shift is not negative, n has at most 78 digits; it is fractional exactly if there is no such n.
   */
  lemma ScaleIsExact(d: Decimal, decimals: int, n: nat)
    requires Normal(d.digits)
    ensures var r := ScaleUnits(d, decimals).result;
            && (r == Success(n) <==> Denotes(d, decimals, n) && (d.exponent + decimals >= 0 ==> n < Pow10(MAX_DIGITS)))
            && (r == Failure(Fractional) ==> !Denotes(d, decimals, n))
            && (r == Failure(TooLarge) <==>
                  d.exponent + decimals >= 0 && Val(d.digits) * Pow10(d.exponent + decimals) >= Pow10(MAX_DIGITS))
            && (r.Success? || r == Failure(Fractional) || r == Failure(TooLarge))
  {
    hide Val, Pow10;
    var c, shift := Val(d.digits), d.exponent + decimals;
    if c == 0 {
      if shift >= 0 {
        assert c * Pow10(shift) == 0;
      } else {
        MultipleIsExact(0, Pow10(-shift), n);
      }
    } else if shift >= 0 {
      DigitBoundIsExact(d.digits, shift);
    } else {
      MultipleIsExact(c, Pow10(-shift), n);
      if -shift > |d.digits| {
        EarlyRejectionAgrees(d.digits, -shift);
      }
    }
  }

  /** No power of ten above 10^77 is built, unless the input itself has as many digits. */
  lemma PowerIsBounded(d: Decimal, decimals: int)
    requires Normal(d.digits)
    ensures var power := ScaleUnits(d, decimals).power;
            power.Some? ==> Pow10(power.value) <= Pow10(MAX_DIGITS - 1) || Pow10(power.value) <= Pow10(|d.digits|)
  {
    hide Val, Pow10;
    var scaled := ScaleUnits(d, decimals);
    if scaled.power.Some? {
      if d.exponent + decimals >= 0 {
        Pow10Grows(scaled.power.value, MAX_DIGITS - 1);
      } else {
        Pow10Grows(scaled.power.value, |d.digits|);
      }
    }
  }

  // ---------- Printing base units ----------

  function DigitText(n: nat): (c: char)
    requires n < 10
    ensures IsDigit(c) && DigitValue(c) == n
  {
    ('0' as int + n) as char
  }

  function NatText(n: nat): (s: string)
    ensures s != ""
  {
    if n < 10 then [DigitText(n)] else NatText(n / 10) + [DigitText(n % 10)]
  }

  function Zeros(n: nat): (s: string)
    ensures |s| == n
  {
    if n == 0 then "" else Zeros(n - 1) + "0"
  }

  function PadLeft(s: string, width: nat): string {
    if |s| >= width then s else Zeros(width - |s|) + s
  }

  function StripTrailing(s: string): (r: string)
    ensures |r| <= |s|
  {
    if s != "" && s[|s| - 1] == '0' then StripTrailing(s[..|s| - 1]) else s
  }

  function FormatUnits(value: nat, decimals: nat): string {
    hide Pow10;
    DivModOf(value, Pow10(decimals));
    var whole, fraction := value / Pow10(decimals), value % Pow10(decimals);
    if fraction == 0 then NatText(whole)
    else NatText(whole) + "." + StripTrailing(PadLeft(NatText(fraction), decimals))
  }

  lemma {:induction false} NatTextReads(n: nat)
    ensures AllDigits(NatText(n)) && Val(NatText(n)) == n
  {
    var s := NatText(n);
    if n < 10 {
      assert s[..0] == "";
    } else {
      NatTextReads(n / 10);
      assert s[..|s| - 1] == NatText(n / 10);
    }
  }

  lemma {:induction false} NatTextFits(n: nat, width: nat)
    requires n < Pow10(width) && width >= 1
    ensures |NatText(n)| <= width
  {
    if n >= 10 {
      assert Pow10(1) == 10 * Pow10(0);
      NatTextFits(n / 10, width - 1);
    }
  }

  lemma {:induction false} ZerosRead(n: nat)
    ensures AllDigits(Zeros(n)) && Val(Zeros(n)) == 0
  {
    if n > 0 {
      ZerosRead(n - 1);
      assert Zeros(n)[..n - 1] == Zeros(n - 1);
    }
  }

  lemma PadLeftReads(s: string, width: nat)
    requires AllDigits(s) && |s| <= width
    ensures AllDigits(PadLeft(s, width)) && |PadLeft(s, width)| == width && Val(PadLeft(s, width)) == Val(s)
  {
    hide Val, Pow10, Zeros, AllDigits;
    var zeros := Zeros(width - |s|);
    ZerosRead(width - |s|);
    ValConcat(zeros, s);
    DigitsConcat(zeros, s);
    assert 0 * Pow10(|s|) == 0;
    assert |s| == width ==> PadLeft(s, width) == s;
  }

  lemma DigitsConcat(a: string, b: string)
    requires AllDigits(a) && AllDigits(b)
    ensures AllDigits(a + b)
  {
  }

  lemma {:induction false} StripTrailingReads(s: string)
    requires AllDigits(s)
    ensures AllDigits(StripTrailing(s)) && Val(s) == Val(StripTrailing(s)) * Pow10(|s| - |StripTrailing(s)|)
  {
    if s != "" && s[|s| - 1] == '0' {
      var t := s[..|s| - 1];
      StripTrailingReads(t);
      MulAssoc(10, Val(StripTrailing(t)), Pow10(|t| - |StripTrailing(t)|));
    }
  }

  // ---------- Amounts as they are written ----------

  /** Every successful parse is exact, whatever the string. */
  lemma ParseIsExact(value: string, decimals: int)
    requires ParseUnits(value, decimals).result.Success?
    ensures var parsed := ParseDecimal(Strip(value));
            && parsed.Some? && parsed.value.Finite?
            && Denotes(parsed.value.decimal, decimals, ParseUnits(value, decimals).result.value)
            && (parsed.value.decimal.negative ==> ParseUnits(value, decimals).result.value == 0)
  {
    hide Val, Pow10, Strip, ParseDecimal, ScaleUnits;
    ParsedIsNormal(Strip(value));
    ScaleIsExact(ParseDecimal(Strip(value)).value.decimal, decimals, ParseUnits(value, decimals).result.value);
  }

  lemma TextEnds(l: Literal)
    requires IsLiteral(l)
    ensures var s := Text(l); s != "" && !IsSpace(s[0]) && !IsSpace(s[|s| - 1])
  {
    var m := Magnitude(l);
    UnsignedStart(l);
    assert Text(l)[|Text(l)| - 1] == m[|m| - 1];
    if l.exponent.Exponent? {
      var digits := l.exponent.digits;
      assert m[|m| - 1] == digits[|digits| - 1];
    } else if l.fraction.Some? {
      assert m == l.whole + ("." + l.fraction.value);
    }
  }

  /** The digits as a number, and the power of ten they are multiplied by. */
  function Coefficient(l: Literal): nat {
    Val(l.whole + FractionDigits(l))
  }

  function Scale(l: Literal, decimals: int): int {
    Written(l.exponent) - |FractionDigits(l)| + decimals
  }

  /**
   An amount in any notation, with white space around it, is converted exactly: to n base units if
   and only if that is what it denotes, it is not below zero, and scaling up keeps it within 78 digits.
   */
  lemma AmountIsExact(before: string, l: Literal, after: string, decimals: int, n: nat)
    requires AllSpace(before) && AllSpace(after) && IsLiteral(l)
    ensures var r := ParseUnits(before + Text(l) + after, decimals).result;
            && (r == Success(n) <==>
                  && (l.sign == Minus ==> Coefficient(l) == 0)
                  && IsScaled(Coefficient(l), Scale(l, decimals), n)
                  && (Scale(l, decimals) >= 0 ==> n < Pow10(78)))
            && (r == Failure(Fractional) ==> !IsScaled(Coefficient(l), Scale(l, decimals), n))
            && (r == Failure(Negative) <==> l.sign == Minus && Coefficient(l) != 0)
            && r != Failure(Missing) && r != Failure(Invalid) && r != Failure(NotFinite)
  {
    hide Val, Pow10, Strip, Text, ParseDecimal, ParseUnits, ScaleUnits, IsLiteral, Coefficient, Scale, Normal, IsScaled,
         AllSpace;
    var d := LiteralStripped(before, l, after);
    ParsedUnits(before + Text(l) + after, Text(l), d, decimals);
    ScaledOrRefused(d, decimals, n);
    assert Scale(l, decimals) == d.exponent + decimals;
  }

  lemma ParsedUnits(s: string, text: string, d: Decimal, decimals: int)
    requires Strip(s) == text != "" && ParseDecimal(text) == Some(Finite(d))
    ensures ParseUnits(s, decimals)
            == if d.negative && Val(d.digits) != 0 then Scaled(Failure(Negative), None) else ScaleUnits(d, decimals)
  {
    hide Strip, ParseDecimal, Val, ScaleUnits;
  }

  lemma ScaledOrRefused(d: Decimal, decimals: int, n: nat)
    requires Normal(d.digits)
    ensures var r := ScaleUnits(d, decimals).result;
            && (r == Success(n) <==>
                  IsScaled(Val(d.digits), d.exponent + decimals, n) && (d.exponent + decimals >= 0 ==> n < Pow10(78)))
            && (r == Failure(Fractional) ==> !IsScaled(Val(d.digits), d.exponent + decimals, n))
            && (r.Success? || r == Failure(Fractional) || r == Failure(TooLarge))
  {
    ScaleIsExact(d, decimals, n);
  }

  lemma LiteralStripped(before: string, l: Literal, after: string) returns (d: Decimal)
    requires AllSpace(before) && AllSpace(after) && IsLiteral(l)
    ensures Strip(before + Text(l) + after) == Text(l) && Text(l) != "" && ParseDecimal(Text(l)) == Some(Finite(d))
    ensures Normal(d.digits) && Val(d.digits) == Coefficient(l) && (d.negative <==> l.sign == Minus)
    ensures forall decimals: int :: Scale(l, decimals) == d.exponent + decimals
  {
    TextEnds(l);
    StripPadded(before, Text(l), after);
    LiteralReads(l);
    hide Val, Strip, Text, ParseDecimal, IsLiteral, Written, FractionDigits, Normal;
    d := ParseDecimal(Text(l)).value.decimal;
  }

  ghost predicate IsSpecialText(s: string) {
    exists sign, word, x :: s == SignText(sign) + word && IsWord(word, x)
  }

  /** Whatever is not written as a decimal is refused: as missing, as not finite, or as no amount at all. */
  lemma OthersAreRefused(value: string, decimals: int)
    requires forall l :: IsLiteral(l) ==> Text(l) != Strip(value)
    ensures ParseUnits(value, decimals).result
            == Failure(if Strip(value) == "" then Missing else if IsSpecialText(Strip(value)) then NotFinite else Invalid)
  {
    var s := Strip(value);
    hide Strip, ParseDecimal, Text, IsLiteral, IsWord;
    if IsSpecialText(s) {
      var sign, word, x :| s == SignText(sign) + word && IsWord(word, x);
      SpecialReads(sign, word, x);
    } else if ParseDecimal(s) == Some(NonFinite) {
      var sign, word, x := OnlySpecialsRead(s);
    } else if ParseDecimal(s).Some? {
      var l := OnlyLiteralsRead(s);
    }
  }

  /** The digit bound is that of 256-bit amounts: all of them fit, and it is the least such bound. */
  lemma BoundIsWide()
    ensures Pow10(MAX_DIGITS - 1) < 0x1_0000000000000000_0000000000000000_0000000000000000_0000000000000000 <= Pow10(MAX_DIGITS)
  {
    TenTo39();
    hide Pow10;
    Pow10Adds(39, 38);
    Pow10Adds(39, 39);
  }

  lemma TenTo39()
    ensures 10 * Pow10(38) == Pow10(39) == 1_000_000_000_000_000_000_000_000_000_000_000_000_000
  {
    assert Pow10(13) == 10_000_000_000_000;
    Pow10Adds(13, 13);
    Pow10Adds(26, 13);
  }

  // ---------- Parsing what was printed ----------

  /** The printed fraction: at most as many digits as decimals, the rest being zeros. */
  lemma FractionText(fraction: nat, decimals: nat) returns (f: string)
    requires 0 < fraction < Pow10(decimals)
    ensures f == StripTrailing(PadLeft(NatText(fraction), decimals)) && f != "" && AllDigits(f) && |f| <= decimals
    ensures Val(f) * Pow10(decimals - |f|) == fraction && f[|f| - 1] != '0'
  {
    assert decimals >= 1 by {
      assert Pow10(0) == 1;
    }
    hide *;
    NatTextReads(fraction);
    NatTextFits(fraction, decimals);
    var padded := PadLeft(NatText(fraction), decimals);
    PadLeftReads(NatText(fraction), decimals);
    f := StripTrailing(padded);
    StripTrailingReads(padded);
    StrippedEndsInDigit(padded);
  }

  lemma StrippedEndsInDigit(s: string)
    requires AllDigits(s) && Val(s) != 0
    ensures var f := StripTrailing(s); f != "" && IsDigit(f[|f| - 1]) && f[|f| - 1] != '0'
  {
  }

  lemma {:induction false} NatTextNormal(n: nat)
    ensures Normal(NatText(n)) && (n > 0 ==> NatText(n)[0] != '0')
  {
    NatTextReads(n);
    if n >= 10 {
      NatTextNormal(n / 10);
    }
  }

  /**
   What is printed is the decimal that is worth the value, in its shortest notation: no needless zero
   at either end, no sign and no exponent.
   */
  lemma PrintedIsShortest(value: nat, decimals: nat) returns (l: Literal)
    ensures IsLiteral(l) && FormatUnits(value, decimals) == Text(l)
    ensures l.sign == Unsigned && l.exponent == NoExponent && Normal(l.whole)
    ensures l.fraction.Some? ==> l.fraction.value != "" && l.fraction.value[|l.fraction.value| - 1] != '0'
    ensures Scale(l, decimals) >= 0 && IsScaled(Coefficient(l), Scale(l, decimals), value)
  {
    var whole, fraction := value / Pow10(decimals), value % Pow10(decimals);
    DivModOf(value, Pow10(decimals));
    hide Pow10, NatText, StripTrailing, PadLeft, Val, Text;
    var w := NatText(whole);
    NatTextNormal(whole);
    NatTextReads(whole);
    if fraction == 0 {
      l := Literal(Unsigned, w, None, NoExponent);
      WholeText(w);
      assert w + "" == w;
    } else {
      var f := FractionText(fraction, decimals);
      l := Literal(Unsigned, w, Some(f), NoExponent);
      PointedText(w, f);
      hide IsScaled;
      PointedWorth(whole, w, f, decimals);
    }
  }

  lemma PointedWorth(whole: nat, w: string, f: string, decimals: nat)
    requires Val(w) == whole && |f| <= decimals
    ensures IsScaled(Val(w + f), decimals - |f|, whole * Pow10(decimals) + Val(f) * Pow10(decimals - |f|))
  {
    hide Val, Pow10;
    ValConcat(w, f);
    var z := decimals - |f|;
    Pow10Adds(|f|, z);
    MulDistributes(Pow10(z), whole * Pow10(|f|), Val(f));
    MulAssoc(whole, Pow10(|f|), Pow10(z));
  }

  lemma WholeText(w: string)
    ensures Text(Literal(Unsigned, w, None, NoExponent)) == w
  {
  }

  lemma PointedText(w: string, f: string)
    ensures Text(Literal(Unsigned, w, Some(f), NoExponent)) == w + "." + f
  {
    assert ("." + f) + "" == "." + f;
    Assoc(w, ".", f);
  }

  /**
   Parsing what was printed gives the value back whenever it has at most 78 digits, and only then:
   larger ones are refused.
   */
  lemma ParseFormat(value: nat, decimals: nat)
    ensures ParseUnits(FormatUnits(value, decimals), decimals).result
            == if value < Pow10(MAX_DIGITS) then Success(value) else Failure(TooLarge)
  {
    var l := PrintedIsShortest(value, decimals);
    var text := FormatUnits(value, decimals);
    var r := ParseUnits(text, decimals).result;
    hide Pow10, FormatUnits, Text, ParseUnits, Coefficient, Scale, IsLiteral;
    assert "" + text + "" == text;
    AmountIsExact("", l, "", decimals, value);
    if r.Success? {
      AmountIsExact("", l, "", decimals, r.value);
    } else {
      assert r == Failure(r.error) && r.error.TooLarge?;
    }
  }
}
