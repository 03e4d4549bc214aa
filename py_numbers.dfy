/**
 * Python's `int(text)`, `float(text)`, `int(x)` on a float and `round(x)`, as
 * the channel decoders and the HNAP timestamp code use them. A finite float is
 * kept as an exact real; rounding to the nearest binary double is not modelled.
 */
module PyNumbers {
  import opened Wrappers
  import opened Text
  import opened PyJson

  /** A Python float: a finite value, an infinity, or NaN. */
  datatype Num = Finite(value: real) | Infinite(negative: bool) | NaN

  /** `digit (["_"] digit)*`: the digit runs that `int()` and `float()` accept. */
  predicate DigitGroups(s: string) {
    && |s| > 0 && IsDigit(s[0]) && IsDigit(s[|s| - 1])
    && (forall i :: 0 <= i < |s| ==> IsDigit(s[i]) || s[i] == '_')
    && (forall i :: 0 <= i < |s| - 1 && s[i] == '_' ==> s[i + 1] != '_')
  }

  function DigitValue(c: char): nat
    requires IsDigit(c)
  {
    c as int - '0' as int
  }

  /** The number a digit run denotes, underscores ignored. */
  function GroupValue(s: string): nat
    requires forall i :: 0 <= i < |s| ==> IsDigit(s[i]) || s[i] == '_'
  {
    if |s| == 0 then 0
    else if s[|s| - 1] == '_' then GroupValue(s[..|s| - 1])
    else GroupValue(s[..|s| - 1]) * 10 + DigitValue(s[|s| - 1])
  }

  /** How many digits a digit run has. */
  function DigitCount(s: string): nat {
    if |s| == 0 then 0
    else DigitCount(s[..|s| - 1]) + (if s[|s| - 1] == '_' then 0 else 1)
  }

  function Pow10(n: nat): (r: nat)
    ensures r >= 1
  {
    if n == 0 then 1 else 10 * Pow10(n - 1)
  }

  /** An optionally signed digit run, as `int()` reads it once whitespace is stripped. */
  function SignedGroups(t: string): Option<int> {
    if |t| > 0 && (t[0] == '+' || t[0] == '-') then
      if DigitGroups(t[1..]) then
        Some(if t[0] == '-' then -(GroupValue(t[1..]) as int) else GroupValue(t[1..]))
      else None
    else if DigitGroups(t) then Some(GroupValue(t))
    else None
  }

  /** `int(text)` in base 10, for ASCII text of at most 4300 digits; None exactly where Python raises ValueError for such text. */
  function ParseInt(text: string): Option<int> {
    SignedGroups(Strip(text))
  }

  /** The first `e` or `E` of a float literal. */
  function ExponentMarker(s: string): (r: Option<nat>)
    ensures r.Some? ==> r.value < |s| && (s[r.value] == 'e' || s[r.value] == 'E')
  {
    if |s| == 0 then None
    else if s[0] == 'e' || s[0] == 'E' then Some(0)
    else
      match ExponentMarker(s[1..])
      case None => None
      case Some(i) => Some(i + 1)
  }

  /** `digits [. [digits]]` or `. digits`. */
  function MantissaValue(m: string): Option<real> {
    match Find(m, ".")
    case None => if DigitGroups(m) then Some(GroupValue(m) as real) else None
    case Some(i) =>
      var whole := m[..i];
      var fraction := m[i + 1..];
      if (whole == "" && DigitGroups(fraction)) || (DigitGroups(whole) && (fraction == "" || DigitGroups(fraction))) then
        Some(GroupValue(whole) as real + GroupValue(fraction) as real / Pow10(DigitCount(fraction)) as real)
      else None
  }

  function Scale(v: real, e: int): real {
    if e >= 0 then v * Pow10(e) as real else v / Pow10(-e) as real
  }

  /** An unsigned decimal float literal with an optional exponent. */
  function DecimalValue(b: string): Option<real> {
    match ExponentMarker(b)
    case None => MantissaValue(b)
    case Some(e) =>
      match (MantissaValue(b[..e]), SignedGroups(b[e + 1..]))
      case (Some(v), Some(x)) => Some(Scale(v, x))
      case _ => None
  }

  /** `float(text)` for ASCII text; None exactly where Python raises ValueError for such text. */
  function ParseFloat(text: string): Option<Num> {
    FloatOfStripped(Strip(text))
  }

  /** `float(t)` for a text `t` without surrounding whitespace. */
  function FloatOfStripped(t: string): Option<Num> {
    var negative := |t| > 0 && t[0] == '-';
    var body := if |t| > 0 && (t[0] == '+' || t[0] == '-') then t[1..] else t;
    var word := Lower(body);
    if word == "inf" || word == "infinity" then Some(Infinite(negative))
    else if word == "nan" then Some(NaN)
    else
      match DecimalValue(body)
      case None => None
      case Some(v) => Some(Finite(if negative then -v else v))
  }

  /** `round(x)`: the nearest integer, ties to the even one. */
  function RoundHalfEven(x: real): (r: int)
    ensures r as real - x <= 0.5 && x - r as real <= 0.5
    ensures (r as real - x == 0.5 || x - r as real == 0.5) ==> r % 2 == 0
  {
    var f := x.Floor;
    var fraction := x - f as real;
    if fraction < 0.5 then f
    else if fraction > 0.5 then f + 1
    else if f % 2 == 0 then f
    else f + 1
  }

  /** `int(x)` on a finite float: drops the fraction, toward zero. */
  function Truncate(x: real): (r: int)
    ensures x >= 0.0 ==> 0 <= r && r as real <= x < r as real + 1.0
    ensures x < 0.0 ==> r <= 0 && r as real - 1.0 < x <= r as real
  {
    if x >= 0.0 then x.Floor else -((-x).Floor)
  }

  /** `round(x)` on any float: an infinity raises OverflowError and NaN raises ValueError. */
  function RoundNum(n: Num): Result<int, Exception> {
    match n
    case Finite(v) => Success(RoundHalfEven(v))
    case Infinite(_) => Failure(Exception(OverflowError, "cannot convert float infinity to integer"))
    case NaN => Failure(Exception(ValueError, "cannot convert float NaN to integer"))
  }

  /** `x * factor` on a float, for a positive finite factor. */
  function ScaleNum(n: Num, factor: real): Num
    requires factor > 0.0
  {
    match n
    case Finite(v) => Finite(v * factor)
    case _ => n
  }

  lemma {:induction false} GroupValueDecimal(n: nat)
    ensures GroupValue(Decimal(n)) == n
  {
    if n >= 10 {
      var s := Decimal(n);
      assert s[..|s| - 1] == Decimal(n / 10);
      GroupValueDecimal(n / 10);
    }
  }

  lemma DecimalEdges(n: nat)
    ensures Strip(Decimal(n)) == Decimal(n) && DigitGroups(Decimal(n))
  {
    var s := Decimal(n);
    assert IsDigit(s[0]) && IsDigit(s[|s| - 1]);
    StripUnchanged(s);
  }

  /** `int(str(i)) == i` for every integer. */
  lemma ParseIntText(i: int)
    ensures ParseInt(IntText(i)) == Some(i)
  {
    var d := Decimal(if i < 0 then -i else i);
    SignedDigits(d);
    GroupValueDecimal(if i < 0 then -i else i);
  }

  /** `int()` reads a plain or minus-signed digit run as its value. */
  lemma SignedDigits(d: string)
    requires |d| > 0 && forall i :: 0 <= i < |d| ==> IsDigit(d[i])
    ensures ParseInt(d) == Some(GroupValue(d) as int)
    ensures ParseInt("-" + d) == Some(-(GroupValue(d) as int))
  {
    StripUnchanged(d);
    DigitsAreGroups(d);
    StripMinusDigits(d);
    MinusDigitsGroups(d);
  }

  lemma DigitsAreGroups(d: string)
    requires |d| > 0 && forall i :: 0 <= i < |d| ==> IsDigit(d[i])
    ensures DigitGroups(d)
  {
  }

  lemma StripMinusDigits(d: string)
    requires |d| > 0 && IsDigit(d[|d| - 1])
    ensures Strip("-" + d) == "-" + d
  {
    var t := "-" + d;
    assert t[|t| - 1] == d[|d| - 1];
    StripUnchanged(t);
  }

  lemma MinusDigitsGroups(d: string)
    requires DigitGroups(d)
    ensures SignedGroups("-" + d) == Some(-(GroupValue(d) as int))
  {
    assert ("-" + d)[1..] == d;
  }

  /** A digit run has no exponent marker. */
  lemma NoExponentInDigits(s: string)
    requires forall i :: 0 <= i < |s| ==> IsDigit(s[i])
    ensures ExponentMarker(s) == None
  {
  }

  /** A digit run is not one of the words `float()` reads as an infinity or NaN. */
  lemma DigitsAreNoWord(s: string)
    requires |s| > 0 && IsDigit(s[0])
    ensures Lower(s) != "inf" && Lower(s) != "infinity" && Lower(s) != "nan"
  {
    assert Lower(s)[0] == s[0];
  }

  /** A decimal integer literal also reads back as that float. */
  lemma ParseFloatInt(n: nat)
    ensures ParseFloat(Decimal(n)) == Some(Finite(n as real))
  {
    var s := Decimal(n);
    DecimalEdges(n);
    NoExponentInDigits(s);
    assert DecimalValue(s) == Some(n as real) by {
      GroupValueDecimal(n);
      FindCharAbsent(s, '.');
    }
    DigitsAreNoWord(s);
    assert s[0] != '+' && s[0] != '-';
  }
  lemma NoExponentMarker(s: string)
    requires forall i :: 0 <= i < |s| ==> s[i] != 'e' && s[i] != 'E'
    ensures ExponentMarker(s) == None
  {
  }

  /** The first decimal point of `whole.fraction`, for a digit run `whole`, is the one after it. */
  lemma FindDecimalPoint(whole: string, fraction: string)
    requires forall i :: 0 <= i < |whole| ==> IsDigit(whole[i])
    ensures var s := whole + "." + fraction;
      Find(s, ".") == Some(|whole|) && s[..|whole|] == whole && s[|whole| + 1..] == fraction
  {
    assert '.' !in whole by {
      forall i | 0 <= i < |whole| ensures whole[i] != '.' {
        assert IsDigit(whole[i]);
      }
    }
    FindCharAfterPrefix(whole, '.', fraction);
    var s := whole + "." + fraction;
    assert s[..|whole|] == whole && s[|whole| + 1..] == fraction;
  }

  /** The mantissa `whole.fraction` of two digit runs. */
  lemma MantissaDecimal(whole: string, fraction: string)
    requires |whole| > 0 && forall i :: 0 <= i < |whole| ==> IsDigit(whole[i])
    requires |fraction| > 0 && forall i :: 0 <= i < |fraction| ==> IsDigit(fraction[i])
    ensures var s := whole + "." + fraction;
      MantissaValue(s).Some?
      && MantissaValue(s).value == GroupValue(whole) as real + GroupValue(fraction) as real / Pow10(DigitCount(fraction)) as real
  {
    var s := whole + "." + fraction;
    FindDecimalPoint(whole, fraction);
    DigitsAreGroups(whole);
    DigitsAreGroups(fraction);
    MantissaAt(s, |whole|);
  }

  lemma MantissaAt(m: string, i: nat)
    requires Find(m, ".") == Some(i) && DigitGroups(m[..i]) && DigitGroups(m[i + 1..])
    ensures MantissaValue(m)
         == Some(GroupValue(m[..i]) as real + GroupValue(m[i + 1..]) as real / Pow10(DigitCount(m[i + 1..])) as real)
  {
  }

  /** A decimal point between two digit runs: no exponent, no sign, no special word, nothing to strip. */
  lemma DecimalShape(whole: string, fraction: string)
    requires |whole| > 0 && forall i :: 0 <= i < |whole| ==> IsDigit(whole[i])
    requires |fraction| > 0 && forall i :: 0 <= i < |fraction| ==> IsDigit(fraction[i])
    ensures var s := whole + "." + fraction;
      && Strip(s) == s && s[0] != '+' && s[0] != '-'
      && Lower(s) != "inf" && Lower(s) != "infinity" && Lower(s) != "nan"
      && ExponentMarker(s) == None
  {
    var s := whole + "." + fraction;
    assert s[0] == whole[0] && s[|s| - 1] == fraction[|fraction| - 1];
    StripUnchanged(s);
    DigitsAreNoWord(s);
    assert forall i :: 0 <= i < |s| ==> IsDigit(s[i]) || s[i] == '.' by {
      forall i | 0 <= i < |s| ensures IsDigit(s[i]) || s[i] == '.' {
        if i < |whole| { assert s[i] == whole[i]; }
        else if i > |whole| { assert s[i] == fraction[i - |whole| - 1]; }
      }
    }
    NoExponentMarker(s);
  }

  /** A plain decimal literal `whole.fraction` reads as its exact value. */
  lemma ParseFloatDecimal(whole: string, fraction: string)
    requires |whole| > 0 && forall i :: 0 <= i < |whole| ==> IsDigit(whole[i])
    requires |fraction| > 0 && forall i :: 0 <= i < |fraction| ==> IsDigit(fraction[i])
    ensures var s := whole + "." + fraction;
      ParseFloat(s).Some? && ParseFloat(s).value.Finite?
      && ParseFloat(s).value.value
         == GroupValue(whole) as real + GroupValue(fraction) as real / Pow10(DigitCount(fraction)) as real
  {
    var s := whole + "." + fraction;
    DecimalShape(whole, fraction);
    MantissaDecimal(whole, fraction);
    assert DecimalValue(s) == MantissaValue(s);
  }

}

