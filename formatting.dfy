/**
 * `ConversionResult`: a finished conversion and how it is shown — the unit
 * names (pluralised unless the amount is 1 or the unit is written in
 * capitals, then passed through the `display_names` table), the numbers
 * (rounded, printed in fixed point, trailing zeros and point removed) and
 * the icon file named after the dimensionality.
 */
module Formatting {
  import opened Wrappers
  import opened Text
  import opened Numerals

  /** The configuration keys the formatter reads. */
  datatype Settings = Settings(displayNames: map<string, string>, precision: int, zeroPrecision: int)

  /**
   * The foreign functions the formatter calls: the pluralisation engine's
   * `plural`, Python's `round(x, ndigits)` and `str(x)` of a float.
   */
  datatype Env = Env(plural: string -> string, round: (real, int) -> real, repr: real -> string)

  datatype ConversionResult = ConversionResult(
    fromAmount: real, fromUnit: string, toAmount: real, toUnit: string, dimensionality: string)

  /**
   * The settings read from the configuration: `display_names` (default
   * empty), `rounding_precision` (default 3), `rounding_precision_zero`
   * (default 12); `None` stands for a missing key.
   */
  function SettingsOf(displayNames: Option<map<string, string>>, precision: Option<int>,
                      zeroPrecision: Option<int>): (s: Settings)
    ensures s.displayNames == (if displayNames.Some? then displayNames.value else map[])
    ensures s.precision == (if precision.Some? then precision.value else 3)
    ensures s.zeroPrecision == (if zeroPrecision.Some? then zeroPrecision.value else 12)
  {
    Settings(
      match displayNames case Some(m) => m case None => map[],
      match precision case Some(p) => p case None => 3,
      match zeroPrecision case Some(z) => z case None => 12)
  }

  /** A unit written entirely in capitals is an abbreviation and stays as it is. */
  function PluralizeUnit(env: Env, unit: string): (r: string)
    ensures IsUpper(unit) ==> r == unit
    ensures !IsUpper(unit) ==> r == env.plural(unit)
  {
    if IsUpper(unit) then unit else env.plural(unit)
  }

  /**
   * The name shown for `unit` next to `amount`: the plural form unless the
   * amount is 1, then the `display_names` entry for that form, if any.
   */
  function DisplayUnitName(settings: Settings, env: Env, amount: real, unit: string): (r: string)
    ensures amount == 1.0 || IsUpper(unit) ==> r == GetOr(settings.displayNames, unit, unit)
    ensures amount != 1.0 && !IsUpper(unit) ==>
      r == GetOr(settings.displayNames, env.plural(unit), env.plural(unit))
  {
    var form := if amount != 1.0 then PluralizeUnit(env, unit) else unit;
    GetOr(settings.displayNames, form, form)
  }

  /**
   * The second rounding applies when the first one gives 0 although
   * `|num|` exceeds `10 ** -rounding_precision_zero` (and that precision is
   * positive).
   */
  predicate ReRounds(settings: Settings, env: Env, num: real)
  {
    env.round(num, settings.precision) == 0.0 && settings.zeroPrecision > 0 &&
    Abs(num) > 1.0 / Pow10(settings.zeroPrecision)
  }

  /** The number of decimal places `num` is finally rounded to. */
  function UsedPrecision(settings: Settings, env: Env, num: real): int
  {
    if ReRounds(settings, env, num) then settings.zeroPrecision else settings.precision
  }

  /** The zero precision is used exactly when the first rounding hides a non-negligible value. */
  lemma UsedPrecisionChoice(settings: Settings, env: Env, num: real)
    ensures UsedPrecision(settings, env, num) != settings.precision ==>
      UsedPrecision(settings, env, num) == settings.zeroPrecision && ReRounds(settings, env, num)
    ensures !ReRounds(settings, env, num) ==> UsedPrecision(settings, env, num) == settings.precision
  {
  }

  /**
   * With rounding to nearest, the second rounding is only taken when it
   * keeps something: a value above the threshold `10 ** -zero_precision`
   * does not round to 0 at that precision.
   */
  lemma ZeroPrecisionKeepsValue(settings: Settings, plural: string -> string, repr: real -> string, num: real)
    requires ReRounds(settings, Env(plural, RoundTo, repr), num)
    ensures RoundTo(num, settings.zeroPrecision) != 0.0
    ensures UsedPrecision(settings, Env(plural, RoundTo, repr), num) == settings.zeroPrecision
  {
  }

  /**
   * `__format_float` as written: `str(num)` when the precision is -1,
   * otherwise the rounded value printed with `f"{x:f}"` (six fraction
   * digits) and stripped of trailing zeros and of the point.
   */
  function FormatFloatAsWritten(settings: Settings, env: Env, num: real): (r: string)
    ensures settings.precision == -1 ==> r == env.repr(num)
    ensures settings.precision != -1 ==>
      r == StripZeros(FixedSix(env.round(num, UsedPrecision(settings, env, num))))
    ensures settings.precision != -1 ==> r == [] || r[|r| - 1] != '.'
    ensures settings.precision != -1 && (exists i :: 0 <= i < |r| && r[i] == '.') ==> r[|r| - 1] != '0'
  {
    if settings.precision == -1 then env.repr(num)
    else
      var rounded := env.round(num, UsedPrecision(settings, env, num));
      StripZerosShape(FixedSix(rounded));
      StripZeros(FixedSix(rounded))
  }

  /** The number of fraction digits the corrected formatter prints. */
  function Places(settings: Settings, env: Env, num: real): nat
  {
    var u := UsedPrecision(settings, env, num);
    if u > 6 then u else 6
  }

  /**
   * `__format_float` with the evident intent: like `FormatFloatAsWritten`,
   * but the rounded value is printed with as many fraction digits as it
   * was rounded to (at least the six of `f"{x:f}"`), so that digits kept
   * by the rounding are not cut again by the printing.
   */
  function FormatFloat(settings: Settings, env: Env, num: real): (r: string)
    ensures settings.precision == -1 ==> r == env.repr(num)
    ensures settings.precision != -1 ==>
      r == StripZeros(Fixed(env.round(num, UsedPrecision(settings, env, num)), Places(settings, env, num)))
    ensures settings.precision != -1 ==> r == [] || r[|r| - 1] != '.'
    ensures settings.precision != -1 && (exists i :: 0 <= i < |r| && r[i] == '.') ==> r[|r| - 1] != '0'
  {
    if settings.precision == -1 then env.repr(num)
    else
      var rounded := env.round(num, UsedPrecision(settings, env, num));
      var text := Fixed(rounded, Places(settings, env, num));
      StripZerosShape(text);
      StripZeros(text)
  }

  /** The correction changes nothing while at most six places are used. */
  lemma FormatFloatAgrees(settings: Settings, env: Env, num: real)
    requires UsedPrecision(settings, env, num) <= 6
    ensures FormatFloat(settings, env, num) == FormatFloatAsWritten(settings, env, num)
  {
  }

  /** Stripping zeros and points never removes a nonzero digit. */
  lemma StripZerosKeepsNonzero(s: string)
    requires HasNonzeroDigit(s)
    ensures HasNonzeroDigit(StripZeros(s))
  {
    var i :| 0 <= i < |s| && '1' <= s[i] <= '9';
    var t := StripTrailing(s, '0');
    assert i < |t| && t[i] == s[i];
    var r := StripTrailing(t, '.');
    assert i < |r| && r[i] == t[i];
  }

  lemma {:induction false} Pow10NatMono(a: nat, b: nat)
    requires a <= b
    ensures Pow10Nat(a) <= Pow10Nat(b)
    decreases b
  {
    if a < b {
      Pow10NatMono(a, b - 1);
    }
  }

  lemma Pow10Mono(a: int, b: int)
    requires a <= b
    ensures Pow10(a) <= Pow10(b)
  {
    if a >= 0 {
      Pow10NatMono(a, b);
    } else if b < 0 {
      Pow10NatMono(-b, -a);
      RecipLe(Pow10Nat(-b) as real, Pow10Nat(-a) as real);
    } else {
      RecipLe(1.0, Pow10Nat(-a) as real);
    }
  }

  lemma RecipLe(x: real, y: real)
    requires 1.0 <= x <= y
    ensures 1.0 / y <= 1.0 / x <= 1.0
  {
  }

  /** A nonzero multiple of `10 ** -u` is at least `10 ** -u` in magnitude. */
  lemma RoundToMagnitude(num: real, u: int)
    requires RoundTo(num, u) != 0.0
    ensures Abs(RoundTo(num, u)) * Pow10(u) >= 1.0
  {
    RatioMagnitude(RoundHalfEven(num * Pow10(u)), Pow10(u));
  }

  lemma RatioMagnitude(n: int, scale: real)
    requires scale > 0.0
    ensures n != 0 ==> Abs((n as real) / scale) * scale >= 1.0
  {
    var m: real := if n < 0 then -(n as real) else n as real;
    assert Abs((n as real) / scale) == m / scale;
    assert m / scale * scale == m;
  }

  lemma MulMono(a: real, b: real, c: real)
    requires a >= 0.0 && b <= c
    ensures a * b <= a * c
  {
  }

  lemma GrowScale(a: real, s: real, p: real)
    requires a >= 0.0 && 0.0 < s <= p && a * s >= 1.0
    ensures a * p >= 1.0
  {
    MulMono(a, s, p);
  }

  /**
   * A value `v = n * 10 ** -u` with `n != 0`, printed with `d >= u`
   * fraction digits, shows a nonzero digit.
   */
  lemma RoundedValueVisible(num: real, u: int, d: nat)
    requires u <= d
    requires RoundTo(num, u) != 0.0
    ensures HasNonzeroDigit(Fixed(RoundTo(num, u), d))
  {
    RoundToMagnitude(num, u);
    Pow10Mono(u, d);
    VisibleFromMagnitude(RoundTo(num, u), Pow10(u), d);
  }

  lemma VisibleFromMagnitude(v: real, scale: real, d: nat)
    requires 0.0 < scale <= Pow10(d) && Abs(v) * scale >= 1.0
    ensures HasNonzeroDigit(Fixed(v, d))
  {
    GrowScale(Abs(v), scale, Pow10(d));
    ScaledAtLeastOne(v, d);
  }

  lemma ScaledAtLeastOne(v: real, d: nat)
    requires Abs(v) * Pow10(d) >= 1.0
    ensures Scaled(v, d) >= 1
  {
    assert Pow10(d) == Pow10Nat(d) as real;
  }

  /**
   * With rounding to nearest, the corrected formatter never prints a bare
   * zero for a value whose rounding is nonzero.
   */
  lemma RoundedNonzeroIsVisible(settings: Settings, plural: string -> string, repr: real -> string, num: real)
    requires settings.precision != -1
    requires RoundTo(num, UsedPrecision(settings, Env(plural, RoundTo, repr), num)) != 0.0
    ensures HasNonzeroDigit(FormatFloat(settings, Env(plural, RoundTo, repr), num))
  {
    var env := Env(plural, RoundTo, repr);
    var u := UsedPrecision(settings, env, num);
    RoundedValueVisible(num, u, Places(settings, env, num));
    StripZerosKeepsNonzero(Fixed(RoundTo(num, u), Places(settings, env, num)));
  }

  /**
   * The code as written hides what the zero precision kept: with the
   * default precisions 3 and 12, `1e-10` is re-rounded to `1e-10` and
   * still printed as "0".
   */
  lemma ZeroPrecisionHiddenAsWritten(names: map<string, string>, plural: string -> string, repr: real -> string)
    ensures var settings := Settings(names, 3, 12);
      var env := Env(plural, RoundTo, repr);
      ReRounds(settings, env, 0.0000000001) &&
      env.round(0.0000000001, UsedPrecision(settings, env, 0.0000000001)) == 0.0000000001 &&
      FormatFloatAsWritten(settings, env, 0.0000000001) == "0"
  {
    var settings := Settings(names, 3, 12);
    var env := Env(plural, RoundTo, repr);
    TinyRoundsToZero();
    TinyKeptAtTwelve();
    assert ReRounds(settings, env, 0.0000000001);
    TinyPrintsZeros();
    ZerosStripToZero();
  }

  lemma TinyRoundsToZero()
    ensures RoundTo(0.0000000001, 3) == 0.0
  {
    assert Pow10(3) == 1000.0;
    assert RoundHalfEven(0.0000000001 * 1000.0) == 0;
  }

  lemma TinyKeptAtTwelve()
    ensures RoundTo(0.0000000001, 12) == 0.0000000001
    ensures 0.0000000001 > 1.0 / Pow10(12)
  {
    assert Pow10(12) == 1000000000000.0;
    assert RoundHalfEven(0.0000000001 * 1000000000000.0) == 100;
  }

  lemma TinyPrintsZeros()
    ensures FixedSix(0.0000000001) == "0.000000"
  {
    assert Pow10Nat(6) == 1000000;
    assert RoundHalfEven(0.0000000001 * 1000000.0) == 0;
    assert Scaled(0.0000000001, 6) == 0;
    assert PadDigits(0, 6) == "000000";
  }

  lemma ZerosStripToZero()
    ensures StripZeros("0.000000") == "0"
  {
    assert "0.000000" == "0." + Repeat('0', 6);
    StripRepeated("0.", '0', 6);
    assert StripTrailing("0.", '0') == "0.";
    StripLast("0.", '.');
    assert "0."[..1] == "0";
    assert StripTrailing("0", '.') == "0";
  }

  function Repeat(c: char, k: nat): (r: string)
    ensures |r| == k
  {
    if k == 0 then [] else Repeat(c, k - 1) + [c]
  }

  /** `rstrip(c)` removes any number of trailing copies of `c`. */
  lemma {:induction false} StripRepeated(s: string, c: char, k: nat)
    ensures StripTrailing(s + Repeat(c, k), c) == StripTrailing(s, c)
  {
    if k == 0 {
      assert s + Repeat(c, 0) == s;
    } else {
      var t := s + Repeat(c, k);
      assert t == (s + Repeat(c, k - 1)) + [c];
      assert t[..|t| - 1] == s + Repeat(c, k - 1);
      StripRepeated(s, c, k - 1);
    }
  }

  lemma StripLast(s: string, c: char)
    requires s != [] && s[|s| - 1] == c
    ensures StripTrailing(s, c) == StripTrailing(s[..|s| - 1], c)
  {
  }

  /** The icon file: the dimensionality without its non-word characters, plus ".svg". */
  function Icon(dimensionality: string): (r: string)
    ensures |r| >= 4 && r[|r| - 4..] == ".svg"
    ensures forall i :: 0 <= i < |r| - 4 ==> IsWordChar(r[i])
    ensures (forall i :: 0 <= i < |dimensionality| ==> IsWordChar(dimensionality[i])) ==>
      r == dimensionality + ".svg"
  {
    KeepWordChars(dimensionality) + ".svg"
  }

  /** A bracketed base dimension such as "[length]" names the icon of that dimension. */
  lemma IconOfBracketed(name: string)
    requires forall i :: 0 <= i < |name| ==> IsWordChar(name[i])
    ensures Icon("[" + name + "]") == name + ".svg"
  {
    KeepBetween('[', name, ']');
  }

  /** Every successful currency conversion shows the currency icon. */
  lemma CurrencyIcon(d: string)
    requires d == "currency"
    ensures Icon(d) == "currency.svg"
  {
    assert forall i :: 0 <= i < |d| ==> IsWordChar(d[i]);
  }

  /**
   * `formatted_result`: the converted amount as the code prints it, a
   * space, and the unit name shown for that amount.
   */
  function FormattedResult(settings: Settings, env: Env, result: ConversionResult): (r: string)
    ensures var n := FormatFloatAsWritten(settings, env, result.toAmount);
      |r| > |n| && r[..|n|] == n && r[|n|] == ' ' &&
      r[|n| + 1..] == DisplayUnitName(settings, env, result.toAmount, result.toUnit)
  {
    FormatFloatAsWritten(settings, env, result.toAmount) + " " +
    DisplayUnitName(settings, env, result.toAmount, result.toUnit)
  }

  /** `formatted_from`: the original amount, a space, and its unit name. */
  function FormattedFrom(settings: Settings, env: Env, result: ConversionResult): (r: string)
    ensures var n := FormatFloatAsWritten(settings, env, result.fromAmount);
      |r| > |n| && r[..|n|] == n && r[|n|] == ' ' &&
      r[|n| + 1..] == DisplayUnitName(settings, env, result.fromAmount, result.fromUnit)
  {
    FormatFloatAsWritten(settings, env, result.fromAmount) + " " +
    DisplayUnitName(settings, env, result.fromAmount, result.fromUnit)
  }
}
