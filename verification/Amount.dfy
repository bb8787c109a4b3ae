/** Amounts as text: parsing plain decimals into atomic units and printing them back. */
module Amount {
  import opened Types

  const DECIMALS: nat := 6
  const ATOMIC_UNITS: nat := 1_000_000

  datatype AmountError = NegativeSign | TooManyDecimals | NotPlain | NotPositive | TooLarge

  datatype Parsed = Units(amount: int) | Invalid(error: AmountError)

  // ---------------------------------------------------------------- digits

  predicate Digit(c: char) { '0' <= c <= '9' }

  predicate AllDigits(s: string) { forall i :: 0 <= i < |s| ==> Digit(s[i]) }

  function Pow10(k: nat): (r: nat)
    ensures r >= 1
  {
    if k == 0 then 1 else 10 * Pow10(k - 1)
  }

  function DigitOf(d: nat): char
    requires d < 10
  {
    (('0' as int) + d) as char
  }

  function Value(s: string): nat
    requires AllDigits(s)
  {
    if s == [] then 0 else Value(s[..|s| - 1]) * 10 + (s[|s| - 1] as int - '0' as int)
  }

  /** The last k decimal digits, zero-padded. */
  function Padded(n: nat, k: nat): (s: string)
    ensures |s| == k && AllDigits(s)
  {
    if k == 0 then "" else Padded(n / 10, k - 1) + [DigitOf(n % 10)]
  }

  /** Decimal digits without leading zeros; "0" for zero. */
  function Digits(n: nat): (s: string)
    ensures s != [] && AllDigits(s)
  {
    if n < 10 then [DigitOf(n)] else Digits(n / 10) + [DigitOf(n % 10)]
  }

  function StripTrailing(s: string, c: char): (r: string)
    ensures r <= s
  {
    if s == [] || s[|s| - 1] != c then s else StripTrailing(s[..|s| - 1], c)
  }

  function StripLeading(s: string): (r: string)
  {
    if |s| <= 1 || s[0] != '0' then s else StripLeading(s[1..])
  }

  lemma {:induction false} ValueBound(s: string)
    requires AllDigits(s)
    ensures Value(s) < Pow10(|s|)
  {
    if s != [] {
      ValueBound(s[..|s| - 1]);
    }
  }

  lemma {:induction false} ValuePadded(n: nat, k: nat)
    requires n < Pow10(k)
    ensures Value(Padded(n, k)) == n
  {
    if k > 0 {
      ValuePadded(n / 10, k - 1);
      assert Padded(n, k)[..k - 1] == Padded(n / 10, k - 1);
    }
  }

  lemma {:induction false} PaddedValue(s: string)
    requires AllDigits(s)
    ensures Padded(Value(s), |s|) == s
  {
    if s != [] {
      PaddedValue(s[..|s| - 1]);
      assert s == s[..|s| - 1] + [s[|s| - 1]];
    }
  }

  lemma {:induction false} ValueDigits(n: nat)
    ensures Value(Digits(n)) == n
  {
    if n >= 10 {
      ValueDigits(n / 10);
      assert Digits(n)[..|Digits(n)| - 1] == Digits(n / 10);
    } else {
      assert Value(Digits(n)[..0]) == 0;
    }
  }

  lemma {:induction false} LeadingZero(s: string)
    requires AllDigits(s) && s != [] && s[0] == '0'
    ensures Value(s) == Value(s[1..])
  {
    if |s| == 1 {
      assert s[..0] == [] && s[1..] == [];
    } else {
      LeadingZero(s[..|s| - 1]);
      assert s[..|s| - 1][1..] == s[1..][..|s| - 2];
    }
  }

  /** Without a leading zero a digit string is the one its value prints as. */
  lemma {:induction false} DigitsOfValue(s: string)
    requires AllDigits(s) && s != [] && (s[0] != '0' || |s| == 1)
    ensures Digits(Value(s)) == s && (|s| > 1 ==> Value(s) >= 10) && (s[0] != '0' ==> Value(s) >= 1)
  {
    var before := s[..|s| - 1];
    assert s == before + [s[|s| - 1]];
    if |s| > 1 {
      DigitsOfValue(before);
    } else {
      assert Value(before) == 0;
    }
  }

  /** Printing a parsed digit string only drops its leading zeros. */
  lemma {:induction false} DigitsReprint(s: string)
    requires AllDigits(s) && s != []
    ensures Digits(Value(s)) == StripLeading(s)
    decreases |s|
  {
    if |s| > 1 && s[0] == '0' {
      LeadingZero(s);
      DigitsReprint(s[1..]);
    } else {
      DigitsOfValue(s);
    }
  }

  // ---------------------------------------------------------------- parsing

  /** White space as the text type understands it. */
  predicate Space(c: char) {
    var u := c as int;
    9 <= u <= 13 || 28 <= u <= 32 || u == 0x85 || u == 0xA0 || u == 0x1680 || 0x2000 <= u <= 0x200A
    || u == 0x2028 || u == 0x2029 || u == 0x202F || u == 0x205F || u == 0x3000
  }

  function Trim(s: string): string
    decreases |s|
  {
    if s != [] && Space(s[0]) then Trim(s[1..])
    else if s != [] && Space(s[|s| - 1]) then Trim(s[..|s| - 1])
    else s
  }

  /** Position of the first point, or the length when there is none. */
  function Point(s: string): (i: nat)
    ensures i <= |s| && (i < |s| ==> s[i] == '.') && forall j :: 0 <= j < i ==> s[j] != '.'
  {
    if s == [] || s[0] == '.' then 0 else 1 + Point(s[1..])
  }

  function Whole(s: string): string { s[..Point(s)] }

  function Fraction(s: string): string { if Point(s) < |s| then s[Point(s) + 1..] else [] }

  /** One or more digits, then nothing or a point and between `low` and `high` digits. */
  predicate Decimal(s: string) {
    Whole(s) != [] && AllDigits(Whole(s)) && AllDigits(Fraction(s)) && (Point(s) < |s| ==> Fraction(s) != [])
  }

  function Scaled(s: string): nat
    requires Decimal(s) && |Fraction(s)| <= DECIMALS
  {
    Value(Whole(s)) * ATOMIC_UNITS + Value(Fraction(s)) * Pow10(DECIMALS - |Fraction(s)|)
  }

  function MaiToAtomic(input: string): Parsed {
    var text := Trim(input);
    if text != [] && text[0] == '-' then Invalid(NegativeSign)
    else if Decimal(text) && |Fraction(text)| > DECIMALS then Invalid(TooManyDecimals)
    else if !Decimal(text) then Invalid(NotPlain)
    else if Scaled(text) == 0 then Invalid(NotPositive)
    else if Scaled(text) > INT_MAX then Invalid(TooLarge)
    else Units(Scaled(text))
  }

  // ---------------------------------------------------------------- printing

  function AtomicToMai(value: int): string {
    var units: nat := if value < 0 then -value else value;
    var text := Digits(units / ATOMIC_UNITS) + "." + Padded(units % ATOMIC_UNITS, DECIMALS);
    (if value < 0 then "-" else "") + StripTrailing(StripTrailing(text, '0'), '.')
  }

  /** A decimal without superfluous zeros. */
  function Canonical(s: string): string
    requires Decimal(s)
  {
    var fraction := StripTrailing(Fraction(s), '0');
    StripLeading(Whole(s)) + (if fraction == [] then "" else "." + fraction)
  }

  lemma {:induction false} StripAppend(s: string, zeros: string, c: char)
    requires forall i :: 0 <= i < |zeros| ==> zeros[i] == c
    ensures StripTrailing(s + zeros, c) == StripTrailing(s, c)
  {
    if zeros == [] {
      assert s + zeros == s;
    } else {
      assert (s + zeros)[..|s + zeros| - 1] == s + zeros[..|zeros| - 1];
      StripAppend(s, zeros[..|zeros| - 1], c);
    }
  }

  lemma {:induction false} StripBehind(s: string, tail: string, c: char)
    requires s != [] && s[|s| - 1] != c
    ensures StripTrailing(s + tail, c) == s + StripTrailing(tail, c)
  {
    if tail == [] || tail[|tail| - 1] != c {
      assert tail == [] ==> s + tail == s;
    } else {
      assert (s + tail)[..|s + tail| - 1] == s + tail[..|tail| - 1];
      StripBehind(s, tail[..|tail| - 1], c);
    }
  }

  /** What the two strips leave of "whole.fraction". */
  lemma PrintedForm(whole: string, fraction: string)
    requires AllDigits(whole) && whole != [] && AllDigits(fraction)
    ensures
      var kept := StripTrailing(fraction, '0');
      StripTrailing(StripTrailing(whole + "." + fraction, '0'), '.')
        == whole + (if kept == [] then "" else "." + kept)
  {
    var kept := StripTrailing(fraction, '0');
    StripBehind(whole + ".", fraction, '0');
    if kept == [] {
      assert whole + "." + kept == whole + ".";
      assert (whole + ".")[..|whole|] == whole;
      assert StripTrailing(whole, '.') == whole;
    } else {
      assert whole + "." + kept == whole + ("." + kept);
      assert Digit(kept[|kept| - 1]);
    }
  }

  lemma PaddedTimesTen(m: nat, k: nat)
    requires k >= 1
    ensures Padded(10 * m, k) == Padded(m, k - 1) + ['0']
  {}

  /** Scaling a fraction up to six digits appends zeros to it. */
  lemma {:induction false} FractionPadded(fraction: string, k: nat)
    requires AllDigits(fraction) && |fraction| <= k
    ensures Value(fraction) * Pow10(k - |fraction|) < Pow10(k)
    ensures StripTrailing(Padded(Value(fraction) * Pow10(k - |fraction|), k), '0') == StripTrailing(fraction, '0')
    decreases k
  {
    hide Value, StripTrailing, Padded, AllDigits;
    if |fraction| == k {
      assert Pow10(0) == 1;
      PaddedValue(fraction);
      ValueBound(fraction);
    } else {
      FractionPadded(fraction, k - 1);
      var smaller := Value(fraction) * Pow10(k - 1 - |fraction|);
      TenTimes(Value(fraction), Pow10(k - 1 - |fraction|));
      assert Value(fraction) * Pow10(k - |fraction|) == 10 * smaller;
      PaddedTimesTen(smaller, k);
      StripAppend(Padded(smaller, k - 1), ['0'], '0');
    }
  }

  lemma TenTimes(a: nat, b: nat)
    ensures a * (10 * b) == 10 * (a * b)
  {}

  lemma PrintIs(n: nat)
    ensures AtomicToMai(n)
         == StripTrailing(StripTrailing(Digits(n / ATOMIC_UNITS) + "." + Padded(n % ATOMIC_UNITS, DECIMALS), '0'), '.')
  {
    hide Digits, Padded, StripTrailing;
    var t := StripTrailing(StripTrailing(Digits(n / ATOMIC_UNITS) + "." + Padded(n % ATOMIC_UNITS, DECIMALS), '0'), '.');
    assert "" + t == t;
  }

  lemma Million()
    ensures Pow10(DECIMALS) == ATOMIC_UNITS
  {
    assert Pow10(3) == 1000 && Pow10(6) == 1000 * Pow10(3);
  }

  lemma ParsedParts(input: string)
    requires MaiToAtomic(input).Units?
    ensures
      var text := Trim(input);
      && Decimal(text) && |Fraction(text)| <= DECIMALS && 1 <= Scaled(text) <= INT_MAX
      && MaiToAtomic(input) == Units(Scaled(text))
      && AllDigits(Whole(text)) && Whole(text) != [] && AllDigits(Fraction(text))
  {
    hide Trim, Scaled, Whole, Fraction, AllDigits;
  }

  /** Printing what was parsed gives the same decimal without superfluous zeros. */
  lemma PrintParsed(input: string)
    requires MaiToAtomic(input).Units?
    ensures Decimal(Trim(input)) && AtomicToMai(MaiToAtomic(input).amount) == Canonical(Trim(input))
  {
    hide Trim, Whole, Fraction, AllDigits, Digits, Padded, StripTrailing, StripLeading, Value, Decimal, AtomicToMai, MaiToAtomic, Pow10;
    ParsedParts(input);
    var text := Trim(input);
    var whole, fraction := Whole(text), Fraction(text);
    var low := Value(fraction) * Pow10(DECIMALS - |fraction|);
    Million();
    FractionPadded(fraction, DECIMALS);
    Split(Value(whole), low);
    PrintIs(Scaled(text));
    DigitsReprint(whole);
    PrintedForm(Digits(Value(whole)), Padded(low, DECIMALS));
  }

  lemma Split(high: nat, low: nat)
    requires low < ATOMIC_UNITS
    ensures (high * ATOMIC_UNITS + low) / ATOMIC_UNITS == high && (high * ATOMIC_UNITS + low) % ATOMIC_UNITS == low
  {}

  // ---------------------------------------------------------------- round trip

  lemma {:induction false} StripKeepsValue(s: string)
    requires AllDigits(s)
    ensures
      var kept := StripTrailing(s, '0');
      AllDigits(kept) && |kept| <= |s| && Value(kept) * Pow10(|s| - |kept|) == Value(s)
  {
    var kept := StripTrailing(s, '0');
    if s == [] || s[|s| - 1] != '0' {
      assert Pow10(0) == 1;
    } else {
      StripKeepsValue(s[..|s| - 1]);
      TenTimes(Value(kept), Pow10(|s| - 1 - |kept|));
    }
  }

  lemma {:induction false} PointOf(s: string, i: nat)
    requires i <= |s| && (i < |s| ==> s[i] == '.') && forall j :: 0 <= j < i ==> s[j] != '.'
    ensures Point(s) == i
  {
    if i > 0 {
      PointOf(s[1..], i - 1);
    }
  }

  lemma PointAt(whole: string, fraction: string)
    requires AllDigits(whole)
    ensures Whole(whole) == whole && Fraction(whole) == [] && Point(whole) == |whole|
    ensures Whole(whole + "." + fraction) == whole && Fraction(whole + "." + fraction) == fraction
    ensures Point(whole + "." + fraction) == |whole|
  {
    hide Point;
    var s := whole + "." + fraction;
    PointOf(whole, |whole|);
    assert s[|whole|] == '.' && forall j :: 0 <= j < |whole| ==> s[j] == whole[j];
    PointOf(s, |whole|);
    assert s[..|whole|] == whole && s[|whole| + 1..] == fraction && whole[..|whole|] == whole;
  }

  lemma TrimKeeps(s: string)
    requires s != [] && Digit(s[0]) && Digit(s[|s| - 1])
    ensures Trim(s) == s && s[0] != '-'
  {}

  /** Text of the form whole or whole.fraction is parsed to its scaled value. */
  lemma ParseIs(text: string, whole: string, kept: string)
    requires AllDigits(whole) && whole != [] && AllDigits(kept) && |kept| <= DECIMALS
    requires text == if kept == [] then whole else whole + "." + kept
    requires 1 <= Value(whole) * ATOMIC_UNITS + Value(kept) * Pow10(DECIMALS - |kept|) <= INT_MAX
    ensures MaiToAtomic(text) == Units(Value(whole) * ATOMIC_UNITS + Value(kept) * Pow10(DECIMALS - |kept|))
  {
    hide Value, Pow10, Trim, Whole, Fraction, Point;
    PointAt(whole, kept);
    TrimKeeps(text);
  }

  /** Printing and parsing back is the identity on every positive amount a wallet can hold. */
  lemma ParsePrinted(n: int)
    requires 1 <= n <= INT_MAX
    ensures MaiToAtomic(AtomicToMai(n)) == Units(n)
  {
    hide Digits, Padded, StripTrailing, Value, AtomicToMai, MaiToAtomic, Pow10, AllDigits;
    var whole, padded := Digits(n / ATOMIC_UNITS), Padded(n % ATOMIC_UNITS, DECIMALS);
    var kept := StripTrailing(padded, '0');
    Million();
    PrintIs(n);
    PrintedForm(whole, padded);
    StripKeepsValue(padded);
    ValuePadded(n % ATOMIC_UNITS, DECIMALS);
    ValueDigits(n / ATOMIC_UNITS);
    PrintedPlain(whole, kept);
    ParseIs(if kept == [] then whole else whole + "." + kept, whole, kept);
  }

  lemma PrintedPlain(whole: string, kept: string)
    ensures whole + (if kept == [] then "" else "." + kept) == if kept == [] then whole else whole + "." + kept
  {
    assert whole + "" == whole;
    assert whole + ("." + kept) == whole + "." + kept;
  }
}
