/** Printing fixed-point decimals: exactly, or rounded half to even at a shown scale. */
module DecimalDisplay {
  import opened Basics
  import opened Outcomes
  import opened Numerals

  function Abs(x: int): nat {
    if x < 0 then -x else x
  }

  function Pow10(n: nat): (p: nat)
    ensures p >= 1
  {
    if n == 0 then 1 else 10 * Pow10(n - 1)
  }

  function Zeros(n: nat): (z: string)
    ensures |z| == n
  {
    if n == 0 then "" else Zeros(n - 1) + "0"
  }

  function Pad(digits: string, width: nat): string {
    if |digits| >= width then digits else Zeros(width - |digits|) + digits
  }

  /** A negative scale is treated as zero. */
  function Places(scale: int): nat {
    if scale < 0 then 0 else scale
  }

  /** Put the decimal point before the last `places` digits. */
  function InsertPoint(padded: string, places: nat): string
    requires |padded| > places
  {
    var split := |padded| - places;
    if places == 0 then padded else padded[..split] + "." + padded[split..]
  }

  function Plain(n: nat, places: nat): string {
    var digits := Show(n, 10);
    InsertPoint(Pad(digits, places + 1), places)
  }

  function ExactDecimal(value: int, scale: int): string {
    var text := Plain(Abs(value), Places(scale));
    if value < 0 then "-" + text else text
  }

  /** Half-even rounding of a magnitude to multiples of `factor`. */
  function RoundBy(n: nat, factor: nat): nat
    requires factor > 0
  {
    Nudged(n / factor, n % factor, factor / 2)
  }

  /** The truncated quotient, moved up past the half and, at the half, to an even number. */
  function Nudged(rounded: nat, remainder: nat, half: nat): nat {
    if remainder > half || (remainder == half && rounded % 2 == 1) then rounded + 1 else rounded
  }

  /** Cutting off `removed` digits; nothing is rounded when there is nothing to cut. */
  function RoundMagnitude(n: nat, removed: nat): nat {
    if removed > 0 then RoundBy(n, Pow10(removed)) else n / Pow10(removed)
  }

  function Rounded(value: int, scale: int, maximumPlaces: nat): int {
    var magnitude: int := RoundMagnitude(Abs(value), Places(scale) - Shown(scale, maximumPlaces));
    if value < 0 then -magnitude else magnitude
  }

  function Shown(scale: int, maximumPlaces: nat): nat {
    if Places(scale) < maximumPlaces then Places(scale) else maximumPlaces
  }

  function Decimal(value: int, scale: int, maximumPlaces: nat): string {
    ExactDecimal(Rounded(value, scale, maximumPlaces), Shown(scale, maximumPlaces))
  }

  // ---- reading back ----

  /** A reader of unsigned decimals: the digits as one number, and how many stand behind the point. */
  function ReadPlain(text: string): Option<(nat, nat)> {
    var point := IndexOf(text, '.');
    var whole, fraction := text[..point], if point < |text| then text[point + 1..] else "";
    var v := Value(whole + fraction, 10);
    if whole == "" || (point < |text| && fraction == "") || v.None? then None else Some((v.value, |fraction|))
  }

  function ReadDecimal(text: string): Option<(int, nat)> {
    if text != "" && text[0] == '-' then
      var r := ReadPlain(text[1..]);
      if r.None? then None else Some((0 - r.value.0, r.value.1))
    else
      var r := ReadPlain(text);
      if r.None? then None else Some((r.value.0 as int, r.value.1))
  }

  lemma {:induction false} ZerosAreZero(n: nat)
    ensures Value(Zeros(n), 10) == Some(0)
  {
    if n > 0 {
      ZerosAreZero(n - 1);
      ValueAppend(Zeros(n - 1), '0', 10);
      assert Zeros(n - 1) + ['0'] == Zeros(n);
    }
  }

  lemma {:induction false} LeadingZeros(n: nat, digits: string)
    requires Value(digits, 10).Some?
    ensures Value(Zeros(n) + digits, 10) == Value(digits, 10)
    decreases |digits|
  {
    if digits == "" {
      ZerosAreZero(n);
      assert Zeros(n) + digits == Zeros(n);
    } else {
      var k := |digits| - 1;
      LeadingZeros(n, digits[..k]);
      ValueAppend(Zeros(n) + digits[..k], digits[k], 10);
      assert Zeros(n) + digits == (Zeros(n) + digits[..k]) + [digits[k]];
    }
  }

  lemma PaddedValue(n: nat, width: nat)
    ensures Value(Pad(Show(n, 10), width), 10) == Some(n)
    ensures |Pad(Show(n, 10), width)| >= width
  {
    ShowThenRead(n, 10);
    if |Show(n, 10)| < width {
      LeadingZeros(width - |Show(n, 10)|, Show(n, 10));
    }
  }

  lemma ReadParts(whole: string, fraction: string)
    requires whole != "" && fraction != "" && Value(whole + fraction, 10).Some?
    ensures ReadPlain(whole + "." + fraction) == Some((Value(whole + fraction, 10).value, |fraction|))
  {
    var text := whole + "." + fraction;
    forall i | 0 <= i < |whole| ensures whole[i] != '.' {
      OnlyDigits(whole + fraction, 10, i);
      assert (whole + fraction)[i] == whole[i];
    }
    IndexAfter(whole, '.', fraction);
    assert text[..|whole|] == whole;
    assert text[|whole| + 1..] == fraction;
  }

  lemma ReadWhole(whole: string)
    requires whole != "" && Value(whole, 10).Some?
    ensures ReadPlain(whole) == Some((Value(whole, 10).value, 0))
  {
    forall i | 0 <= i < |whole| ensures whole[i] != '.' {
      OnlyDigits(whole, 10, i);
    }
    assert IndexOf(whole, '.') == |whole|;
    assert whole[..|whole|] + "" == whole;
  }

  lemma SplitAt(text: string, k: nat)
    requires k <= |text|
    ensures text[..k] + text[k..] == text
  {
  }

  lemma ReadWithPoint(padded: string, places: nat)
    requires |padded| > places > 0 && Value(padded, 10).Some?
    ensures ReadPlain(InsertPoint(padded, places)) == Some((Value(padded, 10).value, places))
  {
    var split := |padded| - places;
    SplitAt(padded, split);
    ReadParts(padded[..split], padded[split..]);
  }

  lemma ReadInserted(padded: string, places: nat)
    requires |padded| > places && Value(padded, 10).Some?
    ensures ReadPlain(InsertPoint(padded, places)) == Some((Value(padded, 10).value, places))
  {
    if places == 0 {
      ReadWhole(padded);
    } else {
      ReadWithPoint(padded, places);
    }
  }

  lemma StartsWithDigit(padded: string, places: nat)
    requires |padded| > places && Value(padded, 10).Some?
    ensures InsertPoint(padded, places) != "" && InsertPoint(padded, places)[0] != '-'
  {
    OnlyDigits(padded, 10, 0);
  }

  lemma SignedRead(text: string, n: nat, places: nat)
    requires text != "" && text[0] != '-' && ReadPlain(text) == Some((n, places))
    ensures ReadDecimal(text) == Some((n as int, places)) && ReadDecimal("-" + text) == Some((0 - n, places))
  {
    assert ("-" + text)[1..] == text;
  }

  /** Printing exactly loses nothing: the value and its number of places can be read back. */
  lemma ExactDecimalRoundTrip(value: int, scale: int)
    ensures ReadDecimal(ExactDecimal(value, scale)) == Some((value, Places(scale)))
  {
    var places := Places(scale);
    PaddedValue(Abs(value), places + 1);
    ReadInserted(Pad(Show(Abs(value), 10), places + 1), places);
    StartsWithDigit(Pad(Show(Abs(value), 10), places + 1), places);
    SignedRead(Plain(Abs(value), places), Abs(value), places);
  }

  /**
    With a negative scale the digits are printed unscaled: what is read back is the true value,
    `value` times a power of ten, exactly when the value is zero.
  */
  lemma NegativeScaleLosesMagnitude(value: int, scale: int)
    requires scale < 0
    ensures ReadDecimal(ExactDecimal(value, scale)) == Some((value, 0))
    ensures value == value * Pow10(-scale) <==> value == 0
  {
    ExactDecimalRoundTrip(value, scale);
    NoFixedPoint(value, Pow10(-scale));
  }

  lemma NoFixedPoint(value: int, p: nat)
    requires p >= 10
    ensures value == value * p <==> value == 0
  {
  }

  lemma {:induction false} ShowStartsHigh(n: nat)
    ensures Show(n, 10)[0] == '0' <==> n == 0
  {
    if n >= 10 {
      ShowStartsHigh(n / 10);
    }
  }

  /** No superfluous zeros in front: a leading zero stands alone or before the point. */
  lemma PlainIsTight(n: nat, places: nat)
    ensures var text := Plain(n, places); text[0] == '0' ==> |text| == 1 || text[1] == '.'
  {
    ShowStartsHigh(n);
    var digits := Show(n, 10);
    if |digits| >= places + 1 {
      assert Plain(n, places)[0] == digits[0];
    } else {
      assert |Pad(digits, places + 1)| - places == 1;
    }
  }

  // ---- rounding ----

  /** `r` units of size `unit` are nearest to `value`, and an even number of them at a tie. */
  predicate IsHalfEven(value: int, unit: nat, r: int) {
    && 2 * Abs(r * unit - value) <= unit
    && (2 * Abs(r * unit - value) == unit ==> r % 2 == 0)
  }

  /** How many digits are cut off, as a power of ten. */
  function Unit(scale: int, maximumPlaces: nat): nat {
    Pow10(Places(scale) - Shown(scale, maximumPlaces))
  }

  /** The arithmetic of one rounding, with `x` the largest multiple of the unit below `n`. */
  lemma NearestMultiple(n: nat, half: nat, x: int, rest: nat, q: nat)
    requires n == x + rest && rest < 2 * half
    ensures
      var r := Nudged(q, rest, half);
      var y := if r == q then x else x + 2 * half;
      2 * Abs(y - n) <= 2 * half && (2 * Abs(y - n) == 2 * half ==> r % 2 == 0)
  {
  }

  lemma NextMultiple(q: nat, unit: nat)
    ensures (q + 1) * unit == q * unit + unit
  {
  }

  lemma HalfEvenParts(n: nat, unit: nat, q: nat, rest: nat)
    requires unit % 2 == 0 && rest < unit && n == q * unit + rest
    ensures IsHalfEven(n, unit, Nudged(q, rest, unit / 2))
  {
    NearestMultiple(n, unit / 2, q * unit, rest, q);
    NextMultiple(q, unit);
    if Nudged(q, rest, unit / 2) == q {
      ByProduct(n, unit, q, q * unit);
    } else {
      ByProduct(n, unit, q + 1, q * unit + unit);
    }
  }

  lemma HalfEvenBy(n: nat, unit: nat)
    requires unit > 0 && unit % 2 == 0
    ensures IsHalfEven(n, unit, RoundBy(n, unit))
  {
    DivMod(n, unit);
    HalfEvenParts(n, unit, n / unit, n % unit);
  }

  lemma ByProduct(value: int, unit: nat, r: int, product: int)
    requires product == r * unit && 2 * Abs(product - value) <= unit && (2 * Abs(product - value) == unit ==> r % 2 == 0)
    ensures IsHalfEven(value, unit, r)
  {
  }

  lemma HalfEvenMagnitude(n: nat, removed: nat)
    ensures IsHalfEven(n, Pow10(removed), RoundMagnitude(n, removed))
  {
    if removed > 0 {
      PowerIsEven(removed);
      HalfEvenBy(n, Pow10(removed));
    } else {
      ByProduct(n, 1, n, n);
    }
  }

  lemma PowerIsEven(removed: nat)
    requires removed > 0
    ensures Pow10(removed) % 2 == 0
  {
    assert Pow10(removed) == 2 * (5 * Pow10(removed - 1));
  }

  lemma HalfEvenNegates(value: int, unit: nat, r: int)
    requires IsHalfEven(value, unit, r)
    ensures IsHalfEven(-value, unit, -r)
  {
    assert (-r) * unit == -(r * unit);
  }

  /** The printed number is the nearest at the shown scale, ties going to the even neighbour, whatever the sign. */
  lemma RoundsHalfEven(value: int, scale: int, maximumPlaces: nat)
    ensures IsHalfEven(value, Unit(scale, maximumPlaces), Rounded(value, scale, maximumPlaces))
    ensures Rounded(-value, scale, maximumPlaces) == -Rounded(value, scale, maximumPlaces)
  {
    var removed := Places(scale) - Shown(scale, maximumPlaces);
    HalfEvenMagnitude(Abs(value), removed);
    if value < 0 {
      HalfEvenNegates(Abs(value), Pow10(removed), RoundMagnitude(Abs(value), removed));
    } else if value == 0 {
      assert RoundMagnitude(0, removed) == 0 by {
        ZeroStays(removed);
      }
    }
  }

  lemma ZeroStays(removed: nat)
    ensures RoundMagnitude(0, removed) == 0
  {
    if removed > 0 {
      assert Pow10(removed) / 2 == 5 * Pow10(removed - 1);
    }
  }

  lemma GapBetweenMultiples(r: int, s: int, unit: nat)
    requires r > s && unit > 0
    ensures r * unit >= s * unit + unit
    ensures r * unit == s * unit + unit <==> r == s + 1
  {
    var d := r - s - 1;
    assert r * unit == s * unit + unit + d * unit;
    assert d > 0 ==> d * unit > 0;
  }

  /** Two nearest multiples for ordered values are at most one unit out of order, and then both are ties. */
  lemma NearestGap(v: int, w: int, unit: nat, x: int, y: int)
    requires v <= w && 2 * Abs(x - v) <= unit && 2 * Abs(y - w) <= unit
    ensures x - y <= unit
    ensures x - y == unit ==> 2 * Abs(x - v) == unit && 2 * Abs(y - w) == unit
  {
  }

  /** Nearest-even is monotone, and therefore unique. */
  lemma HalfEvenMonotone(v: int, w: int, unit: nat, r: int, s: int)
    requires v <= w && unit > 0 && IsHalfEven(v, unit, r) && IsHalfEven(w, unit, s)
    ensures r <= s
  {
    NearestGap(v, w, unit, r * unit, s * unit);
    if r > s {
      GapBetweenMultiples(r, s, unit);
    }
  }

  lemma RoundingIsMonotone(v: int, w: int, scale: int, maximumPlaces: nat)
    requires v <= w
    ensures Rounded(v, scale, maximumPlaces) <= Rounded(w, scale, maximumPlaces)
  {
    RoundsHalfEven(v, scale, maximumPlaces);
    RoundsHalfEven(w, scale, maximumPlaces);
    HalfEvenMonotone(v, w, Unit(scale, maximumPlaces), Rounded(v, scale, maximumPlaces), Rounded(w, scale, maximumPlaces));
  }

  /** The displayed text has as many places as the scale and the maximum allow, and reads back as the one half-even rounding to them. */
  lemma DecimalShowsNearest(value: int, scale: int, maximumPlaces: nat, other: int)
    ensures ReadDecimal(Decimal(value, scale, maximumPlaces)) ==
      Some((Rounded(value, scale, maximumPlaces), if scale <= 0 then 0 else if scale <= maximumPlaces then scale else maximumPlaces))
    ensures
      var unit := Pow10(if scale > maximumPlaces then scale - maximumPlaces else 0);
      IsHalfEven(value, unit, other) <==> other == Rounded(value, scale, maximumPlaces)
  {
    var r := Rounded(value, scale, maximumPlaces);
    ExactDecimalRoundTrip(r, Shown(scale, maximumPlaces));
    RoundsHalfEven(value, scale, maximumPlaces);
    if IsHalfEven(value, Unit(scale, maximumPlaces), other) {
      HalfEvenMonotone(value, value, Unit(scale, maximumPlaces), r, other);
      HalfEvenMonotone(value, value, Unit(scale, maximumPlaces), other, r);
    }
  }

  /** A negative value prints like its magnitude behind a minus sign, unless it rounds to zero. */
  lemma SignIsOnlyAPrefix(value: nat, scale: int, maximumPlaces: nat)
    ensures
      var text := Decimal(value, scale, maximumPlaces);
      Decimal(0 - value, scale, maximumPlaces) == if Rounded(value, scale, maximumPlaces) == 0 then text else "-" + text
  {
    RoundsHalfEven(value, scale, maximumPlaces);
  }

  // ---- no overflow ----

  const I128_MAX := 0x7FFF_FFFF_FFFF_FFFF_FFFF_FFFF_FFFF_FFFF
  const U128_MAX := 0xFFFF_FFFF_FFFF_FFFF_FFFF_FFFF_FFFF_FFFF

  lemma {:induction false} Pow10Sum(a: nat, b: nat)
    ensures Pow10(a + b) == Pow10(a) * Pow10(b)
  {
    if a > 0 {
      Pow10Sum(a - 1, b);
    }
  }

  lemma {:induction false} Pow10Monotone(a: nat, b: nat)
    requires a <= b
    ensures Pow10(a) <= Pow10(b)
  {
    if a < b {
      Pow10Monotone(a, b - 1);
    }
  }

  lemma LargestMagnitude()
    ensures Pow10(38) == 100_000_000_000_000_000_000_000_000_000_000_000_000 < I128_MAX
  {
    assert Pow10(2) == 100;
    Pow10Sum(2, 2);
    assert Pow10(4) == 1_0000;
    Pow10Sum(4, 4);
    assert Pow10(8) == 1_0000_0000;
    Pow10Sum(8, 8);
    assert Pow10(16) == 1_0000_0000_0000_0000;
    Pow10Sum(2, 4);
    Pow10Sum(6, 16);
    Pow10Sum(22, 16);
  }

  /** For every Decimal128 magnitude and scale, the factor fits `u128` and the rounded value fits `i128`. */
  lemma RoundingFits(value: int, scale: int, maximumPlaces: nat)
    requires Abs(value) < Pow10(38) && scale <= 38
    ensures Unit(scale, maximumPlaces) <= U128_MAX
    ensures Abs(Rounded(value, scale, maximumPlaces)) <= Pow10(38) <= I128_MAX
  {
    LargestMagnitude();
    var unit := Unit(scale, maximumPlaces);
    Pow10Monotone(Places(scale) - Shown(scale, maximumPlaces), 38);
    QuotientIsSmaller(Abs(value), unit);
  }

  lemma QuotientIsSmaller(n: nat, unit: nat)
    requires unit >= 1
    ensures n / unit <= n
  {
    var q := n / unit;
    assert n == q * unit + n % unit;
    assert q * unit >= q;
  }
}
