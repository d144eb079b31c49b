/** Writing natural numbers in base 10 or 16 and reading them back the way the standard library does. */
module Numerals {
  import opened Outcomes

  predicate IsBase(base: nat) {
    base == 10 || base == 16
  }

  function Digit(d: nat): char
    requires d < 16
  {
    if d < 10 then '0' + d as char else 'a' + (d - 10) as char
  }

  /** The numeral of `n`, without leading zeros. */
  function Show(n: nat, base: nat): (text: string)
    requires IsBase(base)
    ensures |text| > 0
    decreases n
  {
    if n < base then [Digit(n)] else Show(n / base, base) + [Digit(n % base)]
  }

  /** The value of one digit; hexadecimal accepts both cases. */
  function DigitValue(c: char, base: nat): Option<nat>
    requires IsBase(base)
  {
    if '0' <= c <= '9' then Some((c - '0') as nat)
    else if base == 16 && 'a' <= c <= 'f' then Some((c - 'a') as nat + 10)
    else if base == 16 && 'A' <= c <= 'F' then Some((c - 'A') as nat + 10)
    else None
  }

  /** The value of a digit string; the empty string is worth zero. */
  function Value(text: string, base: nat): Option<nat>
    requires IsBase(base)
  {
    if text == "" then Some(0)
    else
      var n := |text| - 1;
      var high, low := Value(text[..n], base), DigitValue(text[n], base);
      if high.None? || low.None? then None else Some(high.value * base + low.value)
  }

  /** Unsigned parsing: an optional plus sign, at least one digit, and no overflow past `max`. */
  function ParseUnsigned(text: string, base: nat, max: nat): Option<nat>
    requires IsBase(base)
  {
    var body := if |text| > 1 && text[0] == '+' then text[1..] else text;
    var v := Value(body, base);
    if body == "" || v.None? || v.value > max then None else v
  }

  /** Decimal parsing with an optional sign, within `low..=high`. */
  function ParseSigned(text: string, low: int, high: int): Option<int> {
    var signed := |text| > 1 && (text[0] == '+' || text[0] == '-');
    var body := if signed then text[1..] else text;
    var v := Value(body, 10);
    if body == "" || v.None? then None
    else
      var magnitude: int := v.value;
      var n := if signed && text[0] == '-' then -magnitude else magnitude;
      if low <= n <= high then Some(n) else None
  }

  function ShowInt(n: int): string {
    if n < 0 then "-" + Show(-n, 10) else Show(n, 10)
  }

  predicate IsDigit(c: char, base: nat)
    requires IsBase(base)
  {
    DigitValue(c, base).Some?
  }

  lemma DigitRoundTrip(d: nat, base: nat)
    requires IsBase(base) && d < base
    ensures DigitValue(Digit(d), base) == Some(d)
  {
  }

  lemma ValueAppend(text: string, c: char, base: nat)
    requires IsBase(base) && Value(text, base).Some? && IsDigit(c, base)
    ensures Value(text + [c], base) == Some(Value(text, base).value * base + DigitValue(c, base).value)
  {
    assert (text + [c])[..|text|] == text;
  }

  /** A numeral stands for its number. */
  lemma {:induction false} ShowThenRead(n: nat, base: nat)
    requires IsBase(base)
    ensures Value(Show(n, base), base) == Some(n)
    decreases n
  {
    DigitRoundTrip(n % base, base);
    if n >= base {
      ShowThenRead(n / base, base);
      ValueAppend(Show(n / base, base), Digit(n % base), base);
      assert base == 10 || base == 16;
    } else {
      ValueAppend("", Digit(n), base);
      assert [Digit(n)] == "" + [Digit(n)];
    }
  }

  /** A string with a value consists of digits only. */
  lemma {:induction false} OnlyDigits(text: string, base: nat, i: nat)
    requires IsBase(base) && Value(text, base).Some? && i < |text|
    ensures IsDigit(text[i], base)
  {
    if i < |text| - 1 {
      OnlyDigits(text[..|text| - 1], base, i);
    }
  }

  lemma ParseShown(n: nat, base: nat, max: nat)
    requires IsBase(base) && n <= max
    ensures ParseUnsigned(Show(n, base), base, max) == Some(n)
  {
    ShowThenRead(n, base);
    OnlyDigits(Show(n, base), base, 0);
  }

  lemma ParseNegative(n: nat, low: int, high: int)
    requires n > 0 && low <= 0 - n <= high
    ensures ParseSigned("-" + Show(n, 10), low, high) == Some(0 - n)
  {
    ShowThenRead(n, 10);
    assert ("-" + Show(n, 10))[1..] == Show(n, 10);
  }

  lemma ParseNonNegative(n: nat, low: int, high: int)
    requires low <= n <= high
    ensures ParseSigned(Show(n, 10), low, high) == Some(n)
  {
    ShowThenRead(n, 10);
    OnlyDigits(Show(n, 10), 10, 0);
  }

  lemma ParseShownInt(n: int, low: int, high: int)
    requires low <= n <= high
    ensures ParseSigned(ShowInt(n), low, high) == Some(n)
  {
    if n < 0 {
      ParseNegative(-n, low, high);
    } else {
      ParseNonNegative(n, low, high);
    }
  }

  /** Index of the first `c`, or the length if there is none. */
  function IndexOf(text: string, c: char): (i: nat)
    ensures i <= |text|
    ensures forall k :: 0 <= k < i ==> text[k] != c
    ensures i < |text| ==> text[i] == c
  {
    if text == "" || text[0] == c then 0 else 1 + IndexOf(text[1..], c)
  }

  lemma IndexAfter(front: string, c: char, back: string)
    requires forall i :: 0 <= i < |front| ==> front[i] != c
    ensures IndexOf(front + [c] + back, c) == |front|
  {
    var text := front + [c] + back;
    assert text[|front|] == c;
    forall i | 0 <= i < |front| ensures text[i] != c {
      assert text[i] == front[i];
    }
  }
}
