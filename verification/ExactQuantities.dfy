/** Byte counts as decimal text (crates/ferrodoc-core/src/quantity.rs). */
module ExactQuantities {
  import opened Collections
  import opened Text

  const U64_RANGE: nat := 0x1_0000_0000_0000_0000
  const U128_RANGE: nat := 0x1_0000_0000_0000_0000_0000_0000_0000_0000

  const KB: nat := 1_000
  const MB: nat := 1_000_000
  const GB: nat := 1_000_000_000
  const KIB: nat := 1_024
  const MIB: nat := 1_048_576
  const GIB: nat := 1_073_741_824

  datatype QuantityError = InvalidText | ArithmeticOverflow

  // ---- Decimal digits ----

  predicate IsDigit(c: char) {
    '0' <= c <= '9'
  }

  predicate AllDigits(s: string) {
    forall i: nat :: i < |s| ==> IsDigit(s[i])
  }

  function DigitValue(c: char): nat
    requires IsDigit(c)
  {
    c as int - '0' as int
  }

  function Pow10(n: nat): (p: nat)
    ensures p >= 1
  {
    if n == 0 then 1 else 10 * Pow10(n - 1)
  }

  function Digits(s: string): nat
    requires AllDigits(s)
  {
    if s == [] then 0 else 10 * Digits(s[..|s| - 1]) + DigitValue(s[|s| - 1])
  }

  lemma {:induction false} DigitsBelow(s: string)
    requires AllDigits(s)
    ensures Digits(s) < Pow10(|s|)
  {
    if s != [] {
      DigitsBelow(s[..|s| - 1]);
    }
  }

  function Decimal(n: nat): string {
    var last := [('0' as int + n % 10) as char];
    if n < 10 then last else Decimal(n / 10) + last
  }

  lemma {:induction false} DecimalReadsBack(n: nat)
    ensures Decimal(n) != [] && AllDigits(Decimal(n)) && Digits(Decimal(n)) == n
  {
    var s := Decimal(n);
    if n >= 10 {
      DecimalReadsBack(n / 10);
      assert s[..|s| - 1] == Decimal(n / 10);
    } else {
      assert s[..|s| - 1] == [];
    }
  }

  // ---- Scaled parsing ----

  function CountDots(s: string): nat {
    if s == [] then 0 else (if s[0] == '.' then 1 else 0) + CountDots(s[1..])
  }

  /** `split_once('.')`, with an empty fraction when there is no point. */
  function SplitPoint(s: string): (string, string) {
    if s == [] then ([], [])
    else if s[0] == '.' then ([], s[1..])
    else
      var rest := SplitPoint(s[1..]);
      ([s[0]] + rest.0, rest.1)
  }

  function ParseU128(s: string): Option<nat>
    requires AllDigits(s)
  {
    if s == [] || Digits(s) >= U128_RANGE then None else Some(Digits(s))
  }

  function CheckedMul(a: nat, b: nat): Option<nat> {
    if a * b < U128_RANGE then Some(a * b) else None
  }

  function ParseScaled(number: string, multiplier: nat): Result<nat, QuantityError> {
    if CountDots(number) > 1 then Err(InvalidText)
    else
      var (whole, fraction) := SplitPoint(number);
      if whole == [] || !AllDigits(whole) || !AllDigits(fraction) then Err(InvalidText)
      else if |fraction| > 9 then Err(InvalidText)
      else ScaleParts(whole, fraction, multiplier)
  }

  function ScaleParts(whole: string, fraction: string, multiplier: nat): Result<nat, QuantityError>
    requires AllDigits(whole) && AllDigits(fraction)
  {
    var parsed := ParseU128(whole);
    if parsed.None? then Err(InvalidText)
    else
      var product := CheckedMul(parsed.value, multiplier);
      if product.None? then Err(ArithmeticOverflow)
      else
        match AddFraction(product.value, fraction, multiplier)
        case Err(e) => Err(e)
        case Ok(total) => if total < U64_RANGE then Ok(total) else Err(ArithmeticOverflow)
  }

  function AddFraction(value: nat, fraction: string, multiplier: nat): Result<nat, QuantityError>
    requires AllDigits(fraction)
  {
    if fraction == [] then Ok(value)
    else if ParseU128(fraction).None? then Err(InvalidText)
    else if CheckedMul(ParseU128(fraction).value, multiplier).None? then Err(ArithmeticOverflow)
    else
      var scaled := CheckedMul(ParseU128(fraction).value, multiplier).value;
      var denominator := Pow10(|fraction|);
      if scaled % denominator != 0 then Err(InvalidText)
      else if value + scaled / denominator >= U128_RANGE then Err(ArithmeticOverflow)
      else Ok(value + scaled / denominator)
  }

  predicate WellFormed(number: string) {
    var (whole, fraction) := SplitPoint(number);
    CountDots(number) <= 1 && whole != [] && AllDigits(whole) && AllDigits(fraction)
  }

  /** `number * multiplier == value`, both sides multiplied by the decimal's denominator. */
  predicate Scales(number: string, multiplier: nat, value: nat)
    requires WellFormed(number)
  {
    var (whole, fraction) := SplitPoint(number);
    PartsScale(Digits(whole), Digits(fraction), Pow10(|fraction|), multiplier, value)
  }

  lemma PowersUpToNine(n: nat)
    requires n <= 9
    ensures Pow10(n) <= 1_000_000_000
  {
    assert Pow10(3) == 1_000;
    assert Pow10(6) == 1_000_000;
    assert Pow10(9) == 1_000_000_000;
    PowGrows(n, 9);
  }

  lemma {:induction false} PowGrows(a: nat, b: nat)
    requires a <= b
    ensures Pow10(a) <= Pow10(b)
  {
    if a < b {
      PowGrows(a, b - 1);
    }
  }

  /** Whole part `w`, numerator `n` over `d`: the quotient is exact precisely when the product is. */
  lemma ExactQuotient(w: nat, n: nat, d: nat, m: nat, v: nat)
    requires d >= 1
    ensures (w * d + n) * m == v * d <==> (n * m) % d == 0 && v == w * m + n * m / d
  {
    assert (w * d + n) * m == (w * m) * d + n * m;
    if (w * d + n) * m == v * d {
      assert n * m == (v - w * m) * d;
      ExactMultiple(n * m, v - w * m, d);
    } else if (n * m) % d == 0 {
      assert n * m == (n * m / d) * d;
      assert (w * m + n * m / d) * d == (w * m) * d + (n * m / d) * d;
    }
  }

  lemma ProductSign(x: int, d: int)
    requires d >= 1
    ensures x >= 1 ==> x * d >= d
    ensures x <= -1 ==> x * d <= -d
  {
  }

  lemma ExactMultiple(x: nat, q: int, d: nat)
    requires d >= 1 && x == q * d
    ensures x % d == 0 && x / d == q
  {
    var r := x / d;
    assert x == r * d + x % d;
    assert (q - r) * d == x % d;
    ProductSign(q - r, d);
  }

  /** Adding the fraction's share succeeds exactly when that share is an integer. */
  lemma AddFractionExact(value: nat, fraction: string, multiplier: nat, total: nat)
    requires AllDigits(fraction) && |fraction| <= 9 && multiplier < U64_RANGE && total < U64_RANGE
    ensures var n, d := Digits(fraction), Pow10(|fraction|);
            AddFraction(value, fraction, multiplier) == Ok(total)
            <==> (n * multiplier) % d == 0 && total == value + n * multiplier / d
  {
    var n := Digits(fraction);
    DigitsBelow(fraction);
    PowersUpToNine(|fraction|);
    Below(n, 1_000_000_000, multiplier, U64_RANGE);
  }

  predicate PartsScale(w: nat, n: nat, d: nat, multiplier: nat, value: nat) {
    (w * d + n) * multiplier == value * d
  }

  /** The whole part alone is accepted unless it is too large for any result. */
  lemma WholeAccepted(whole: string, fraction: string, multiplier: nat, product: nat)
    requires whole != [] && AllDigits(whole) && AllDigits(fraction) && multiplier >= 1
    requires product == Digits(whole) * multiplier
    ensures ScaleParts(whole, fraction, multiplier)
         == if product >= U128_RANGE then Err(if Digits(whole) >= U128_RANGE then InvalidText else ArithmeticOverflow)
            else
              var sum := AddFraction(product, fraction, multiplier);
              if sum.Ok? && sum.value >= U64_RANGE then Err(ArithmeticOverflow) else sum
  {
    LargeWhole(Digits(whole), multiplier);
  }

  lemma PartsExact(whole: string, fraction: string, multiplier: nat, value: nat, product: nat, share: nat, exact: bool)
    requires 1 <= multiplier < U64_RANGE && whole != [] && AllDigits(whole) && AllDigits(fraction) && |fraction| <= 9
    requires product == Digits(whole) * multiplier
    requires exact <==> (Digits(fraction) * multiplier) % Pow10(|fraction|) == 0
    requires share == Digits(fraction) * multiplier / Pow10(|fraction|)
    ensures ScaleParts(whole, fraction, multiplier) == Ok(value) <==>
            value < U64_RANGE && exact && value == product + share
  {
    WholeAccepted(whole, fraction, multiplier, product);
    if value < U64_RANGE {
      AddFractionExact(product, fraction, multiplier, value);
    }
  }

  /**
   * A well-formed decimal of at most nine fraction digits is accepted exactly when number times multiplier is an
   * integer below 2^64, and then gives that integer.
   */
  lemma ScaledParsingIsExact(number: string, multiplier: nat, value: nat)
    requires 1 <= multiplier < U64_RANGE
    ensures ParseScaled(number, multiplier) == Ok(value)
       <==> WellFormed(number) && |SplitPoint(number).1| <= 9 && value < U64_RANGE && Scales(number, multiplier, value)
  {
    var (whole, fraction) := SplitPoint(number);
    if WellFormed(number) && |fraction| <= 9 {
      PartsParse(whole, fraction, multiplier, value);
    }
  }

  lemma PartsParse(whole: string, fraction: string, multiplier: nat, value: nat)
    requires 1 <= multiplier < U64_RANGE && whole != [] && AllDigits(whole) && AllDigits(fraction) && |fraction| <= 9
    ensures ScaleParts(whole, fraction, multiplier) == Ok(value)
       <==> value < U64_RANGE && PartsScale(Digits(whole), Digits(fraction), Pow10(|fraction|), multiplier, value)
  {
    var w, n, d := Digits(whole), Digits(fraction), Pow10(|fraction|);
    PartsExact(whole, fraction, multiplier, value, w * multiplier, n * multiplier / d, (n * multiplier) % d == 0);
    ExactQuotient(w, n, d, multiplier, value);
  }

  lemma Below(a: nat, bigA: nat, b: nat, bigB: nat)
    requires a < bigA && b < bigB
    ensures a * b <= bigA * bigB
  {
    assert a * b <= bigA * b;
    assert bigA * b <= bigA * bigB;
  }

  lemma LargeWhole(w: nat, m: nat)
    requires m >= 1
    ensures w * m >= w
  {
  }

  // ---- Byte counts ----

  /** The position of the first character that is neither a digit nor a point. */
  function NumberEnd(s: string): (n: nat)
    ensures n <= |s|
  {
    if s == [] || !(IsDigit(s[0]) || s[0] == '.') then 0 else 1 + NumberEnd(s[1..])
  }

  function Multiplier(suffix: string): Option<nat> {
    if suffix == "" || suffix == "B" then Some(1)
    else if suffix == "KB" then Some(KB)
    else if suffix == "MB" then Some(MB)
    else if suffix == "GB" then Some(GB)
    else if suffix == "KiB" then Some(KIB)
    else if suffix == "MiB" then Some(MIB)
    else if suffix == "GiB" then Some(GIB)
    else None
  }

  function ParseBytes(input: string): Result<nat, QuantityError> {
    var trimmed := Trim(input);
    if trimmed != [] && (trimmed[0] == '-' || trimmed[0] == '+') then Err(InvalidText)
    else
      var split := NumberEnd(trimmed);
      if split == 0 then Err(InvalidText)
      else
        var multiplier := Multiplier(Trim(trimmed[split..]));
        if multiplier.None? then Err(InvalidText) else ParseScaled(trimmed[..split], multiplier.value)
  }

  function Shown(count: nat, unit: string): string {
    Decimal(count) + (" " + unit)
  }

  function Display(n: nat): string {
    if n >= GIB && n % GIB == 0 then Shown(n / GIB, "GiB")
    else if n >= MIB && n % MIB == 0 then Shown(n / MIB, "MiB")
    else if n >= KIB && n % KIB == 0 then Shown(n / KIB, "KiB")
    else Shown(n, "B")
  }

  lemma {:induction false} NumberEndsAt(digits: string, rest: string)
    requires AllDigits(digits)
    requires rest == [] || !(IsDigit(rest[0]) || rest[0] == '.')
    ensures NumberEnd(digits + rest) == |digits|
  {
    if digits == [] {
      assert digits + rest == rest;
    } else {
      assert (digits + rest)[1..] == digits[1..] + rest;
      NumberEndsAt(digits[1..], rest);
    }
  }

  lemma {:induction false} DigitsHaveNoPoint(digits: string)
    requires AllDigits(digits)
    ensures CountDots(digits) == 0 && SplitPoint(digits) == (digits, [])
  {
    if digits != [] {
      DigitsHaveNoPoint(digits[1..]);
      assert digits == [digits[0]] + digits[1..];
    }
  }

  lemma WholeParses(n: nat, multiplier: nat)
    requires 1 <= multiplier < U64_RANGE && n * multiplier < U64_RANGE
    ensures ParseScaled(Decimal(n), multiplier) == Ok(n * multiplier)
  {
    DecimalReadsBack(n);
    DigitsHaveNoPoint(Decimal(n));
    LargeWhole(n, multiplier);
  }

  /** A unit name with nothing to trim: it starts and ends with a letter. */
  predicate UnitName(unit: string) {
    unit != [] && 'A' <= unit[0] <= 'Z' && unit[|unit| - 1] == 'B'
  }

  lemma Units()
    ensures UnitName("GiB") && Multiplier("GiB") == Some(GIB)
    ensures UnitName("MiB") && Multiplier("MiB") == Some(MIB)
    ensures UnitName("KiB") && Multiplier("KiB") == Some(KIB)
    ensures UnitName("B") && Multiplier("B") == Some(1)
  {
  }

  lemma ShownTrims(count: nat, unit: string)
    requires UnitName(unit)
    ensures Trim(Shown(count, unit)) == Shown(count, unit) && Trim(" " + unit) == unit
    ensures IsDigit(Shown(count, unit)[0])
  {
    DecimalReadsBack(count);
    var text := Shown(count, unit);
    assert text[0] == Decimal(count)[0];
    assert text[|text| - 1] == unit[|unit| - 1];
    assert (" " + unit)[1..] == unit;
    assert TrimStart(" " + unit) == TrimStart(unit);
  }

  lemma ShownParses(count: nat, unit: string, multiplier: nat)
    requires UnitName(unit) && Multiplier(unit) == Some(multiplier) && 1 <= multiplier && count * multiplier < U64_RANGE
    ensures ParseBytes(Shown(count, unit)) == Ok(count * multiplier)
  {
    var number := Decimal(count);
    var text := Shown(count, unit);
    DecimalReadsBack(count);
    ShownTrims(count, unit);
    NumberEndsAt(number, " " + unit);
    assert text[..|number|] == number && text[|number|..] == " " + unit;
    WholeParses(count, multiplier);
  }

  /** Parsing the printed form of any 64-bit byte count returns it. */
  lemma DisplayReadsBack(n: nat)
    requires n < U64_RANGE
    ensures ParseBytes(Display(n)) == Ok(n)
  {
    Units();
    var display := Display(n);
    if n >= GIB && n % GIB == 0 {
      ShownParses(n / GIB, "GiB", GIB);
    } else if n >= MIB && n % MIB == 0 {
      ShownParses(n / MIB, "MiB", MIB);
    } else if n >= KIB && n % KIB == 0 {
      ShownParses(n / KIB, "KiB", KIB);
    } else {
      ShownParses(n, "B", 1);
    }
  }

  /** Different byte counts print differently. */
  lemma DisplayIsInjective(a: nat, b: nat)
    requires a < U64_RANGE && b < U64_RANGE && Display(a) == Display(b)
    ensures a == b
  {
    DisplayReadsBack(a);
    DisplayReadsBack(b);
  }

  // ---- Which texts are byte counts ----

  /** Bytes, thousands of them, or units of 1024; nothing is shorthand for anything else. */
  lemma UnitsIff(suffix: string, multiplier: nat)
    ensures Multiplier(suffix) == Some(multiplier)
       <==> (suffix, multiplier) in {
              ("", 1), ("B", 1), ("KB", 1_000), ("MB", 1_000_000), ("GB", 1_000_000_000),
              ("KiB", 1_024), ("MiB", 1_048_576), ("GiB", 1_073_741_824)}
  {
  }

  /** The text up to here is its number: digits and points, as many as there are. */
  predicate NumberThrough(text: string, n: nat) {
    && n <= |text| && (forall k: nat :: k < n ==> IsDigit(text[k]) || text[k] == '.')
    && (n < |text| ==> !IsDigit(text[n]) && text[n] != '.')
  }

  lemma {:induction false} NumberEndMeans(text: string)
    ensures forall n: nat :: NumberThrough(text, n) <==> n == NumberEnd(text)
  {
    if text != [] && (IsDigit(text[0]) || text[0] == '.') {
      NumberEndMeans(text[1..]);
      forall n: nat
        ensures n > 0 ==> (NumberThrough(text, n) <==> NumberThrough(text[1..], n - 1))
      {
        if n > 0 && n <= |text| {
          assert forall k: nat :: 0 < k < |text| ==> text[k] == text[1..][k - 1];
          assert forall k: nat :: k < |text| - 1 ==> text[1..][k] == text[k + 1];
        }
      }
    }
  }

  lemma {:induction false} DotsAreCounted(number: string)
    ensures CountDots(number) == multiset(number)['.']
  {
    if number != [] {
      DotsAreCounted(number[1..]);
      HeadTail(number);
    }
  }

  /** A number without a point is all whole part; with one, the parts are what stands on either side of it. */
  lemma {:induction false} SplitMeans(number: string)
    ensures '.' !in number ==> SplitPoint(number) == (number, [])
    ensures '.' in number ==> number == SplitPoint(number).0 + ['.'] + SplitPoint(number).1
    ensures '.' !in SplitPoint(number).0
  {
    if number != [] {
      assert number == [number[0]] + number[1..];
      if number[0] != '.' {
        SplitMeans(number[1..]);
        var rest := SplitPoint(number[1..]);
        assert ([number[0]] + rest.0) + ['.'] + rest.1 == [number[0]] + (rest.0 + ['.'] + rest.1);
      }
    }
  }

  ghost predicate Reads(text: string, n: nat, multiplier: nat, value: nat) {
    && NumberThrough(text, n) && n > 0 && text[0] !in {'-', '+'}
    && Multiplier(Trim(text[n..])) == Some(multiplier)
    && WellFormed(text[..n]) && |SplitPoint(text[..n]).1| <= 9
    && value < U64_RANGE && Scales(text[..n], multiplier, value)
  }

  /**
   * A text is a byte count exactly when, trimmed, it is an unsigned number and a unit, the two make an integer below
   * 2^64, and it is then that integer.
   */
  lemma ParseBytesIff(input: string, value: nat)
    ensures ParseBytes(input) == Ok(value) <==> exists n: nat, m: nat :: Reads(Trim(input), n, m, value)
  {
    var text := Trim(input);
    var n := NumberEnd(text);
    NumberEndMeans(text);
    if n > 0 && Multiplier(Trim(text[n..])).Some? {
      var m := Multiplier(Trim(text[n..])).value;
      ScaledParsingIsExact(text[..n], m, value);
      if ParseBytes(input) == Ok(value) {
        assert Reads(text, n, m, value);
      }
    }
  }
}
