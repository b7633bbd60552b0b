/** Body sizes in the configuration: `ft_strtod` and `parse_cl_mx_bd_sz` of conf/parserConf.cpp.  Numbers of type
    `double` are reals, and every operation on them rounds by `round`, whatever that is; products with and
    quotients by a unit are powers of two away and exact. */
module ConfigSizes {
  import opened Text
  import Headers
  import ConfigNumbers

  const LLONG_MAX: int := 0x7FFF_FFFF_FFFF_FFFF
  const LLONG_MIN: int := -0x8000_0000_0000_0000

  /** (double)LLONG_MAX is one more than LLONG_MAX. */
  const TWO_TO_63: real := 9223372036854775808.0

  // --------------------------------------------------------------- ft_strtod

  predicate Digit(c: char) { '0' <= c <= '9' }

  function DigitOf(c: char): real
    requires Digit(c)
  {
    (c as int - '0' as int) as real
  }

  function DigitsEnd(s: string, i: nat): (r: nat)
    requires i <= |s|
    ensures i <= r <= |s|
    decreases |s| - i
  {
    if i < |s| && Digit(s[i]) then DigitsEnd(s, i + 1) else i
  }

  function Whole(round: real -> real, s: string, i: nat, acc: real): real
    requires i <= |s|
    decreases |s| - i
  {
    if i < |s| && Digit(s[i]) then Whole(round, s, i + 1, round(round(acc * 10.0) + DigitOf(s[i]))) else acc
  }

  function Quotient(a: real, b: real): real { if b == 0.0 then 0.0 else a / b }

  function Fraction(round: real -> real, s: string, i: nat, acc: real, divisor: real): real
    requires i <= |s|
    decreases |s| - i
  {
    if i < |s| && Digit(s[i])
    then Fraction(round, s, i + 1, round(acc + round(Quotient(DigitOf(s[i]), divisor))), round(divisor * 10.0)) else acc
  }

  /** No number in front, or its value and what stands behind it. */
  datatype Reading = NoNumber | Number(value: real, rest: string)

  function SignEnd(s: string): (r: nat)
    ensures r <= |s|
  {
    if s != "" && (s[0] == '-' || s[0] == '+') then 1 else 0
  }

  function Signed(s: string, x: real): real { if s != "" && s[0] == '-' then -x else x }

  function Strtod(round: real -> real, s: string): Reading
  {
    var a := SignEnd(s);
    var b := DigitsEnd(s, a);
    var whole := Whole(round, s, a, 0.0);
    if b == a then NoNumber
    else if b == |s| || s[b] != '.' then Number(Signed(s, round(whole + 0.0)), s[b..])
    else if DigitsEnd(s, b + 1) == b + 1 then NoNumber
    else Number(Signed(s, round(whole + Fraction(round, s, b + 1, 0.0, 10.0))), s[DigitsEnd(s, b + 1)..])
  }

  method ReadWhole(round: real -> real, s: string, start: nat) returns (whole: real, i: nat)
    requires start <= |s|
    ensures i == DigitsEnd(s, start) && whole == Whole(round, s, start, 0.0)
  {
    whole, i := 0.0, start;
    while i < |s| && '0' <= s[i] <= '9'
      invariant start <= i <= |s| && DigitsEnd(s, i) == DigitsEnd(s, start)
      invariant Whole(round, s, i, whole) == Whole(round, s, start, 0.0)
    {
      whole := round(round(whole * 10.0) + (s[i] as int - '0' as int) as real);
      i := i + 1;
    }
  }

  method ReadFraction(round: real -> real, s: string, start: nat) returns (frac: real, i: nat)
    requires start <= |s|
    ensures i == DigitsEnd(s, start) && frac == Fraction(round, s, start, 0.0, 10.0)
  {
    frac, i := 0.0, start;
    var divisor := 10.0;
    while i < |s| && '0' <= s[i] <= '9'
      invariant start <= i <= |s| && DigitsEnd(s, i) == DigitsEnd(s, start)
      invariant Fraction(round, s, i, frac, divisor) == Fraction(round, s, start, 0.0, 10.0)
    {
      frac := round(frac + round(Quotient((s[i] as int - '0' as int) as real, divisor)));
      divisor := round(divisor * 10.0);
      i := i + 1;
    }
  }

  method FtStrtod(round: real -> real, s: string) returns (r: Reading)
    ensures r == Strtod(round, s)
  {
    var i, sign := 0, 1.0;
    if s != "" && s[0] == '-' {
      sign, i := -1.0, 1;
    } else if s != "" && s[0] == '+' {
      i := 1;
    }
    var start := i;
    var whole, frac := 0.0, 0.0;
    whole, i := ReadWhole(round, s, start);
    var hasDigits, hasFracDigits, dotPresent := i > start, false, false;
    if i < |s| && s[i] == '.' {
      dotPresent := true;
      var behind := i + 1;
      frac, i := ReadFraction(round, s, behind);
      hasFracDigits := i > behind;
    }
    if (dotPresent && !hasDigits) || (dotPresent && !hasFracDigits) || (!hasDigits && !hasFracDigits) { return NoNumber; }
    r := Number(sign * round(whole + frac), s[i..]);
  }

  // ------------------------------------------------------- parse_cl_mx_bd_sz

  function UnitOf(unit: string): Option<int>
  {
    if unit == "" then Some(1)
    else if unit == "K" || unit == "k" then Some(1024)
    else if unit == "M" || unit == "m" then Some(1024 * 1024)
    else if unit == "G" || unit == "g" then Some(1024 * 1024 * 1024)
    else None
  }

  /** `(long long)` of a `double` on x86-64: out of range it is the least number. */
  function ToLong(x: real): int
  {
    if x >= TWO_TO_63 || x < -TWO_TO_63 then LLONG_MIN else if x >= 0.0 then x.Floor else -(-x).Floor
  }

  function SizeFrom(value: real, multiplier: int): int
    requires multiplier > 0
  {
    if value <= 0.0 then -1
    else if multiplier == 1 && value != ToLong(value) as real then -1
    else if value > TWO_TO_63 / multiplier as real then -1
    else ToLong(value * multiplier as real)
  }

  function SizeOf(round: real -> real, token: string): int
  {
    match Strtod(round, token)
    case NoNumber => -1
    case Number(value, unit) => if UnitOf(unit).None? then -1 else SizeFrom(value, UnitOf(unit).value)
  }

  method ReadUnit(unit: string) returns (multiplier: Option<int>)
    ensures multiplier == UnitOf(unit)
  {
    var m := 1;
    if unit != "" {
      if unit == "K" || unit == "k" { m := 1024; }
      else if unit == "M" || unit == "m" { m := 1024 * 1024; }
      else if unit == "G" || unit == "g" { m := 1024 * 1024 * 1024; }
      else { return None; }
    }
    multiplier := Some(m);
  }

  method ParseSize(round: real -> real, token: string) returns (r: int)
    ensures r == SizeOf(round, token)
  {
    if token == "" { return -1; }
    var reading := FtStrtod(round, token);
    if reading.NoNumber? { return -1; }
    var multiplier := ReadUnit(reading.rest);
    if multiplier.None? { return -1; }
    r := Convert(reading.value, multiplier.value);
  }

  method Convert(value: real, multiplier: int) returns (r: int)
    requires multiplier > 0
    ensures r == SizeFrom(value, multiplier)
  {
    if value <= 0.0 { return -1; }
    if multiplier == 1 && value != ToLong(value) as real { return -1; }
    if value > TWO_TO_63 / multiplier as real { return -1; }
    r := ToLong(value * multiplier as real);
  }

  // ------------------------------------------------------------ what it promises

  /** The value times the unit is 2^63, one more than the greatest `long long`, and there is a unit. */
  predicate Overflows(round: real -> real, token: string)
  {
    match Strtod(round, token)
    case NoNumber => false
    case Number(value, unit) => UnitOf(unit).Some? && UnitOf(unit).value > 1 && value * UnitOf(unit).value as real == TWO_TO_63
  }

  lemma SizeFromIs(value: real, multiplier: int)
    requires multiplier > 0
    ensures var n := SizeFrom(value, multiplier);
            if value > 0.0 && value * multiplier as real == TWO_TO_63 && multiplier > 1 then n == LLONG_MIN else -1 <= n <= LLONG_MAX
  {
    var m := multiplier as real;
    assert value > TWO_TO_63 / m <==> value * m > TWO_TO_63;
  }

  /** A size is -1 or within the range of its type, except that it is the least `long long` if and only if the
      value times the unit is 2^63. */
  lemma SizeOverflowsIff(round: real -> real, token: string)
    ensures SizeOf(round, token) == LLONG_MIN <==> Overflows(round, token)
    ensures !Overflows(round, token) ==> -1 <= SizeOf(round, token) <= LLONG_MAX
  {
    match Strtod(round, token)
    case NoNumber =>
    case Number(value, unit) => if UnitOf(unit).Some? { SizeFromIs(value, UnitOf(unit).value); }
  }

  /** Integers of up to 53 bits are not rounded. */
  ghost predicate KeepsIntegers(round: real -> real)
  {
    forall x: real :: 0.0 <= x <= 9007199254740992.0 && x == x.Floor as real ==> round(x) == x
  }

  lemma StepIsExact(round: real -> real, v: nat, d: nat)
    requires KeepsIntegers(round) && v * 10 + d <= 0x20_0000_0000_0000
    ensures round(round(v as real * 10.0) + d as real) == (v * 10 + d) as real
  {
    var x, y := (v * 10) as real, (v * 10 + d) as real;
    assert v as real * 10.0 == x && x + d as real == y;
    assert x == x.Floor as real && y == y.Floor as real;
  }

  function Value(digits: string, i: nat): real
    requires i <= |digits|
  {
    Headers.DecimalValue(digits[..i]) as real
  }

  /** Digits in front of something else, within 53 bits. */
  predicate Short(digits: string, unit: string)
  {
    Headers.Decimal(digits) && Headers.DecimalValue(digits) <= 0x20_0000_0000_0000 && (unit != "" ==> !Digit(unit[0]))
  }

  lemma DigitIsExact(round: real -> real, digits: string, unit: string, i: nat)
    requires KeepsIntegers(round) && Short(digits, unit) && i < |digits|
    ensures var s := digits + unit;
            Digit(s[i]) && round(round(Value(digits, i) * 10.0) + DigitOf(s[i])) == Value(digits, i + 1)
  {
    assert digits[..i + 1][..i] == digits[..i] && digits[..|digits|] == digits;
    Headers.DecimalGrows(digits, i + 1, |digits|);
    StepIsExact(round, Headers.DecimalValue(digits[..i]), digits[i] as int - '0' as int);
  }

  lemma OneDigitOn(round: real -> real, digits: string, unit: string, i: nat)
    requires KeepsIntegers(round) && Short(digits, unit) && i < |digits|
    ensures var s := digits + unit;
            && DigitsEnd(s, i) == DigitsEnd(s, i + 1)
            && Whole(round, s, i, Value(digits, i)) == Whole(round, s, i + 1, Value(digits, i + 1))
  {
    DigitIsExact(round, digits, unit, i);
  }

  lemma {:induction false} WholeIs(round: real -> real, digits: string, unit: string, i: nat)
    requires KeepsIntegers(round) && Short(digits, unit) && i <= |digits|
    ensures DigitsEnd(digits + unit, i) == |digits|
    ensures Whole(round, digits + unit, i, Value(digits, i)) == Value(digits, |digits|)
    decreases |digits| - i
  {
    if i < |digits| {
      OneDigitOn(round, digits, unit, i);
      WholeIs(round, digits, unit, i + 1);
    }
  }

  /** Digits and a unit are read as they are written, up to 2^63 where they become the least number. */
  lemma WrittenSizeIs(round: real -> real, digits: string, unit: string)
    requires KeepsIntegers(round) && digits != "" && Headers.Decimal(digits) && Headers.DecimalValue(digits) <= 0x20_0000_0000_0000
    requires UnitOf(unit).Some?
    ensures var n := Headers.DecimalValue(digits) * UnitOf(unit).value;
            SizeOf(round, digits + unit) == if n == 0 || n > LLONG_MAX + 1 then -1 else if n == LLONG_MAX + 1 then LLONG_MIN else n
  {
    var s, v, m := digits + unit, Headers.DecimalValue(digits), UnitOf(unit).value;
    WholeIs(round, digits, unit, 0);
    assert digits[..0] == "" && digits[..|digits|] == digits && s[0] == digits[0] && s[|digits|..] == unit;
    assert Strtod(round, s) == Number(v as real, unit);
    NumberIs(v, m);
  }

  lemma NumberIs(v: nat, m: int)
    requires v <= 0x20_0000_0000_0000 && (m == 1 || m == 1024 || m == 1024 * 1024 || m == 1024 * 1024 * 1024)
    ensures SizeFrom(v as real, m) ==
            if v * m == 0 || v * m > LLONG_MAX + 1 then -1 else if v * m == LLONG_MAX + 1 then LLONG_MIN else v * m
  {
    assert (v as real) * (m as real) == (v * m) as real;
  }

  /** A size that overflows: 8589934592G is taken for the least `long long`. */
  lemma HugeSizeIsNegative(round: real -> real, token: string)
    requires KeepsIntegers(round)
    requires token == "" + ['8'] + ['5'] + ['8'] + ['9'] + ['9'] + ['3'] + ['4'] + ['5'] + ['9'] + ['2'] + ['G']
    ensures SizeOf(round, token) == LLONG_MIN
  {
    var s := "" + ['8'] + ['5'] + ['8'] + ['9'] + ['9'];
    EightyFive(s);
    NextFive(s);
    GigabytesOverflow(round, s + ['3'] + ['4'] + ['5'] + ['9'] + ['2']);
    assert "G" == ['G'];
  }

  lemma NextFive(s: string)
    requires Headers.Decimal(s) && Headers.DecimalValue(s) == 85899
    ensures var t := s + ['3'] + ['4'] + ['5'] + ['9'] + ['2']; Headers.Decimal(t) && Headers.DecimalValue(t) == 8589934592
  {
    ConfigNumbers.OneMoreDigit(s, '3', 85899);
    ConfigNumbers.OneMoreDigit(s + ['3'], '4', 858993);
    var t := s + ['3'] + ['4'];
    ConfigNumbers.OneMoreDigit(t, '5', 8589934);
    ConfigNumbers.OneMoreDigit(t + ['5'], '9', 85899345);
    ConfigNumbers.OneMoreDigit(t + ['5'] + ['9'], '2', 858993459);
  }

  lemma GigabytesOverflow(round: real -> real, digits: string)
    requires KeepsIntegers(round) && digits != "" && Headers.Decimal(digits) && Headers.DecimalValue(digits) == 8589934592
    ensures SizeOf(round, digits + "G") == LLONG_MIN
  {
    WrittenSizeIs(round, digits, "G");
  }

  lemma EightyFive(s: string)
    requires s == "" + ['8'] + ['5'] + ['8'] + ['9'] + ['9']
    ensures Headers.Decimal(s) && Headers.DecimalValue(s) == 85899
  {
    ConfigNumbers.OneMoreDigit("", '8', 0);
    ConfigNumbers.OneMoreDigit("" + ['8'], '5', 8);
    ConfigNumbers.OneMoreDigit("" + ['8'] + ['5'], '8', 85);
    ConfigNumbers.OneMoreDigit("" + ['8'] + ['5'] + ['8'], '9', 858);
    ConfigNumbers.OneMoreDigit("" + ['8'] + ['5'] + ['8'] + ['9'], '9', 8589);
  }

  // -------------------------------------------------- units, signs, fractions

  const LARGE := "KMG"
  const SMALL := "kmg"

  function PowerOf1024(n: nat): int { if n == 0 then 1 else 1024 * PowerOf1024(n - 1) }

  /** Units are powers of 1024, in either case. */
  lemma UnitIsPlace(k: nat)
    requires k < 3
    ensures UnitOf([LARGE[k]]) == Some(PowerOf1024(k + 1)) && UnitOf([SMALL[k]]) == Some(PowerOf1024(k + 1))
  {
    assert PowerOf1024(1) == 1024 && PowerOf1024(2) == 1024 * 1024 && PowerOf1024(3) == 1024 * 1024 * 1024;
    assert [LARGE[k]] == (if k == 0 then "K" else if k == 1 then "M" else "G");
    assert [SMALL[k]] == (if k == 0 then "k" else if k == 1 then "m" else "g");
  }

  /** There are no others. */
  lemma OnlyTheseAreUnits(unit: string)
    requires UnitOf(unit).Some?
    ensures unit == "" || exists k: nat :: k < 3 && (unit == [LARGE[k]] || unit == [SMALL[k]])
  {
    assert "K" == [LARGE[0]] && "M" == [LARGE[1]] && "G" == [LARGE[2]] && "k" == [SMALL[0]] && "m" == [SMALL[1]] && "g" == [SMALL[2]];
  }

  lemma {:induction false} DigitsEndBehind(c: char, s: string, i: nat)
    requires i <= |s|
    ensures DigitsEnd([c] + s, i + 1) == DigitsEnd(s, i) + 1
    decreases |s| - i
  {
    if i < |s| && Digit(s[i]) { DigitsEndBehind(c, s, i + 1); }
  }

  lemma {:induction false} WholeBehind(round: real -> real, c: char, s: string, i: nat, acc: real)
    requires i <= |s|
    ensures Whole(round, [c] + s, i + 1, acc) == Whole(round, s, i, acc)
    decreases |s| - i
  {
    if i < |s| && Digit(s[i]) { WholeBehind(round, c, s, i + 1, round(round(acc * 10.0) + DigitOf(s[i]))); }
  }

  lemma {:induction false} FractionBehind(round: real -> real, c: char, s: string, i: nat, acc: real, divisor: real)
    requires i <= |s|
    ensures Fraction(round, [c] + s, i + 1, acc, divisor) == Fraction(round, s, i, acc, divisor)
    decreases |s| - i
  {
    if i < |s| && Digit(s[i]) {
      FractionBehind(round, c, s, i + 1, round(acc + round(Quotient(DigitOf(s[i]), divisor))), round(divisor * 10.0));
    }
  }

  function Negated(r: Reading): Reading { if r.NoNumber? then NoNumber else Number(-r.value, r.rest) }

  /** A sign in front of a digit: plus changes nothing, minus negates. */
  lemma SignIsRead(round: real -> real, s: string)
    requires s != "" && Digit(s[0])
    ensures Strtod(round, "+" + s) == Strtod(round, s) && Strtod(round, "-" + s) == Negated(Strtod(round, s))
  {
    SignBehind(round, '+', s);
    SignBehind(round, '-', s);
    assert "+" == ['+'] && "-" == ['-'];
  }

  /** The parts of a reading that starts behind a sign. */
  lemma PartsBehind(round: real -> real, c: char, s: string)
    requires s != "" && Digit(s[0])
    ensures var t, b := [c] + s, DigitsEnd(s, 0);
            && b > 0 && DigitsEnd(t, 1) == b + 1 && Whole(round, t, 1, 0.0) == Whole(round, s, 0, 0.0) && t[b + 1..] == s[b..]
            && (b < |s| ==> t[b + 1] == s[b])
  {
    DigitsEndBehind(c, s, 0);
    WholeBehind(round, c, s, 0, 0.0);
  }

  lemma PointBehind(round: real -> real, c: char, s: string, b: nat)
    requires b < |s|
    ensures var t := [c] + s;
            && DigitsEnd(t, b + 2) == DigitsEnd(s, b + 1) + 1 && Fraction(round, t, b + 2, 0.0, 10.0) == Fraction(round, s, b + 1, 0.0, 10.0)
            && t[DigitsEnd(s, b + 1) + 1..] == s[DigitsEnd(s, b + 1)..]
  {
    DigitsEndBehind(c, s, b + 1);
    FractionBehind(round, c, s, b + 1, 0.0, 10.0);
  }

  lemma SignBeforeWhole(round: real -> real, c: char, s: string)
    requires s != "" && Digit(s[0]) && (c == '+' || c == '-')
    requires var b := DigitsEnd(s, 0); b == |s| || s[b] != '.'
    ensures Strtod(round, [c] + s) == if c == '-' then Negated(Strtod(round, s)) else Strtod(round, s)
  {
    PartsBehind(round, c, s);
  }

  lemma SignBeforePoint(round: real -> real, c: char, s: string, b: nat)
    requires s != "" && Digit(s[0]) && (c == '+' || c == '-') && b == DigitsEnd(s, 0) && b < |s| && s[b] == '.'
    ensures Strtod(round, [c] + s) == if c == '-' then Negated(Strtod(round, s)) else Strtod(round, s)
  {
    PartsBehind(round, c, s);
    PointBehind(round, c, s, b);
  }

  lemma SignBehind(round: real -> real, c: char, s: string)
    requires s != "" && Digit(s[0]) && (c == '+' || c == '-')
    ensures Strtod(round, [c] + s) == if c == '-' then Negated(Strtod(round, s)) else Strtod(round, s)
  {
    var b := DigitsEnd(s, 0);
    if b < |s| && s[b] == '.' { SignBeforePoint(round, c, s, b); } else { SignBeforeWhole(round, c, s); }
  }

  function Unrounded(x: real): real { x }

  /** What digits behind the point are worth. */
  function BehindThePoint(digits: string): real
    requires Headers.Decimal(digits)
  {
    if digits == "" then 0.0 else (DigitOf(digits[0]) + BehindThePoint(digits[1..])) / 10.0
  }

  lemma Shares(acc: real, digit: real, rest: real, divisor: real)
    requires divisor > 0.0
    ensures acc + digit / divisor + rest * 10.0 / (divisor * 10.0) == acc + (digit + rest) / 10.0 * 10.0 / divisor
  {
    assert rest * 10.0 / (divisor * 10.0) == rest / divisor;
  }

  /** What is added to `acc` by digits that stand where `divisor` says. */
  predicate Adds(all: real, acc: real, digits: real, divisor: real)
    requires divisor > 0.0
  {
    all == acc + digits * 10.0 / divisor
  }

  lemma AddsBehindThePoint(all: real, digits: real)
    requires Adds(all, 0.0, digits, 10.0)
    ensures all == digits
  {
  }

  /** Without rounding a fraction is exact. */
  lemma {:induction false} FractionIs(s: string, i: nat, digits: string, rest: string, acc: real, divisor: real)
    requires i <= |s| && s[i..] == digits + rest && Headers.Decimal(digits) && (rest != "" ==> !Digit(rest[0])) && divisor > 0.0
    ensures DigitsEnd(s, i) == i + |digits|
    ensures Adds(Fraction(Unrounded, s, i, acc, divisor), acc, BehindThePoint(digits), divisor)
    decreases |digits|
  {
    if digits == "" {
      assert s[i..] == rest && (rest != "" ==> s[i] == rest[0]);
      assert 0.0 * 10.0 / divisor == 0.0;
    } else {
      var d := DigitOf(digits[0]);
      assert s[i] == s[i..][0] == digits[0] && s[i + 1..] == digits[1..] + rest;
      FractionIs(s, i + 1, digits[1..], rest, acc + d / divisor, divisor * 10.0);
      Shares(acc, d, BehindThePoint(digits[1..]), divisor);
    }
  }

  lemma PointIsRead(round: real -> real, s: string, b: nat, e: nat)
    requires s != "" && Digit(s[0]) && DigitsEnd(s, 0) == b < |s| && s[b] == '.' && DigitsEnd(s, b + 1) == e && e > b + 1
    ensures Strtod(round, s) == Number(round(Whole(round, s, 0, 0.0) + Fraction(round, s, b + 1, 0.0, 10.0)), s[e..])
  {
    assert DigitsEnd(s, 0) > 0;
  }

  lemma Cuts(digits: string, fraction: string, rest: string)
    ensures var s, b := digits + ("." + (fraction + rest)), |digits|;
            b < |s| && s[b] == '.' && s[b + 1..] == fraction + rest && s[b + 1 + |fraction|..] == rest
  {
  }

  lemma WholePartIs(digits: string, more: string)
    requires Short(digits, more)
    ensures DigitsEnd(digits + more, 0) == |digits| && Whole(Unrounded, digits + more, 0, 0.0) == Headers.DecimalValue(digits) as real
  {
    assert digits[..0] == "" && digits[..|digits|] == digits;
    WholeIs(Unrounded, digits, more, 0);
  }

  lemma FractionPartIs(s: string, i: nat, fraction: string, rest: string)
    requires i <= |s| && s[i..] == fraction + rest && Headers.Decimal(fraction) && (rest != "" ==> !Digit(rest[0]))
    ensures DigitsEnd(s, i) == i + |fraction| && Fraction(Unrounded, s, i, 0.0, 10.0) == BehindThePoint(fraction)
  {
    FractionIs(s, i, fraction, rest, 0.0, 10.0);
    AddsBehindThePoint(Fraction(Unrounded, s, i, 0.0, 10.0), BehindThePoint(fraction));
  }

  lemma BothParts(s: string, b: nat, e: nat, whole: real, fraction: real, rest: string)
    requires s != "" && Digit(s[0]) && DigitsEnd(s, 0) == b < |s| && s[b] == '.' && DigitsEnd(s, b + 1) == e && e > b + 1
    requires Whole(Unrounded, s, 0, 0.0) == whole && Fraction(Unrounded, s, b + 1, 0.0, 10.0) == fraction && s[e..] == rest
    ensures Strtod(Unrounded, s) == Number(whole + fraction, rest)
  {
    PointIsRead(Unrounded, s, b, e);
  }

  /** Digits, a point and digits are read as they are written. */
  lemma WrittenFractionIs(digits: string, fraction: string, rest: string)
    requires digits != "" && Headers.Decimal(digits) && Headers.DecimalValue(digits) <= 0x20_0000_0000_0000
    requires fraction != "" && Headers.Decimal(fraction) && (rest != "" ==> !Digit(rest[0]))
    ensures Strtod(Unrounded, digits + ("." + (fraction + rest))) == Number(Headers.DecimalValue(digits) as real + BehindThePoint(fraction), rest)
  {
    var s, b := digits + ("." + (fraction + rest)), |digits|;
    WholePartIs(digits, "." + (fraction + rest));
    Cuts(digits, fraction, rest);
    assert s[0] == digits[0];
    FractionPartIs(s, b + 1, fraction, rest);
    BothParts(s, b, b + 1 + |fraction|, Headers.DecimalValue(digits) as real, BehindThePoint(fraction), rest);
  }
}
