/** The C library's view of the numbers in a duration: texts of digits, points and commas. */
module DurationNumbers {
  import opened Decimals
  import opened Text
  import opened Words

  const TWO31: int := 0x8000_0000
  const TWO32: int := 0x1_0000_0000
  const TWO63: int := 0x8000_0000_0000_0000

  predicate IsNumeric(c: char) {
    IsDigit(c) || c == '.' || c == ','
  }

  predicate Numeric(t: string) {
    forall i :: 0 <= i < |t| ==> IsNumeric(t[i])
  }

  predicate Plain(t: string) {
    t != [] && forall i :: 0 <= i < |t| ==> IsDigit(t[i])
  }

  /** The digits a text starts with. */
  function Leading(t: string): (r: string)
    ensures r <= t && forall i :: 0 <= i < |r| ==> IsDigit(r[i])
    ensures |r| < |t| ==> !IsDigit(t[|r|])
  {
    if t == [] || !IsDigit(t[0]) then [] else [t[0]] + Leading(t[1..])
  }

  function TenTo(n: nat): (r: nat)
    ensures r > 0
  {
    if n == 0 then 1 else 10 * TenTo(n - 1)
  }

  /** Reduction to a 32-bit int, as by a conversion from long. */
  function ToInt32(v: int): (r: int)
    ensures -TWO31 <= r < TWO31
  {
    (v + TWO31) % TWO32 - TWO31
  }

  /** 64-bit two's complement. */
  function Wrap64(v: int): (r: int)
    ensures -TWO63 <= r < TWO63
  {
    (v + TWO63) % TWO64 - TWO63
  }

  lemma WrapWrap(a: int, b: int)
    ensures Wrap64(Wrap64(a) + b) == Wrap64(a + b)
  {
    var q := (a + TWO63) / TWO64;
    assert Wrap64(a) + b + TWO63 == (a + b + TWO63) + TWO64 * (-q);
    ModShift(a + b + TWO63, -q);
  }

  /** atoi of the GNU library: strtol, which stops at the largest long, cut down to an int. */
  function Atoi(t: string): int {
    var v := Decimal(Leading(t));
    ToInt32(if v >= TWO63 then TWO63 - 1 else v)
  }

  /** atof: digits, and a fraction after a point. */
  function Atof(t: string): (r: real)
    ensures r >= 0.0
  {
    var whole := Leading(t);
    var rest := t[|whole|..];
    var fraction := if rest != [] && rest[0] == '.' then Leading(rest[1..]) else [];
    Decimal(whole) as real + Decimal(fraction) as real / TenTo(|fraction|) as real
  }

  /** round() and the conversion to int; what does not fit becomes INT_MIN, as on x86-64. */
  function RoundToInt(x: real): (r: int)
    ensures -TWO31 <= r < TWO31
  {
    var n := if x >= 0.0 then (x + 0.5).Floor else -(0.5 - x).Floor;
    if -TWO31 <= n < TWO31 then n else -TWO31
  }

  /** `narrow` is the conversion to float; it is exact on the integers a float can hold. */
  ghost predicate ExactOnSmall(narrow: real -> real) {
    forall x: real :: 0.0 <= x <= 16777216.0 && x.Floor as real == x ==> narrow(x) == x
  }

  function Seconds(t: string, narrow: real -> real): int {
    RoundToInt(narrow(Atof(t)))
  }

  lemma PlainLeading(t: string)
    requires forall i :: 0 <= i < |t| ==> IsDigit(t[i])
    ensures Leading(t) == t
  {
  }

  lemma PlainAtoi(t: string)
    requires Plain(t) && Decimal(t) < TWO31
    ensures Atoi(t) == Decimal(t)
  {
    PlainLeading(t);
  }

  lemma PlainSeconds(t: string, narrow: real -> real)
    requires Plain(t) && Decimal(t) <= 0x100_0000 && ExactOnSmall(narrow)
    ensures Seconds(t, narrow) == Decimal(t)
  {
    PlainLeading(t);
    assert t[|t|..] == [];
    assert Atof(t) == Decimal(t) as real;
    assert (Decimal(t) as real + 0.5).Floor == Decimal(t);
  }

  /** A number that is zero starts with a zero digit. */
  lemma {:induction false} ZeroStartsWithZero(t: string)
    requires Plain(t) && Decimal(t) == 0
    ensures t[0] == '0'
  {
    if |t| > 1 {
      ZeroStartsWithZero(t[..|t| - 1]);
    } else {
      assert t[..0] == [];
    }
  }
}
