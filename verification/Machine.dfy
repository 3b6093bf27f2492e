/** Fixed-width integers as Rust sees them: ranges, saturating operations and
    division that truncates toward zero. Values are mathematical integers kept
    in range by subset types, so every clamp is written out. */
module Machine {

  const I64_MIN: int := -0x8000_0000_0000_0000
  const I64_MAX: int := 0x7FFF_FFFF_FFFF_FFFF
  const U64_MAX: int := 0xFFFF_FFFF_FFFF_FFFF
  const U32_MAX: int := 0xFFFF_FFFF
  const I128_MIN: int := -0x8000_0000_0000_0000_0000_0000_0000_0000
  const I128_MAX: int := 0x7FFF_FFFF_FFFF_FFFF_FFFF_FFFF_FFFF_FFFF
  const U128_MAX: int := 0xFFFF_FFFF_FFFF_FFFF_FFFF_FFFF_FFFF_FFFF

  type I64 = x: int | I64_MIN <= x <= I64_MAX
  type U64 = x: int | 0 <= x <= U64_MAX
  type U32 = x: int | 0 <= x <= U32_MAX
  type U8 = x: int | 0 <= x <= 255
  type I128 = x: int | I128_MIN <= x <= I128_MAX

  datatype Option<+T> = None | Some(value: T)

  datatype Result<+T, +E> = Ok(value: T) | Err(error: E)

  function Min(a: int, b: int): int { if a <= b then a else b }

  function Max(a: int, b: int): int { if a >= b then a else b }

  function Abs(a: int): nat { if a >= 0 then a else -a }

  function Sign(a: int): int { if a > 0 then 1 else if a < 0 then -1 else 0 }

  predicate FitsI64(v: int) { I64_MIN <= v <= I64_MAX }

  function SatI64(v: int): I64 {
    if v > I64_MAX then I64_MAX else if v < I64_MIN then I64_MIN else v
  }

  function SatU64(v: int): U64 {
    if v > U64_MAX then U64_MAX else if v < 0 then 0 else v
  }

  function SatU8(v: int): U8 {
    if v > 255 then 255 else if v < 0 then 0 else v
  }

  function SatI128(v: int): I128 {
    if v > I128_MAX then I128_MAX else if v < I128_MIN then I128_MIN else v
  }

  function SatU128(v: nat): nat { if v > U128_MAX then U128_MAX else v }

  /** `-v` in an i128: the one value without a counterpart wraps to itself. */
  function NegI128(v: I128): I128 { if v == I128_MIN then v else 0 - v }

  /** Rust's `/`: the quotient is rounded toward zero. */
  function TruncDiv(a: int, b: int): int
    requires b > 0
  {
    if a >= 0 then a / b else -((-a) / b)
  }

  /** The floor quotient is the one multiple that fits below the numerator. */
  lemma DivBounds(a: int, b: int)
    requires b > 0
    ensures b * (a / b) <= a < b * (a / b) + b
  {
  }

  lemma MulMono(a: int, b: int, c: int)
    requires a <= b && 0 <= c
    ensures a * c <= b * c
  {
  }

  lemma AbsMul(a: int, b: int)
    ensures Abs(a * b) == Abs(a) * Abs(b)
  {
    MulMono(0, Abs(a), Abs(b));
    if a < 0 {
      assert a * b == -(Abs(a) * b);
    }
    if b < 0 {
      assert Abs(a) * b == -(Abs(a) * Abs(b));
    }
  }

  lemma MulAbsBound(a: int, b: int, x: nat, y: nat)
    requires Abs(a) <= x && Abs(b) <= y
    ensures Abs(a * b) <= x * y
  {
    MulMono(Abs(a), x, Abs(b));
    MulMono(Abs(b), y, x);
    AbsMul(a, b);
  }

  /** An i64 times a difference of two u64 values always fits an i128, so the
      `saturating_mul` the source applies to such a product never saturates. */
  lemma I64TimesU64FitsI128(a: int, d: int)
    requires I64_MIN <= a <= -I64_MIN && -U64_MAX <= d <= U64_MAX
    ensures SatI128(a * d) == a * d
  {
    MulAbsBound(a, d, -I64_MIN, U64_MAX);
  }

  /** `TruncDiv` loses less than one divisor, always toward zero. */
  lemma TruncDivBounds(a: int, b: int) returns (q: int)
    requires b > 0
    ensures q == TruncDiv(a, b)
    ensures a >= 0 ==> 0 <= q && q * b <= a < q * b + b
    ensures a <= 0 ==> q <= 0 && q * b - b < a <= q * b
  {
    q := TruncDiv(a, b);
    var p := Abs(a) / b;
    FloorBounds(Abs(a), b, p);
    if a < 0 {
      assert q == -p;
      assert q * b == -(p * b);
    }
  }

  lemma FloorBounds(a: nat, b: int, p: int)
    requires b > 0 && p == a / b
    ensures 0 <= p && p * b <= a < p * b + b
  {
    DivBounds(a, b);
    if p < 0 {
      MulMono(p, -1, b);
    }
  }
}
