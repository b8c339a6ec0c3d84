/** The 24-bit to 32-bit sign extension of the HX711 driver, with the
    two's-complement `i32` operations it is written with. */
module Conversion {

  /** Rust's `i32`: every arithmetic result must stay in range. */
  newtype i32 = x: int | -0x8000_0000 <= x < 0x8000_0000

  /** Largest reading the ADC can report, `(1 << 23) - 1`. */
  const MAX_VALUE: i32 := 0x7F_FFFF

  /** Published as the smallest ADC value, but set to `1 << 23`, which is
      positive: the magnitude of the smallest reading, not the reading. */
  const MIN_VALUE: i32 := 0x80_0000

  /** The smallest reading the ADC can report, `-(1 << 23)`. */
  const MIN_READING: i32 := -0x80_0000

  function Pow2(n: nat): (p: nat)
    ensures p >= 1
  {
    if n == 0 then 1 else 2 * Pow2(n - 1)
  }

  lemma {:induction false} Pow2Add(a: nat, b: nat)
    ensures Pow2(a + b) == Pow2(a) * Pow2(b)
  {
    if a > 0 {
      Pow2Add(a - 1, b);
    }
  }

  lemma {:induction false} Pow2Le(m: nat, n: nat)
    requires m <= n
    ensures Pow2(m) <= Pow2(n)
  {
    if m < n {
      Pow2Le(m, n - 1);
    }
  }

  lemma Pow2Values()
    ensures Pow2(4) == 0x10 && Pow2(20) == 0x10_0000
    ensures Pow2(23) == 0x80_0000 && Pow2(24) == 0x100_0000 && Pow2(32) == 0x1_0000_0000
  {
    assert Pow2(8) == 0x100;
    Pow2Add(16, 4);
    Pow2Add(8, 8);
    Pow2Add(16, 7);
    Pow2Add(16, 8);
    Pow2Add(16, 16);
  }

  /** The two's-complement bit pattern of `x`, as an unsigned number. */
  function Unsigned(x: i32): (u: nat)
    ensures u < 0x1_0000_0000
    ensures 0 <= x ==> u == x as int
    ensures x < 0 ==> u == x as int + 0x1_0000_0000
  {
    x as int % 0x1_0000_0000
  }

  /** The `i32` whose bit pattern is `u`. */
  function Signed(u: nat): (x: i32)
    requires u < 0x1_0000_0000
    ensures Unsigned(x) == u
  {
    if u < 0x8000_0000 then u as i32 else (u - 0x1_0000_0000) as i32
  }

  /** Bitwise OR of the low `n` bits of `a` and `b`. */
  function OrBits(a: nat, b: nat, n: nat): (r: nat)
    ensures r < Pow2(n)
  {
    if n == 0 then 0
    else (if a % 2 == 1 || b % 2 == 1 then 1 else 0) + 2 * OrBits(a / 2, b / 2, n - 1)
  }

  /** Rust's `x | y` on `i32`: the bit pattern of the result is the bitwise
      OR of the two bit patterns. */
  function Or(x: i32, y: i32): (r: i32)
    ensures Unsigned(r) == OrBits(Unsigned(x), Unsigned(y), 32)
  {
    Pow2Values();
    Signed(OrBits(Unsigned(x), Unsigned(y), 32))
  }

  /** Rust's `!x` on `i32`: every bit flipped. */
  function Not(x: i32): (r: i32)
    ensures Unsigned(x) + Unsigned(r) == 0xFFFF_FFFF
  {
    (-(x as int) - 1) as i32
  }

  /** Rust's `x << 1` on `i32`: the top bit is shifted out. */
  function ShiftLeft1(x: i32): (r: i32)
    ensures -0x4000_0000 <= x < 0x4000_0000 ==> r as int == 2 * x as int
  {
    Signed(2 * Unsigned(x) % 0x1_0000_0000)
  }

  lemma {:induction false} ModPow2Step(a: nat, k: nat)
    requires k > 0
    ensures a % Pow2(k) == a % 2 + 2 * ((a / 2) % Pow2(k - 1))
  {
    var p := Pow2(k - 1);
    var q, s := (a / 2) / p, (a / 2) % p;
    assert a / 2 == p * q + s;
    assert a == (2 * p) * q + (2 * s + a % 2);
    assert 0 <= 2 * s + a % 2 < 2 * p;
    ModUnique(a, 2 * p, q, 2 * s + a % 2);
  }

  lemma ModUnique(a: int, m: int, q: int, v: int)
    requires m > 0 && a == m * q + v && 0 <= v < m
    ensures a % m == v
  {
    var q', v' := a / m, a % m;
    assert m * (q - q') == v' - v;
    if q > q' {
      MulAtLeast(m, q - q');
    } else if q < q' {
      MulAtLeast(m, q' - q);
    }
  }

  lemma MulAtLeast(m: int, d: int)
    requires m > 0 && d >= 1
    ensures m * d >= m
  {
    assert m * d == m + m * (d - 1);
  }

  /** OR-ing with all `n` low bits set gives all ones. */
  lemma {:induction false} OrAllOnes(a: nat, n: nat)
    ensures OrBits(a, Pow2(n) - 1, n) == Pow2(n) - 1
  {
    if n > 0 {
      assert (Pow2(n) - 1) / 2 == Pow2(n - 1) - 1;
      OrAllOnes(a / 2, n - 1);
    }
  }

  /** OR-ing with a mask whose bits `k .. n - 1` are set keeps the low `k`
      bits of `a` and sets the rest. */
  lemma {:induction false} OrHighMask(a: nat, n: nat, k: nat)
    requires k <= n
    ensures Pow2(k) <= Pow2(n)
    ensures OrBits(a, Pow2(n) - Pow2(k), n) == a % Pow2(k) + Pow2(n) - Pow2(k)
    decreases k, 1
  {
    if k == 0 {
      OrHighMaskBase(a, n);
    } else {
      OrHighMaskStep(a, n, k);
    }
  }

  lemma OrHighMaskBase(a: nat, n: nat)
    ensures Pow2(0) <= Pow2(n)
    ensures OrBits(a, Pow2(n) - Pow2(0), n) == a % Pow2(0) + Pow2(n) - Pow2(0)
  {
    OrAllOnes(a, n);
    Pow2Le(0, n);
  }

  /** The lowest bit on its own, the other `n - 1` bits by `OrHighMask`. */
  lemma {:induction false} OrHighMaskStep(a: nat, n: nat, k: nat)
    requires 0 < k <= n
    ensures Pow2(k) <= Pow2(n)
    ensures OrBits(a, Pow2(n) - Pow2(k), n) == a % Pow2(k) + Pow2(n) - Pow2(k)
    decreases k, 0
  {
    OrHighMask(a / 2, n - 1, k - 1);
    var hi, lo := Pow2(n - 1), Pow2(k - 1);
    var m := Pow2(n) - Pow2(k);
    assert m % 2 == 0 && m / 2 == hi - lo;
    ModPow2Step(a, k);
  }

  /** Widens a 24-bit two's-complement reading to `i32`: bit 23 set means
      negative, and then the eight upper bits are filled with ones. */
  function I24ToI32(x: i32): (r: i32)
    ensures x < 0x80_0000 ==> r == x
    ensures x >= 0x80_0000 ==> r as int == x as int % 0x100_0000 - 0x100_0000
  {
    if x >= 0x80_0000 then
      Pow2Values();
      OrHighMask(x as nat, 32, 24);
      Or(x, Not(0xFF_FFFF))
    else x
  }

  /** The 24-bit two's-complement pattern the ADC shifts out for `v`: the
      inverse direction of `I24ToI32`. */
  function TwosComplement24(v: int): (x: i32)
    requires MIN_READING as int <= v <= MAX_VALUE as int
    ensures 0 <= x < 0x100_0000
    ensures (x < 0x80_0000) == (v >= 0)
  {
    (v % 0x100_0000) as i32
  }

  /** Every 24-bit pattern widens to a reading in `[MIN_READING, MAX_VALUE]`,
      and encoding that reading gives the pattern back. */
  lemma ExtendThenEncode(x: i32)
    requires 0 <= x < 0x100_0000
    ensures MIN_READING <= I24ToI32(x) <= MAX_VALUE
    ensures TwosComplement24(I24ToI32(x) as int) == x
  {
    var r := I24ToI32(x) as int;
    if x >= 0x80_0000 {
      assert r == x as int - 0x100_0000;
      assert r % 0x100_0000 == x as int;
    }
  }

  /** Every reading in `[MIN_READING, MAX_VALUE]` survives encoding to 24 bits
      and widening back. */
  lemma EncodeThenExtend(v: int)
    requires MIN_READING as int <= v <= MAX_VALUE as int
    ensures I24ToI32(TwosComplement24(v)) as int == v
  {
  }

  /** The vectors of the crate's `convert` unit test. */
  lemma ConvertVectors()
    ensures I24ToI32(0x00_0001) == 1
    ensures I24ToI32(0x00_0002) == 2
    ensures I24ToI32(0xFF_FFFF) == -1
    ensures I24ToI32(0xFF_FFF3) == -13
  {
  }

  /** The published `MIN_VALUE` is not a lower bound of the readings: the
      pattern 0x800000 widens to a reading below it. */
  lemma ReadingBelowMinValue()
    ensures I24ToI32(0x80_0000) < MIN_VALUE
  {
  }

  /** `MIN_READING` and `MAX_VALUE` are the readings of 0x800000 and
      0x7FFFFF, so with `ExtendThenEncode` they are the least and the
      greatest reading. */
  lemma ReadingExtremes()
    ensures I24ToI32(0x80_0000) == MIN_READING
    ensures I24ToI32(0x7F_FFFF) == MAX_VALUE
  {
    var low: i32 := 0x80_0000;
    assert I24ToI32(low) as int == low as int % 0x100_0000 - 0x100_0000;
  }
}
