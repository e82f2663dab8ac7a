/** Fixed-width, most-significant-bit-first bit vectors, with Python's integer
    semantics: `bit_length`, `>>` (floor halving, also on negative values) and
    `& 1`. */
module Bits {

  type Bit = b: int | 0 <= b <= 1

  function Pow2(n: nat): (r: nat)
    ensures r >= 1
  {
    if n == 0 then 1 else 2 * Pow2(n - 1)
  }

  /** Python's `int.bit_length()`: the bit count of the magnitude. */
  function BitLength(v: int): (r: nat)
    ensures r == 0 <==> v == 0
    ensures v != 0 ==> Pow2(r - 1) <= (if v < 0 then -v else v) < Pow2(r)
  {
    MagnitudeBits(if v < 0 then -v else v)
  }

  /** The number of binary digits of `n`: the `r` with 2^(r-1) <= n < 2^r. */
  function MagnitudeBits(n: nat): (r: nat)
    ensures r == 0 <==> n == 0
    ensures n != 0 ==> Pow2(r - 1) <= n < Pow2(r)
  {
    if n == 0 then 0 else 1 + MagnitudeBits(n / 2)
  }

  /** Python's `v >> i`: `i` floor halvings (Dafny's `/` by 2 floors). */
  function ShiftRight(v: int, i: nat): int
    decreases i
  {
    if i == 0 then v else ShiftRight(v / 2, i - 1)
  }

  /** Python's `(v >> i) & 1`. */
  function BitAt(v: int, i: nat): Bit
  {
    ShiftRight(v, i) % 2
  }

  /** The `w` lowest bits of `v`, most significant first. */
  function ToBits(v: int, w: nat): (r: seq<Bit>)
    ensures |r| == w
    decreases w
  {
    if w == 0 then [] else ToBits(v / 2, w - 1) + [v % 2]
  }

  /** The weighted sum of an MSB-first bit vector. */
  function FromBits(bits: seq<Bit>): nat
  {
    if bits == [] then 0 else FromBits(bits[..|bits| - 1]) * 2 + bits[|bits| - 1]
  }

  /** A magnitude fits in `w` bits exactly when it is below 2^w. */
  lemma {:induction false} MagnitudeBitsBound(n: nat, w: nat)
    ensures MagnitudeBits(n) <= w <==> n < Pow2(w)
    decreases w
  {
    if n != 0 && w != 0 {
      MagnitudeBitsBound(n / 2, w - 1);
    }
  }

  /** Bit `w-1-i` of the vector is bit `i` of the value (`(v >> i) & 1`). */
  lemma {:induction false} ToBitsAt(v: int, w: nat, i: nat)
    requires i < w
    ensures ToBits(v, w)[w - 1 - i] == BitAt(v, i)
    decreases w
  {
    if i > 0 {
      ToBitsAt(v / 2, w - 1, i - 1);
    }
  }

  lemma EuclidUnique(v: int, d: int, q: int, r: int)
    requires d > 0 && v == d * q + r && 0 <= r < d
    ensures v / d == q && v % d == r
  {
    var q0, r0 := v / d, v % d;
    assert v == d * q0 + r0;
    assert d * (q - q0) == r0 - r;
    if q - q0 >= 1 {
      MultipleAtLeast(d, q - q0);
      assert false;
    } else if q - q0 <= -1 {
      MultipleAtLeast(d, q0 - q);
      assert false;
    }
  }

  lemma MultipleAtLeast(d: int, k: int)
    requires d > 0 && k >= 1
    ensures d * k >= d
  {
  }

  lemma HalveMod(v: int, p: nat)
    requires p >= 1
    ensures (v / 2) % p * 2 + v % 2 == v % (2 * p)
  {
    var h := v / 2;
    assert v == 2 * h + v % 2;
    assert h == p * (h / p) + h % p;
    assert v == (2 * p) * (h / p) + (h % p * 2 + v % 2);
    EuclidUnique(v, 2 * p, h / p, h % p * 2 + v % 2);
  }

  /** Reading the vector back gives the value modulo 2^w (two's complement
      for a negative value). */
  lemma {:induction false} FromToBits(v: int, w: nat)
    ensures FromBits(ToBits(v, w)) == v % Pow2(w)
    decreases w
  {
    if w > 0 {
      var r := ToBits(v, w);
      assert r[..w - 1] == ToBits(v / 2, w - 1);
      FromToBits(v / 2, w - 1);
      HalveMod(v, Pow2(w - 1));
    }
  }

  /** The round trip: a non-negative value that `int2bit_array` accepts is
      reproduced exactly by the MSB-first weighted sum. */
  lemma RoundTrip(v: int, w: nat)
    requires 0 <= v && BitLength(v) <= w
    ensures FromBits(ToBits(v, w)) == v
  {
    MagnitudeBitsBound(v, w);
    FromToBits(v, w);
  }
}
