/** Binary addresses: powers of two, `int(log2(n))`, Python's `format(i, '0<w>b')`
    and the bit test `(v >> b) & 1` used by the encoders. */
module Binary {

  function Pow2(k: nat): (r: nat)
    ensures r >= 1
  {
    if k == 0 then 1 else 2 * Pow2(k - 1)
  }

  /** `int(log2(n))` for n >= 1: the exponent of the largest power of two not above n. */
  function FloorLog2(n: nat): (k: nat)
    requires n >= 1
    ensures Pow2(k) <= n < 2 * Pow2(k)
  {
    if n == 1 then 0 else 1 + FloorLog2(n / 2)
  }

  /** A length m whose `log2(m)` is a positive integer: 2, 4, 8, ... */
  predicate PositivePowerOfTwo(m: nat)
  {
    m >= 2 && Pow2(FloorLog2(m)) == m
  }

  /** Python's `(v >> b) & 1 == 1` on an arbitrary-precision integer: `>> b` is b
      flooring halvings and `& 1` is the non-negative remainder modulo 2, which
      Dafny's `/ 2` and `% 2` also give, negative `v` included. */
  predicate BitSet(v: int, b: nat)
    decreases b
  {
    if b == 0 then v % 2 == 1 else BitSet(v / 2, b - 1)
  }

  function DigitChar(d: nat): char
  {
    if d % 2 == 1 then '1' else '0'
  }

  /** The binary digits of `i`, most significant first, left-padded with '0' to at
      least `w` characters (for i == w == 0 this is the empty string). */
  function Digits(i: nat, w: nat): (s: string)
    ensures |s| >= w
    ensures i > 0 || w > 0 ==> |s| >= 1
    decreases i + w
  {
    if i == 0 && w == 0 then ""
    else Digits(i / 2, if w == 0 then 0 else w - 1) + [DigitChar(i % 2)]
  }

  /** Python's `format(i, f'0{w}b')`: the shortest binary numeral of `i`, padded with
      leading '0's to width `w`; never truncated, so it is wider than `w` when
      i >= 2^w, and it is "0" for i == w == 0. */
  function FormatBinary(i: nat, w: nat): (s: string)
    ensures |s| >= w && |s| >= 1
  {
    if i == 0 && w == 0 then "0" else Digits(i, w)
  }

  /** Number of occurrences of `c` among the first `k` characters of `s`. */
  function CountChar(s: string, c: char, k: nat): (n: nat)
    requires k <= |s|
    ensures n <= k
  {
    if k == 0 then 0 else CountChar(s, c, k - 1) + (if s[k - 1] == c then 1 else 0)
  }

  lemma MulAtLeast(a: int, d: int)
    requires a > 0 && d >= 1
    ensures a * d >= a
  {
    if d > 1 {
      MulAtLeast(a, d - 1);
      assert a * d == a * (d - 1) + a;
    }
  }

  lemma DivUnique(i: int, a: int, x: int, y: int)
    requires a > 0 && 0 <= y < a && i == a * x + y
    ensures i / a == x && i % a == y
  {
    var q, r := i / a, i % a;
    assert a * q + r == a * x + y;
    if q > x {
      assert a * (q - x) == a * q - a * x;
      MulAtLeast(a, q - x);
    } else if q < x {
      assert a * (x - q) == a * x - a * q;
      MulAtLeast(a, x - q);
    }
  }

  /** Shifting right by one and then by k is shifting right by k + 1. */
  lemma HalfThenShift(i: int, k: nat)
    ensures (i / 2) / Pow2(k) == i / Pow2(k + 1)
  {
    var m := Pow2(k);
    var q, r := (i / 2) / m, (i / 2) % m;
    assert i / 2 == m * q + r;
    assert i == 2 * m * q + (2 * r + i % 2);
    assert 2 * r + i % 2 < 2 * m;
    DivUnique(i, 2 * m, q, 2 * r + i % 2);
  }

  /** Zero has no bit set. */
  lemma {:induction false} ZeroNoBits(b: nat)
    ensures !BitSet(0, b)
  {
    if b > 0 {
      ZeroNoBits(b - 1);
    }
  }

  /** The bit test is the quotient by 2^b taken modulo 2: `(v >> b) & 1` with the
      shift written as a floor division. */
  lemma {:induction false} BitSetIsShift(v: int, b: nat)
    ensures BitSet(v, b) == ((v / Pow2(b)) % 2 == 1)
    decreases b
  {
    if b > 0 {
      BitSetIsShift(v / 2, b - 1);
      HalfThenShift(v, b - 1);
    }
  }

  lemma {:induction false} DigitsBits(i: nat, w: nat)
    requires i < Pow2(w)
    ensures |Digits(i, w)| == w
    ensures forall q :: 0 <= q < w ==> (Digits(i, w)[q] == '1' <==> BitSet(i, w - 1 - q))
  {
    if w == 0 {
      assert i == 0;
    } else {
      DigitsBits(i / 2, w - 1);
      var s := Digits(i, w);
      assert s == Digits(i / 2, w - 1) + [DigitChar(i % 2)];
      forall q | 0 <= q < w
        ensures s[q] == '1' <==> BitSet(i, w - 1 - q)
      {
      }
    }
  }

  /** For an index that fits in `w >= 1` bits, `format(i, '0<w>b')` has exactly `w`
      characters and character q is bit w-1-q of i: character 0 is the most
      significant bit. */
  lemma FormatBinaryBits(i: nat, w: nat)
    requires w >= 1 && i < Pow2(w)
    ensures |FormatBinary(i, w)| == w
    ensures forall q :: 0 <= q < w ==> (FormatBinary(i, w)[q] == '1' <==> BitSet(i, w - 1 - q))
    ensures forall q :: 0 <= q < w ==> (FormatBinary(i, w)[q] == '0' <==> !BitSet(i, w - 1 - q))
  {
    DigitsBits(i, w);
    forall q | 0 <= q < w
      ensures FormatBinary(i, w)[q] == '0' || FormatBinary(i, w)[q] == '1'
    {
      DigitsAreBinary(i, w, q);
    }
  }

  lemma {:induction false} DigitsAreBinary(i: nat, w: nat, q: nat)
    requires q < |Digits(i, w)|
    ensures Digits(i, w)[q] == '0' || Digits(i, w)[q] == '1'
    decreases i + w
  {
    var rest := Digits(i / 2, if w == 0 then 0 else w - 1);
    if q < |rest| {
      DigitsAreBinary(i / 2, if w == 0 then 0 else w - 1, q);
    }
  }

  /** A value below 2^w is written in exactly w characters. */
  lemma FormatBinaryWidth(i: nat, w: nat)
    requires w >= 1 && i < Pow2(w)
    ensures |FormatBinary(i, w)| == w
  {
    FormatBinaryBits(i, w);
  }

  /** An index that does not fit in `w` bits widens the numeral instead of being cut. */
  lemma FormatBinaryWidens(i: nat, w: nat)
    requires i >= Pow2(w)
    ensures |FormatBinary(i, w)| > w
  {
    DigitsWide(i, w);
  }

  lemma {:induction false} DigitsWide(i: nat, w: nat)
    requires i >= Pow2(w)
    ensures |Digits(i, w)| > w
    decreases w
  {
    if w > 0 {
      DigitsWide(i / 2, w - 1);
    } else {
      assert |Digits(i, 0)| >= 1;
    }
  }

  /** Two numbers below 2^n with the same n low bits are equal. */
  lemma {:induction false} BitsDetermine(i: nat, j: nat, n: nat)
    requires i < Pow2(n) && j < Pow2(n)
    requires forall b :: 0 <= b < n ==> BitSet(i, b) == BitSet(j, b)
    ensures i == j
  {
    if n > 0 {
      forall b | 0 <= b < n - 1
        ensures BitSet(i / 2, b) == BitSet(j / 2, b)
      {
        assert BitSet(i, b + 1) == BitSet(j, b + 1);
      }
      BitsDetermine(i / 2, j / 2, n - 1);
      assert BitSet(i, 0) == BitSet(j, 0);
    }
  }
}
