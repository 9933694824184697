/** Vector normalisation by the Euclidean norm (`v / np.linalg.norm(v)`).

    Square roots are not computed: a norm is passed in as a parameter together with
    the fact that characterises it, `IsNorm(n, v)`: n >= 0 and n * n is the sum of
    the squares of v. Division by a zero norm yields NaN entries, as in NumPy. */
module Numerics {

  datatype Scalar = Finite(value: real) | NaN

  function Id(x: real): real
  {
    x
  }

  /** The square of x, written as a product of two distinct terms: the solver's
      arithmetic handles products of distinct terms more predictably than x * x. */
  function Sq(x: real): real
  {
    x * Id(x)
  }

  function SumSq(v: seq<real>): (r: real)
    ensures r >= 0.0
  {
    if |v| == 0 then 0.0
    else
      SqNonnegative(v[0]);
      Sq(v[0]) + SumSq(v[1..])
  }

  predicate IsNorm(n: real, v: seq<real>)
  {
    n >= 0.0 && Sq(n) == SumSq(v)
  }

  predicate AllZero(v: seq<real>)
  {
    forall i :: 0 <= i < |v| ==> v[i] == 0.0
  }

  /** Every entry divided by the same non-zero divisor, order kept. */
  function Scale(v: seq<real>, n: real): (r: seq<real>)
    requires n != 0.0
    ensures |r| == |v|
  {
    seq(|v|, i requires 0 <= i < |v| => v[i] / n)
  }

  /** `v / np.linalg.norm(v)`: each entry over the norm; with a zero norm every
      entry is 0 / 0, which NumPy evaluates to NaN. */
  function Normalise(v: seq<real>, n: real): (r: seq<Scalar>)
    requires IsNorm(n, v)
    ensures |r| == |v|
  {
    if n == 0.0 then seq(|v|, _ => NaN)
    else seq(|v|, i requires 0 <= i < |v| => Finite(v[i] / n))
  }

  function Values(s: seq<Scalar>): (r: seq<real>)
    requires forall i :: 0 <= i < |s| ==> s[i].Finite?
    ensures |r| == |s|
  {
    seq(|s|, i requires 0 <= i < |s| => s[i].value)
  }

  lemma {:induction false} SumSqAppend(a: seq<real>, b: seq<real>)
    ensures SumSq(a + b) == SumSq(a) + SumSq(b)
  {
    if |a| == 0 {
      assert a + b == b;
    } else {
      assert (a + b)[1..] == a[1..] + b;
      SumSqAppend(a[1..], b);
    }
  }

  /** The sum of squares vanishes exactly on the all-zero vector. */
  lemma {:induction false} SumSqZero(v: seq<real>)
    ensures SumSq(v) == 0.0 <==> AllZero(v)
  {
    if |v| > 0 {
      SumSqZero(v[1..]);
      if v[0] != 0.0 {
        SqPositive(v[0]);
      } else {
        assert AllZero(v) <==> AllZero(v[1..]) by {
          if AllZero(v[1..]) {
            forall i | 0 <= i < |v| ensures v[i] == 0.0 {
              if i > 0 { assert v[i] == v[1..][i - 1]; }
            }
          }
        }
      }
    }
  }

  /** A norm is zero exactly when every entry is zero: the only case in which the
      source's division produces NaN. */
  lemma NormZeroIffAllZero(n: real, v: seq<real>)
    requires IsNorm(n, v)
    ensures n == 0.0 <==> AllZero(v)
  {
    SumSqZero(v);
    if n != 0.0 {
      SqPositive(n);
    }
  }

  lemma MulPositive(a: real, b: real)
    requires a > 0.0 && b > 0.0
    ensures a * b > 0.0
  {
  }

  lemma MulNegative(a: real, b: real)
    requires a < 0.0 && b < 0.0
    ensures a * b > 0.0
  {
  }

  lemma SqPositive(x: real)
    requires x != 0.0
    ensures Sq(x) > 0.0
  {
    if x > 0.0 {
      MulPositive(x, Id(x));
    } else {
      MulNegative(x, Id(x));
    }
  }

  lemma SqNonnegative(x: real)
    ensures Sq(x) >= 0.0
  {
    if x > 0.0 {
      MulPositive(x, Id(x));
    } else if x < 0.0 {
      MulNegative(x, Id(x));
    }
  }

  lemma SqQuotient(x: real, n: real)
    requires n != 0.0
    ensures Sq(x / n) * Sq(n) == Sq(x)
  {
  }

  lemma Distribute(a: real, b: real, m: real)
    ensures (a + b) * m == a * m + b * m
  {
  }

  lemma Cancel(s: real, t: real, m: real)
    requires m > 0.0 && s * m == t * m
    ensures s == t
  {
  }

  lemma {:induction false} ScaleSumSq(v: seq<real>, n: real)
    requires n != 0.0
    ensures SumSq(Scale(v, n)) * Sq(n) == SumSq(v)
  {
    var w := Scale(v, n);
    if |v| > 0 {
      ScaleSumSq(v[1..], n);
      assert w[1..] == Scale(v[1..], n);
      SqQuotient(v[0], n);
      Distribute(Sq(w[0]), SumSq(w[1..]), Sq(n));
    }
  }

  /** Dividing a non-zero vector by its norm gives a unit vector. */
  lemma ScaleByNormIsUnit(v: seq<real>, n: real)
    requires IsNorm(n, v) && n != 0.0
    ensures SumSq(Scale(v, n)) == 1.0
  {
    ScaleSumSq(v, n);
    SqPositive(n);
    Cancel(SumSq(Scale(v, n)), 1.0, Sq(n));
  }

  /** `Normalise` is entry-wise division by the norm, and the result has squared
      magnitudes summing to 1 whenever some entry is non-zero; on the zero vector
      every entry is NaN. */
  lemma NormaliseMeaning(v: seq<real>, n: real)
    requires IsNorm(n, v)
    ensures n == 0.0 <==> AllZero(v)
    ensures n != 0.0 ==> (forall i :: 0 <= i < |v| ==> Normalise(v, n)[i] == Finite(v[i] / n))
    ensures n != 0.0 ==> Values(Normalise(v, n)) == Scale(v, n) && SumSq(Scale(v, n)) == 1.0
    ensures AllZero(v) ==> forall i :: 0 <= i < |v| ==> Normalise(v, n)[i].NaN?
  {
    NormZeroIffAllZero(n, v);
    if !AllZero(v) {
      ScaleByNormIsUnit(v, n);
    }
  }
}
