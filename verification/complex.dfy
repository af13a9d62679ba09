/**
  Complex amplitudes (src/lib/quantum/complex.js).

  A value `{re, im}` with both components exact reals: the model does not
  round as IEEE doubles do.
*/
module Complex {

  datatype Complex = Complex(re: real, im: real)

  /** `create(re, im)`: the value with the given components; an omitted component is 0. */
  function Create(re: real := 0.0, im: real := 0.0): (c: Complex)
    ensures c.re == re && c.im == im
  {
    Complex(re, im)
  }

  const Zero: Complex := Create(0.0, 0.0)
  const One: Complex := Create(1.0, 0.0)
  const I: Complex := Create(0.0, 1.0)

  /** `add(a, b)`: component-wise sum. */
  function Add(a: Complex, b: Complex): (r: Complex)
    ensures b == Zero ==> r == a
    ensures a == Zero ==> r == b
  {
    Complex(a.re + b.re, a.im + b.im)
  }

  /** `multiply(a, b)`: (a.re b.re - a.im b.im) + (a.re b.im + a.im b.re) i. Its laws are the lemmas below. */
  function Multiply(a: Complex, b: Complex): Complex
  {
    Complex(a.re * b.re - a.im * b.im, a.re * b.im + a.im * b.re)
  }

  /** `conjugate(a)`: the mirror image across the real axis. */
  function Conjugate(a: Complex): (r: Complex)
    ensures MagnitudeSq(r) == MagnitudeSq(a)
    ensures Add(a, r) == Create(2.0 * a.re, 0.0)
  {
    Complex(a.re, -a.im)
  }

  /** `magnitudeSq(a)`: re^2 + im^2, the probability weight of an amplitude. */
  function MagnitudeSq(a: Complex): (r: real)
    ensures r >= 0.0
  {
    SquareSign(a.re);
    SquareSign(a.im);
    Square(a.re) + Square(a.im)
  }

  /** x * x, named so that the squared magnitude is a sum of two terms. */
  function Square(x: real): real
  {
    x * x
  }

  /** r > 0, named so that a proof can carry the fact from x * x to Square(x) unchanged. */
  predicate Positive(r: real)
  {
    r > 0.0
  }

  /** `scale(a, s)`: both components times the real s, which is multiplying by s + 0i. */
  function Scale(a: Complex, s: real): (r: Complex)
    ensures r == Multiply(a, Create(s))
  {
    Complex(a.re * s, a.im * s)
  }

  /** Omitted arguments of `create` are 0: `create()` is ZERO and `create(re)` is real. */
  lemma CreateDefaults(re: real)
    ensures Create() == Zero
    ensures Create(re) == Create(re, 0.0) && Create(re).im == 0.0
  {
  }

  /** Reading both components and creating again gives the value back. */
  lemma CreateRoundTrip(a: Complex)
    ensures Create(a.re, a.im) == a
  {
  }

  /** ZERO is the identity of addition, and addition commutes. */
  lemma AddZeroCommutes(a: Complex, b: Complex)
    ensures Add(a, Zero) == a && Add(Zero, a) == a
    ensures Add(a, b) == Add(b, a)
  {
  }

  /** ONE is the identity of multiplication and ZERO absorbs it. */
  lemma MultiplyOneZero(a: Complex)
    ensures Multiply(One, a) == a && Multiply(a, One) == a
    ensures Multiply(Zero, a) == Zero && Multiply(a, Zero) == Zero
  {
  }

  /** i * i == -1. */
  lemma ISquared()
    ensures Multiply(I, I) == Create(-1.0, 0.0)
  {
  }

  /** Multiplication commutes. */
  lemma MultiplyCommutes(a: Complex, b: Complex)
    ensures Multiply(a, b) == Multiply(b, a)
  {
  }

  /** Conjugation is an involution and keeps the squared magnitude. */
  lemma ConjugateInvolution(a: Complex)
    ensures Conjugate(Conjugate(a)) == a
    ensures MagnitudeSq(Conjugate(a)) == MagnitudeSq(a)
  {
  }

  /** The squared magnitude is never negative and is zero exactly at ZERO. */
  lemma MagnitudeSqZero(a: Complex)
    ensures MagnitudeSq(a) >= 0.0
    ensures MagnitudeSq(a) == 0.0 <==> a == Zero
  {
    SquareSign(a.re);
    SquareSign(a.im);
  }

  /** A real square is non-negative, and positive unless the real is zero. */
  lemma SquareSign(x: real)
    ensures Square(x) >= 0.0
    ensures x != 0.0 ==> Positive(Square(x))
  {
    ProductSign(x);
  }

  lemma ProductSign(x: real)
    ensures x * x >= 0.0
    ensures x != 0.0 ==> Positive(x * x)
  {
    if x < 0.0 {
      assert (-x) * (-x) > 0.0;
    }
  }

  /** |a b|^2 == |a|^2 |b|^2. */
  lemma MagnitudeSqMultiply(a: Complex, b: Complex)
    ensures MagnitudeSq(Multiply(a, b)) == MagnitudeSq(a) * MagnitudeSq(b)
  {
    var p, q, r, s := a.re, a.im, b.re, b.im;
    calc {
      MagnitudeSq(Multiply(a, b));
      (p * r - q * s) * (p * r - q * s) + (p * s + q * r) * (p * s + q * r);
      p * p * r * r + q * q * s * s + p * p * s * s + q * q * r * r;
      (p * p + q * q) * (r * r + s * s);
    }
  }
}
