/**
 Complex numbers as pairs of exact reals, and finite sums of them.

 The transform in `dsp/fft.cpp` works on `std::complex<float>`; rounding is not
 modelled, so every law below is an exact identity.
 */
module ComplexNumbers {

  datatype Complex = Complex(re: real, im: real)

  const ZERO := Complex(0.0, 0.0)
  const ONE := Complex(1.0, 0.0)

  function Add(a: Complex, b: Complex): Complex {
    Complex(a.re + b.re, a.im + b.im)
  }

  function Sub(a: Complex, b: Complex): Complex {
    Complex(a.re - b.re, a.im - b.im)
  }

  function Neg(a: Complex): Complex {
    Complex(-a.re, -a.im)
  }

  function Mul(a: Complex, b: Complex): Complex {
    Complex(a.re * b.re - a.im * b.im, a.re * b.im + a.im * b.re)
  }

  function Conj(a: Complex): Complex {
    Complex(a.re, -a.im)
  }

  function FromReal(x: real): Complex {
    Complex(x, 0.0)
  }

  // ----- ring laws

  lemma MulCommutes(a: Complex, b: Complex)
    ensures Mul(a, b) == Mul(b, a)
  {
  }

  lemma MulAssociates(a: Complex, b: Complex, c: Complex)
    ensures Mul(Mul(a, b), c) == Mul(a, Mul(b, c))
  {
    assert (a.re * b.re - a.im * b.im) * c.re - (a.re * b.im + a.im * b.re) * c.im
        == a.re * (b.re * c.re - b.im * c.im) - a.im * (b.re * c.im + b.im * c.re);
    assert (a.re * b.re - a.im * b.im) * c.im + (a.re * b.im + a.im * b.re) * c.re
        == a.re * (b.re * c.im + b.im * c.re) + a.im * (b.re * c.re - b.im * c.im);
  }

  lemma MulDistributes(a: Complex, b: Complex, c: Complex)
    ensures Mul(Add(a, b), c) == Add(Mul(a, c), Mul(b, c))
  {
  }

  lemma AddCommutes(a: Complex, b: Complex)
    ensures Add(a, b) == Add(b, a)
  {
  }

  lemma MulZero(a: Complex)
    ensures Mul(a, ZERO) == ZERO
    ensures Mul(ZERO, a) == ZERO
  {
  }

  lemma MulNeg(a: Complex, b: Complex)
    ensures Mul(a, Neg(b)) == Neg(Mul(a, b))
    ensures Mul(Neg(a), b) == Neg(Mul(a, b))
  {
  }

  lemma MulOne(a: Complex)
    ensures Mul(a, ONE) == a
    ensures Mul(ONE, a) == a
  {
  }

  lemma ConjMul(a: Complex, b: Complex)
    ensures Conj(Mul(a, b)) == Mul(Conj(a), Conj(b))
  {
  }

  lemma AddNeg(a: Complex, b: Complex)
    ensures Add(a, Neg(b)) == Sub(a, b)
  {
  }

  lemma NegUnit(a: Complex)
    ensures Mul(Neg(a), Conj(Neg(a))) == Mul(a, Conj(a))
  {
    MulNeg(a, Neg(Conj(a)));
    MulNeg(a, Conj(a));
  }

  lemma TimesMinusOne(a: Complex)
    ensures Mul(a, Neg(ONE)) == Neg(a) && Add(a, Neg(a)) == ZERO
  {
  }

  /** Products of the quarter turns `1` and `-i`. */
  lemma TurnTwice()
    ensures Mul(Complex(0.0, -1.0), Complex(0.0, -1.0)) == Neg(ONE)
  {
  }

  lemma TurnBack()
    ensures Mul(Complex(0.0, -1.0), Conj(Complex(0.0, -1.0))) == ONE
  {
  }

  lemma ConjOne()
    ensures Conj(ONE) == ONE
  {
  }

  // ----- finite sums

  /** `f(0) + ... + f(n-1)`. */
  ghost function Sum(f: nat -> Complex, n: nat): Complex {
    if n == 0 then ZERO else Add(Sum(f, n - 1), f(n - 1))
  }

  lemma {:induction false} SumCongruent(f: nat -> Complex, g: nat -> Complex, n: nat)
    requires forall i: nat :: i < n ==> f(i) == g(i)
    ensures Sum(f, n) == Sum(g, n)
  {
    if n > 0 {
      SumCongruent(f, g, n - 1);
    }
  }

  lemma {:induction false} SumZero(f: nat -> Complex, n: nat)
    requires forall i: nat :: i < n ==> f(i) == ZERO
    ensures Sum(f, n) == ZERO
  {
    if n > 0 {
      SumZero(f, n - 1);
    }
  }

  /** A sum with a single nonzero term is that term. */
  lemma {:induction false} SumSingle(f: nat -> Complex, n: nat, at: nat)
    requires at < n
    requires forall i: nat :: i < n && i != at ==> f(i) == ZERO
    ensures Sum(f, n) == f(at)
  {
    if at == n - 1 {
      SumZero(f, n - 1);
    } else {
      SumSingle(f, n - 1, at);
    }
  }

  lemma {:induction false} SumAdd(f: nat -> Complex, g: nat -> Complex, h: nat -> Complex, n: nat)
    requires forall i: nat :: i < n ==> h(i) == Add(f(i), g(i))
    ensures Sum(h, n) == Add(Sum(f, n), Sum(g, n))
  {
    if n > 0 {
      SumAdd(f, g, h, n - 1);
    }
  }

  lemma {:induction false} SumScale(f: nat -> Complex, g: nat -> Complex, c: Complex, n: nat)
    requires forall i: nat :: i < n ==> g(i) == Mul(f(i), c)
    ensures Sum(g, n) == Mul(Sum(f, n), c)
  {
    if n > 0 {
      SumScale(f, g, c, n - 1);
      MulDistributes(Sum(f, n - 1), f(n - 1), c);
    }
  }

  lemma {:induction false} SumConj(f: nat -> Complex, g: nat -> Complex, n: nat)
    requires forall i: nat :: i < n ==> g(i) == Conj(f(i))
    ensures Sum(g, n) == Conj(Sum(f, n))
  {
    if n > 0 {
      SumConj(f, g, n - 1);
    }
  }

  /** Splitting off the even and the odd indices. */
  lemma {:induction false} SumEvenOdd(f: nat -> Complex, even: nat -> Complex, odd: nat -> Complex, n: nat)
    requires forall i: nat :: i < n ==> even(i) == f(2 * i) && odd(i) == f(2 * i + 1)
    ensures Sum(f, 2 * n) == Add(Sum(even, n), Sum(odd, n))
  {
    if n > 0 {
      SumEvenOdd(f, even, odd, n - 1);
      assert Sum(f, 2 * n) == Add(Add(Sum(f, 2 * (n - 1)), f(2 * (n - 1))), f(2 * (n - 1) + 1));
    }
  }

  /** Splitting off the upper half of the indices. */
  lemma {:induction false} SumSplit(f: nat -> Complex, upper: nat -> Complex, m: nat, n: nat)
    requires forall i: nat :: i < n ==> upper(i) == f(m + i)
    ensures Sum(f, m + n) == Add(Sum(f, m), Sum(upper, n))
  {
    if n > 0 {
      SumSplit(f, upper, m, n - 1);
    }
  }

  ghost function Row(f: (nat, nat) -> Complex, i: nat): nat -> Complex {
    (j: nat) => f(i, j)
  }

  ghost function Column(f: (nat, nat) -> Complex, j: nat): nat -> Complex {
    (i: nat) => f(i, j)
  }

  /** Summing by rows is summing by columns. */
  lemma {:induction false} SumExchange(f: (nat, nat) -> Complex, rows: nat -> Complex, columns: nat -> Complex,
                                       m: nat, n: nat)
    requires forall i: nat :: i < m ==> rows(i) == Sum(Row(f, i), n)
    requires forall j: nat :: j < n ==> columns(j) == Sum(Column(f, j), m)
    ensures Sum(rows, m) == Sum(columns, n)
  {
    if m == 0 {
      SumZero(columns, n);
    } else {
      var shorter := (j: nat) => Sum(Column(f, j), m - 1);
      SumExchange(f, rows, shorter, m - 1, n);
      SumAdd(shorter, Row(f, m - 1), columns, n);
    }
  }

  /** A sum whose second half is opposite to its first vanishes. */
  lemma OppositesCancel(f: nat -> Complex, upper: nat -> Complex, half: nat)
    requires forall k: nat :: k < half ==> upper(k) == f(half + k) && upper(k) == Neg(f(k))
    ensures Sum(f, half + half) == ZERO
  {
    hide Mul, Neg, Add, Sum;
    forall k: nat | k < half ensures upper(k) == Mul(f(k), Neg(ONE)) {
      TimesMinusOne(f(k));
    }
    SumSplit(f, upper, half, half);
    SumScale(f, upper, Neg(ONE), half);
    TimesMinusOne(Sum(f, half));
  }
}
