/**
 The discrete Fourier transform as a defining sum, and the laws that the fast
 transform of `dsp/fft.cpp` rests on.
 */
module FourierSum {
  import opened Arithmetic
  import opened ComplexNumbers
  import opened RootsOfUnity

  type Signal = nat -> Complex

  /** The sequence as a signal, zero beyond its end. */
  function AsSignal(s: seq<Complex>): Signal {
    (i: nat) => if i < |s| then s[i] else ZERO
  }

  function RealSignal(s: seq<real>): Signal {
    (i: nat) => if i < |s| then FromReal(s[i]) else ZERO
  }

  ghost function DftTerm(c: Circle, x: Signal, k: int): Signal {
    (j: nat) => Mul(x(j), c.w(j * k))
  }

  /** Bin `k` of the transform: `x(0)*w^0 + x(1)*w^k + ... + x(n-1)*w^((n-1)*k)`. */
  ghost function Dft(c: Circle, x: Signal, k: int): Complex {
    Sum(DftTerm(c, x, k), c.Size())
  }

  // ----- decimation in time

  ghost function SubTerm(c: Circle, x: Signal, off: nat, stride: nat, k: int): Signal {
    (m: nat) => Mul(x(off + m * stride), c.w(m * k * stride))
  }

  /** The transform of the `len` samples at `off`, `off + stride`, `off + 2*stride`, ... */
  ghost function SubDft(c: Circle, x: Signal, off: nat, stride: nat, len: nat, k: int): Complex {
    Sum(SubTerm(c, x, off, stride, k), len)
  }

  lemma SubDftWhole(c: Circle, x: Signal, k: int)
    ensures SubDft(c, x, 0, 1, c.Size(), k) == Dft(c, x, k)
  {
    SumCongruent(SubTerm(c, x, 0, 1, k), DftTerm(c, x, k), c.Size());
  }

  lemma SubDftSample(c: Circle, x: Signal, off: nat, stride: nat)
    requires c.Valid()
    ensures SubDft(c, x, off, stride, 1, 0) == x(off)
  {
    var f := SubTerm(c, x, off, stride, 0);
    assert Sum(f, 1) == Add(Sum(f, 0), f(0));
    MulOne(x(off));
  }

  lemma EvenTerm(c: Circle, x: Signal, off: nat, s: nat, k: int, m: nat)
    ensures SubTerm(c, x, off, s, k)(2 * m) == SubTerm(c, x, off, 2 * s, k)(m)
  {
    assert (2 * m) * s == m * (2 * s);
    assert (2 * m) * k * s == m * k * (2 * s);
  }

  lemma OddTerm(c: Circle, x: Signal, off: nat, s: nat, k: int, m: nat)
    requires c.Valid()
    ensures SubTerm(c, x, off, s, k)(2 * m + 1) == Mul(SubTerm(c, x, off + s, 2 * s, k)(m), c.w(k * s))
  {
    hide Mul;
    var a, b := m * k * (2 * s), k * s;
    assert off + (2 * m + 1) * s == off + s + m * (2 * s);
    assert (2 * m + 1) * k * s == a + b;
    assert c.AnglesAdd(a, b);
    MulAssociates(x(off + s + m * (2 * s)), c.w(a), c.w(b));
  }

  /** A transform of `2*half` samples from those of its even and its odd samples. */
  lemma Decimate(c: Circle, x: Signal, off: nat, s: nat, half: nat, k: int)
    requires c.Valid()
    ensures SubDft(c, x, off, s, 2 * half, k)
         == Add(SubDft(c, x, off, 2 * s, half, k), Mul(SubDft(c, x, off + s, 2 * s, half, k), c.w(k * s)))
  {
    hide Mul;
    var f := SubTerm(c, x, off, s, k);
    var even := SubTerm(c, x, off, 2 * s, k);
    var odd := SubTerm(c, x, off + s, 2 * s, k);
    var oddAt := (m: nat) => Mul(odd(m), c.w(k * s));
    forall m: nat ensures even(m) == f(2 * m) && oddAt(m) == f(2 * m + 1) {
      EvenTerm(c, x, off, s, k, m);
      OddTerm(c, x, off, s, k, m);
    }
    SumEvenOdd(f, even, oddAt, half);
    SumScale(odd, oddAt, c.w(k * s), half);
  }

  lemma TurnsApart(m: nat, k: int, len: nat, stride: nat)
    ensures m * (k + len) * stride == m * k * stride + (stride * len) * m
  {
  }

  /** A transform of `len` samples repeats after `len` bins. */
  lemma SubDftPeriodic(c: Circle, x: Signal, off: nat, stride: nat, len: nat, k: int)
    requires c.Valid() && stride * len == c.Size()
    ensures SubDft(c, x, off, stride, len, k + len) == SubDft(c, x, off, stride, len, k)
  {
    hide Mul, Sum;
    var f, g := SubTerm(c, x, off, stride, k + len), SubTerm(c, x, off, stride, k);
    forall m: nat ensures f(m) == g(m) {
      TurnsApart(m, k, len, stride);
      assert c.Periodic(m * k * stride, m);
    }
    SumCongruent(f, g, len);
  }

  /**
   The butterfly: two transforms of `half` samples give both halves of the
   transform of `2*half` samples with a single multiplication per pair.
   */
  lemma CooleyTukey(c: Circle, x: Signal, off: nat, s: nat, half: nat, k: int)
    requires c.Valid() && s * (2 * half) == c.Size()
    ensures var u := SubDft(c, x, off, 2 * s, half, k);
            var v := Mul(SubDft(c, x, off + s, 2 * s, half, k), c.w(k * s));
            && SubDft(c, x, off, s, 2 * half, k) == Add(u, v)
            && SubDft(c, x, off, s, 2 * half, k + half) == Sub(u, v)
  {
    hide Sum, SubDft, Mul, Neg;
    Decimate(c, x, off, s, half, k);
    Decimate(c, x, off, s, half, k + half);
    HalfSize(c, s, half);
    SubDftPeriodic(c, x, off, 2 * s, half, k);
    SubDftPeriodic(c, x, off + s, 2 * s, half, k);
    assert (k + half) * s == k * s + c.Size() / 2;
    HalfTurn(c, k * s);
    MulNeg(SubDft(c, x, off + s, 2 * s, half, k), c.w(k * s));
    AddNeg(SubDft(c, x, off, 2 * s, half, k), Mul(SubDft(c, x, off + s, 2 * s, half, k), c.w(k * s)));
  }

  // ----- symmetry

  ghost predicate IsReal(x: Signal, n: nat) {
    forall j: nat :: j < n ==> x(j).im == 0.0
  }

  /** Bins `k` and `n-k` of a signal are conjugate; `n/2 + 1` bins therefore carry all of it. */
  ghost predicate Hermitian(c: Circle, bins: Signal) {
    && bins(0).im == 0.0
    && forall k: nat :: 0 < k < c.Size() ==> bins(c.Size() - k) == Conj(bins(k))
  }

  lemma DftConjugate(c: Circle, x: Signal, k: int)
    requires c.Valid() && IsReal(x, c.Size())
    ensures Dft(c, x, -k) == Conj(Dft(c, x, k))
  {
    hide Mul;
    var f, g := DftTerm(c, x, k), DftTerm(c, x, -k);
    forall j: nat | j < c.Size() ensures g(j) == Conj(f(j)) {
      ConjMul(x(j), c.w(j * k));
      ConjReverses(c, j * k);
      assert j * -k == -(j * k);
    }
    SumConj(f, g, c.Size());
  }

  lemma DftPeriodic(c: Circle, x: Signal, k: int)
    requires c.Valid()
    ensures Dft(c, x, k + c.Size()) == Dft(c, x, k)
  {
    SubDftWhole(c, x, k);
    SubDftWhole(c, x, k + c.Size());
    SubDftPeriodic(c, x, 0, 1, c.Size(), k);
  }

  lemma MirrorBin(c: Circle, x: Signal, k: nat)
    requires c.Valid() && IsReal(x, c.Size()) && k <= c.Size()
    ensures Dft(c, x, c.Size() - k) == Conj(Dft(c, x, k))
  {
    DftConjugate(c, x, k);
    DftPeriodic(c, x, 0 - k);
    assert 0 - k + c.Size() == c.Size() - k;
  }

  /** The transform of a real signal is Hermitian: the upper bins mirror the lower ones. */
  lemma RealIsHermitian(c: Circle, x: Signal)
    requires c.Valid() && IsReal(x, c.Size())
    ensures Hermitian(c, (k: nat) => Dft(c, x, k))
  {
    DftConjugate(c, x, 0);
    forall k: nat | 0 < k < c.Size() ensures Dft(c, x, c.Size() - k) == Conj(Dft(c, x, k)) {
      MirrorBin(c, x, k);
    }
  }

  // ----- inversion

  ghost function Conjugated(x: Signal): Signal {
    (k: nat) => Conj(x(k))
  }

  ghost function InverseTerm(c: Circle, bins: Signal, i: int): Signal {
    (k: nat) => Mul(bins(k), c.w(-(i * k)))
  }

  /** The inverse transform, without the final division by the size. */
  ghost function InverseSum(c: Circle, bins: Signal, i: int): Complex {
    Sum(InverseTerm(c, bins, i), c.Size())
  }

  /** Conjugating before and after the forward network runs the inverse. */
  lemma InverseByConjugation(c: Circle, bins: Signal, i: nat)
    requires c.Valid()
    ensures Conj(Dft(c, Conjugated(bins), i)) == InverseSum(c, bins, i)
  {
    hide Mul;
    var f, g := DftTerm(c, Conjugated(bins), i), InverseTerm(c, bins, i);
    forall k: nat ensures g(k) == Conj(f(k)) {
      ConjMul(Conj(bins(k)), c.w(k * i));
      ConjReverses(c, k * i);
      assert -(i * k) == -(k * i);
    }
    SumConj(f, g, c.Size());
  }

  ghost function Grid(c: Circle, x: Signal, i: nat): (nat, nat) -> Complex {
    (k: nat, j: nat) => Mul(x(j), c.w((j - i) * k))
  }

  /** Row `k` of the grid is bin `k` turned back by `i*k`. */
  lemma GridRow(c: Circle, x: Signal, i: nat, k: nat)
    requires c.Valid()
    ensures Sum(Row(Grid(c, x, i), k), c.Size()) == Mul(Dft(c, x, k), c.w(-(i * k)))
  {
    hide Mul;
    var f, g := DftTerm(c, x, k), Row(Grid(c, x, i), k);
    forall j: nat ensures g(j) == Mul(f(j), c.w(-(i * k))) {
      assert (j - i) * k == j * k + -(i * k);
      assert c.AnglesAdd(j * k, -(i * k));
      MulAssociates(x(j), c.w(j * k), c.w(-(i * k)));
    }
    SumScale(f, g, c.w(-(i * k)), c.Size());
  }

  lemma DistinctModulo(i: nat, j: nat, n: nat)
    requires i < n && j < n
    ensures (j - i) % n == 0 <==> i == j
  {
    if j < i {
      ModWrap(j - i, 1, n);
      assert (j - i + n * 1) % n == j - i + n by { SmallMod(j - i + n, n); }
    } else {
      SmallMod(j - i, n);
    }
  }

  /** Column `j` of the grid cancels unless `j == i`. */
  lemma GridColumn(c: Circle, x: Signal, i: nat, j: nat)
    requires c.Valid() && i < c.Size() && j < c.Size()
    ensures Sum(Column(Grid(c, x, i), j), c.Size())
         == if j == i then Mul(x(i), FromReal(c.Size() as real)) else ZERO
  {
    hide Mul;
    var walk, g := (k: nat) => c.w((j - i) * k), Column(Grid(c, x, i), j);
    forall k: nat ensures g(k) == Mul(walk(k), x(j)) {
      MulCommutes(x(j), walk(k));
    }
    SumScale(walk, g, x(j), c.Size());
    Orthogonal(c, j - i);
    DistinctModulo(i, j, c.Size());
    MulCommutes(x(j), FromReal(c.Size() as real));
    MulZero(x(j));
  }

  /** Inversion: the inverse sum of the bins of `x` is `n` times `x`. */
  lemma Inversion(c: Circle, x: Signal, bins: Signal, i: nat)
    requires c.Valid() && i < c.Size()
    requires forall k: nat :: k < c.Size() ==> bins(k) == Dft(c, x, k)
    ensures InverseSum(c, bins, i) == Mul(x(i), FromReal(c.Size() as real))
  {
    hide Mul;
    var grid := Grid(c, x, i);
    var columns := (j: nat) => Sum(Column(grid, j), c.Size());
    var rows := InverseTerm(c, bins, i);
    forall k: nat | k < c.Size() ensures rows(k) == Sum(Row(grid, k), c.Size()) {
      GridRow(c, x, i, k);
    }
    SumExchange(grid, rows, columns, c.Size(), c.Size());
    forall j: nat | j < c.Size()
      ensures columns(j) == if j == i then Mul(x(i), FromReal(c.Size() as real)) else ZERO
    {
      GridColumn(c, x, i, j);
    }
    SumSingle(columns, c.Size(), i);
  }

  /** What `inverse` writes at index `i`: the real part of the inverse sum, over the size. */
  ghost function Inverted(c: Circle, bins: Signal, i: nat): real {
    InverseSum(c, bins, i).re / c.Size() as real
  }

  /** Inverting the spectrum of a real input gives the input back. */
  lemma InverseUndoesForward(c: Circle, x: seq<real>, bins: Signal, i: nat)
    requires c.Valid() && |x| == c.Size() && i < c.Size()
    requires forall k: nat :: k < c.Size() ==> bins(k) == Dft(c, RealSignal(x), k)
    ensures Inverted(c, bins, i) == x[i]
  {
    hide Sum;
    Inversion(c, RealSignal(x), bins, i);
    var n := c.Size() as real;
    assert InverseSum(c, bins, i).re == x[i] * n;
    assert x[i] * n / n == x[i];
  }

  // ----- the other direction

  lemma DftCongruent(c: Circle, x: Signal, y: Signal, k: int)
    requires forall j: nat :: j < c.Size() ==> x(j) == y(j)
    ensures Dft(c, x, k) == Dft(c, y, k)
  {
    SumCongruent(DftTerm(c, x, k), DftTerm(c, y, k), c.Size());
  }

  lemma DftScale(c: Circle, x: Signal, y: Signal, a: Complex, k: int)
    requires forall j: nat :: j < c.Size() ==> y(j) == Mul(x(j), a)
    ensures Dft(c, y, k) == Mul(Dft(c, x, k), a)
  {
    hide Mul;
    var f, g := DftTerm(c, x, k), DftTerm(c, y, k);
    forall j: nat | j < c.Size() ensures g(j) == Mul(f(j), a) {
      MulAssociates(x(j), a, c.w(j * k));
      MulCommutes(a, c.w(j * k));
      MulAssociates(x(j), c.w(j * k), a);
    }
    SumScale(f, g, a, c.Size());
  }

  /** Transforming the inverse sums of `bins` gives `n` times `bins`. */
  lemma ForwardOfInverseSum(c: Circle, bins: Signal, z: Signal, k: nat)
    requires c.Valid() && k < c.Size()
    requires forall i: nat :: i < c.Size() ==> z(i) == InverseSum(c, bins, i)
    ensures Dft(c, z, k) == Mul(bins(k), FromReal(c.Size() as real))
  {
    hide Mul, Sum;
    var mirrored := Conjugated(z);
    forall i: nat | i < c.Size() ensures mirrored(i) == Dft(c, Conjugated(bins), i) {
      InverseByConjugation(c, bins, i);
    }
    Inversion(c, Conjugated(bins), mirrored, k);
    InverseByConjugation(c, mirrored, k);
    DftCongruent(c, Conjugated(mirrored), z, k);
    ConjMul(Conj(bins(k)), FromReal(c.Size() as real));
  }

  ghost function Upper(f: Signal): Signal {
    (k: nat) => f(k + 1)
  }

  lemma SumFirst(f: Signal, n: nat)
    requires n > 0
    ensures Sum(f, n) == Add(f(0), Sum(Upper(f), n - 1))
  {
    SumSplit(f, Upper(f), 1, n - 1);
    assert Sum(f, 1) == Add(Sum(f, 0), f(0));
    assert 1 + (n - 1) == n;
  }

  /** Summing in reverse order. */
  lemma {:induction false} SumReflect(f: Signal, g: Signal, n: nat)
    requires forall k: nat :: k < n ==> g(k) == f(n - 1 - k)
    ensures Sum(g, n) == Sum(f, n)
  {
    hide Add;
    if n > 0 {
      forall k: nat | k < n - 1 ensures g(k) == Upper(f)((n - 1) - 1 - k) {
        assert n - 1 - k == (n - 1) - 1 - k + 1;
      }
      SumReflect(Upper(f), g, n - 1);
      SumFirst(f, n);
      assert g(n - 1) == f(0);
      AddCommutes(Sum(g, n - 1), g(n - 1));
    }
  }

  lemma MirroredTerm(c: Circle, bins: Signal, i: nat, k: nat)
    requires c.Valid() && Hermitian(c, bins) && 0 < k < c.Size()
    ensures Conj(InverseTerm(c, bins, i)(k)) == InverseTerm(c, bins, i)(c.Size() - k)
  {
    hide Mul;
    var n := c.Size();
    ConjMul(bins(k), c.w(-(i * k)));
    ConjReverses(c, -(i * k));
    assert -(i * (n - k)) == i * k + n * (0 - i);
    assert c.Periodic(i * k, 0 - i);
  }

  lemma UpperIsReal(c: Circle, bins: Signal, i: nat)
    requires c.Valid() && Hermitian(c, bins)
    ensures Sum(Upper(InverseTerm(c, bins, i)), c.Size() - 1).im == 0.0
  {
    hide Sum, Mul;
    var n, upper := c.Size(), Upper(InverseTerm(c, bins, i));
    var mirror := Conjugated(upper);
    forall k: nat | k < n - 1 ensures mirror(k) == upper((n - 1) - 1 - k) {
      MirroredTerm(c, bins, i, k + 1);
    }
    SumReflect(upper, mirror, n - 1);
    SumConj(upper, mirror, n - 1);
  }

  /** A Hermitian spectrum has real inverse sums. */
  lemma HermitianIsReal(c: Circle, bins: Signal, i: nat)
    requires c.Valid() && Hermitian(c, bins)
    ensures InverseSum(c, bins, i).im == 0.0
  {
    var n, f := c.Size(), InverseTerm(c, bins, i);
    UpperIsReal(c, bins, i);
    SumFirst(f, n);
    assert i * 0 == 0;
    MulOne(bins(0));
  }

  /**
   `forward(inverse(X))` is `X` exactly for the Hermitian spectra: the inverse
   drops the imaginary part of every sample, and those are zero just then.
   */
  lemma ForwardUndoesInverse(c: Circle, bins: Signal, y: seq<real>)
    requires c.Valid() && |y| == c.Size()
    requires forall i: nat :: i < c.Size() ==> y[i] == Inverted(c, bins, i)
    ensures (forall k: nat :: k < c.Size() ==> Dft(c, RealSignal(y), k) == bins(k)) <==> Hermitian(c, bins)
  {
    if Hermitian(c, bins) {
      forall k: nat | k < c.Size() ensures Dft(c, RealSignal(y), k) == bins(k) {
        HermitianRecovered(c, bins, y, k);
      }
    }
    if forall k: nat :: k < c.Size() ==> Dft(c, RealSignal(y), k) == bins(k) {
      RealIsHermitian(c, RealSignal(y));
      assert Dft(c, RealSignal(y), 0) == bins(0);
      var spectrum := (k: nat) => Dft(c, RealSignal(y), k);
      forall k: nat | 0 < k < c.Size() ensures bins(c.Size() - k) == Conj(bins(k)) {
        assert spectrum(c.Size() - k) == Conj(spectrum(k));
      }
    }
  }

  lemma HermitianRecovered(c: Circle, bins: Signal, y: seq<real>, k: nat)
    requires c.Valid() && |y| == c.Size() && k < c.Size() && Hermitian(c, bins)
    requires forall i: nat :: i < c.Size() ==> y[i] == Inverted(c, bins, i)
    ensures Dft(c, RealSignal(y), k) == bins(k)
  {
    hide Mul, Sum;
    var n := c.Size() as real;
    var z := (i: nat) => InverseSum(c, bins, i);
    forall i: nat | i < c.Size() ensures RealSignal(y)(i) == Mul(z(i), FromReal(1.0 / n)) {
      HermitianIsReal(c, bins, i);
      RealOver(z(i), n);
    }
    DftScale(c, z, RealSignal(y), FromReal(1.0 / n), k);
    ForwardOfInverseSum(c, bins, z, k);
    ScaleBack(bins(k), n);
  }

  lemma RealOver(z: Complex, n: real)
    requires n > 0.0 && z.im == 0.0
    ensures FromReal(z.re / n) == Mul(z, FromReal(1.0 / n))
  {
    assert z.re / n == z.re * (1.0 / n);
  }

  lemma ScaleBack(b: Complex, n: real)
    requires n > 0.0
    ensures Mul(Mul(b, FromReal(n)), FromReal(1.0 / n)) == b
  {
    MulAssociates(b, FromReal(n), FromReal(1.0 / n));
    assert n * (1.0 / n) == 1.0;
    MulOne(b);
  }

  // ----- as sequences

  /** All bins of a signal. */
  ghost function Spectrum(c: Circle, x: Signal): (bins: seq<Complex>)
    ensures |bins| == c.Size()
  {
    seq(c.Size(), (k: nat) => Dft(c, x, k))
  }

  /** All samples that `inverse` recovers from a spectrum. */
  ghost function Synthesis(c: Circle, bins: Signal): (x: seq<real>)
    ensures |x| == c.Size()
  {
    seq(c.Size(), (i: nat) => Inverted(c, bins, i))
  }

  /** Synthesis undoes analysis on every real buffer. */
  lemma SynthesisOfSpectrum(c: Circle, x: seq<real>)
    requires c.Valid() && |x| == c.Size()
    ensures Synthesis(c, AsSignal(Spectrum(c, RealSignal(x)))) == x
  {
    var bins := AsSignal(Spectrum(c, RealSignal(x)));
    forall i: nat | i < c.Size() ensures Inverted(c, bins, i) == x[i] {
      InverseUndoesForward(c, x, bins, i);
    }
  }

  /** Analysis undoes synthesis exactly on the Hermitian spectra. */
  lemma SpectrumOfSynthesis(c: Circle, bins: seq<Complex>)
    requires c.Valid() && |bins| == c.Size()
    ensures Spectrum(c, RealSignal(Synthesis(c, AsSignal(bins)))) == bins <==> Hermitian(c, AsSignal(bins))
  {
    var y := Synthesis(c, AsSignal(bins));
    ForwardUndoesInverse(c, AsSignal(bins), y);
    assert Spectrum(c, RealSignal(y)) == bins <==>
      forall k: nat :: k < c.Size() ==> Dft(c, RealSignal(y), k) == bins[k];
  }

  /** `bin_count() == size/2 + 1` bins determine a real buffer completely. */
  lemma LowerBinsSuffice(c: Circle, x: seq<real>, y: seq<real>)
    requires c.Valid() && |x| == |y| == c.Size()
    requires forall k: nat :: k < c.Size() / 2 + 1 ==> Dft(c, RealSignal(x), k) == Dft(c, RealSignal(y), k)
    ensures x == y
  {
    forall k: nat | k < c.Size() ensures Dft(c, RealSignal(x), k) == Dft(c, RealSignal(y), k) {
      if k >= c.Size() / 2 + 1 {
        MirrorBin(c, RealSignal(x), c.Size() - k);
        MirrorBin(c, RealSignal(y), c.Size() - k);
      }
    }
    assert Spectrum(c, RealSignal(x)) == Spectrum(c, RealSignal(y));
    SynthesisOfSpectrum(c, x);
    SynthesisOfSpectrum(c, y);
  }
}
