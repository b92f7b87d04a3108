/**
 The twiddle table of `dsp/fft.cpp` and the group of roots of unity it spans.

 The constructor stores `cos` and `sin` of `-2*pi*i/size` for the first half of the
 circle only. What the transform needs of those numbers is `RootTable.Valid` below:
 angles add up when entries are multiplied, half a turn is a sign flip, and every
 entry has modulus one.
 */
module RootsOfUnity {
  import opened Arithmetic
  import opened ComplexNumbers

  // ----- the circle

  /**
   The `2^d`-th roots of unity as a function of the angle, counted in steps of
   `2*pi/2^d`. The transform's defining sum is stated over this circle.
   */
  datatype Circle = Circle(d: nat, w: int -> Complex) {

    function Size(): (n: nat)
      ensures n >= 1
    {
      Pow2(d)
    }

    ghost predicate Valid() {
      && w(0) == ONE
      && (d > 0 ==> w(Size() / 2) == Neg(ONE))
      && (forall a: int, b: int :: AnglesAdd(a, b))
      && (forall a: int, t: int :: Periodic(a, t))
      && (forall a: int :: UnitModulus(a))
    }

    ghost predicate AnglesAdd(a: int, b: int) {
      w(a + b) == Mul(w(a), w(b))
    }

    ghost predicate Periodic(a: int, t: int) {
      w(a + Size() * t) == w(a)
    }

    ghost predicate UnitModulus(a: int) {
      Mul(w(a), Conj(w(a))) == ONE
    }
  }

  /** Half a turn is a sign flip. */
  lemma HalfTurn(c: Circle, a: int)
    requires c.Valid() && c.d > 0
    ensures c.w(a + c.Size() / 2) == Neg(c.w(a))
  {
    assert c.AnglesAdd(a, c.Size() / 2);
  }

  /** Conjugation reverses the angle; this is what lets the inverse reuse the forward network. */
  lemma ConjReverses(c: Circle, a: int)
    requires c.Valid()
    ensures Conj(c.w(a)) == c.w(-a)
  {
    var u, cu, v := c.w(a), Conj(c.w(a)), c.w(-a);
    assert Mul(u, v) == ONE by {
      assert c.AnglesAdd(a, -a);
      assert a + -a == 0;
    }
    calc {
      cu;
      { MulOne(cu); }
      Mul(cu, Mul(u, v));
      { MulAssociates(cu, u, v); MulCommutes(cu, u); }
      Mul(Mul(u, cu), v);
      { assert c.UnitModulus(a); MulOne(v); }
      v;
    }
  }

  // ----- orthogonality

  /** `W(step*j*0), W(step*j*1), ...`: the roots met when walking around the circle in steps of `step*j`. */
  ghost function Walk(c: Circle, step: int, j: int): nat -> Complex
    requires c.Valid()
  {
    (k: nat) => c.w(step * j * k)
  }

  /** Half-way around, an odd walk stands opposite to where it was. */
  lemma WalkOddOpposite(c: Circle, step: nat, j: int, half: nat, k: nat)
    requires c.Valid() && c.d > 0
    requires step * half == c.Size() / 2
    requires j % 2 == 1
    ensures c.w(step * j * (half + k)) == Neg(c.w(step * j * k))
  {
    var n, at, t := c.Size(), step * j * k, j / 2;
    assert step * j * (half + k) == (at + n / 2) + n * t by {
      assert step * j * (half + k) == at + (step * half) * j;
      assert (n / 2) * j == n / 2 + (2 * (n / 2)) * t by {
        assert j == 1 + 2 * t;
      }
    }
    assert c.Periodic(at + n / 2, t);
    HalfTurn(c, at);
  }

  lemma WalkOdd(c: Circle, step: nat, j: int, half: nat)
    requires c.Valid() && c.d > 0
    requires step * half == c.Size() / 2
    requires j % 2 == 1
    ensures Sum(Walk(c, step, j), half + half) == ZERO
  {
    hide Mul, Neg, Sum;
    var walk := Walk(c, step, j);
    var upper := (k: nat) => c.w(step * j * (half + k));
    forall k: nat ensures upper(k) == Neg(walk(k)) {
      WalkOddOpposite(c, step, j, half, k);
    }
    OppositesCancel(walk, upper, half);
  }

  /** An even walk is two rounds of a walk with double steps. */
  lemma WalkEvenTwice(c: Circle, step: nat, j: int, half: nat, k: nat)
    requires c.Valid() && c.d > 0
    requires step * half == c.Size() / 2
    requires j % 2 == 0
    ensures Walk(c, step, j)(k) == Walk(c, 2 * step, j / 2)(k)
    ensures Walk(c, step, j)(half + k) == Walk(c, step, j)(k)
  {
    var n, t := c.Size(), j / 2;
    assert step * j == 2 * step * t by {
      assert j == 2 * t;
    }
    assert step * j * (half + k) == step * j * k + n * t by {
      assert step * j * (half + k) == step * j * k + step * j * half;
      assert step * (2 * t) * half == (2 * (step * half)) * t;
    }
    assert c.Periodic(step * j * k, t);
  }

  lemma WalkEven(c: Circle, step: nat, j: int, half: nat)
    requires c.Valid() && c.d > 0
    requires step * half == c.Size() / 2
    requires j % 2 == 0
    ensures Sum(Walk(c, step, j), half + half)
         == Add(Sum(Walk(c, 2 * step, j / 2), half), Sum(Walk(c, 2 * step, j / 2), half))
  {
    var walk, double := Walk(c, step, j), Walk(c, 2 * step, j / 2);
    forall k: nat ensures walk(k) == double(k) && walk(half + k) == double(k) {
      WalkEvenTwice(c, step, j, half, k);
    }
    SumCongruent(walk, double, half);
    SumSplit(walk, double, half, half);
  }

  /** `2^d` divides `j`. */
  ghost predicate WholeTurns(j: int, d: nat)
    decreases d
  {
    d == 0 || (j % 2 == 0 && WholeTurns(j / 2, d - 1))
  }

  lemma {:induction false} WholeTurnsDivides(j: int, d: nat)
    ensures WholeTurns(j, d) <==> j % Pow2(d) == 0
    decreases d
  {
    if d > 0 {
      WholeTurnsDivides(j / 2, d - 1);
      ModEven(j, Pow2(d - 1));
    }
  }

  /** Summing around the circle cancels unless every step is a whole number of turns. */
  lemma {:induction false} WalkSum(c: Circle, step: nat, j: int, d: nat)
    requires c.Valid()
    requires step * Pow2(d) == c.Size()
    ensures Sum(Walk(c, step, j), Pow2(d))
         == if WholeTurns(j, d) then FromReal(Pow2(d) as real) else ZERO
    decreases d
  {
    if d == 0 {
      var walk := Walk(c, step, j);
      assert Sum(walk, 1) == Add(Sum(walk, 0), walk(0));
    } else {
      var half := Pow2(d - 1);
      HalfSize(c, step, half);
      if j % 2 == 1 {
        WalkOdd(c, step, j, half);
      } else {
        WalkEven(c, step, j, half);
        WalkSum(c, 2 * step, j / 2, d - 1);
      }
    }
  }

  lemma HalfSize(c: Circle, step: nat, half: nat)
    requires step * (2 * half) == c.Size()
    ensures c.d > 0 && step * half == c.Size() / 2 && (2 * step) * half == c.Size()
  {
    assert step * (2 * half) == 2 * (step * half) == (2 * step) * half;
  }

  lemma ModEven(j: int, half: nat)
    requires half > 0
    ensures j % 2 == 1 ==> j % (2 * half) != 0
    ensures j % 2 == 0 ==> (j % (2 * half) == 0 <==> (j / 2) % half == 0)
  {
    var q, m := j / (2 * half), j % (2 * half);
    assert j == 2 * half * q + m;
    assert 2 * half * q == 2 * (half * q);
    if j % 2 == 0 {
      assert m % 2 == 0;
      assert j / 2 == m / 2 + half * q;
      ModWrap(m / 2, q, half);
    }
  }

  /** Orthogonality: the roots sum to the size at angle zero and cancel at every other angle. */
  lemma Orthogonal(c: Circle, j: int)
    requires c.Valid()
    ensures Sum((k: nat) => c.w(j * k), c.Size())
         == if j % c.Size() == 0 then FromReal(c.Size() as real) else ZERO
  {
    WalkSum(c, 1, j, c.d);
    WholeTurnsDivides(j, c.d);
    SumCongruent((k: nat) => c.w(j * k), Walk(c, 1, j), c.Size());
  }

  // ----- the table

  /** The table for a transform of size `2^d`: the first `2^d / 2` powers of the root. */
  datatype RootTable = RootTable(d: nat, tw: seq<Complex>) {

    ghost predicate Valid() {
      && |tw| == Pow2(d) / 2
      && (|tw| > 0 ==> tw[0] == ONE)
      && (forall i: nat, j: nat :: AnglesAdd(i, j))
      && (forall i: nat :: UnitModulus(i))
    }

    /** Multiplying two entries adds their angles; beyond half a turn the sign flips. */
    ghost predicate AnglesAdd(i: nat, j: nat) {
      var h := |tw|;
      i < h && j < h ==>
        Mul(tw[i], tw[j]) == if i + j < h then tw[i + j] else Neg(tw[i + j - h])
    }

    ghost predicate UnitModulus(i: nat) {
      i < |tw| ==> Mul(tw[i], Conj(tw[i])) == ONE
    }

    /** The root at an angle below a full turn. */
    ghost function Root(m: nat): Complex
      requires Valid() && m < Pow2(d)
    {
      if d == 0 then ONE
      else if m < |tw| then tw[m]
      else Neg(tw[m - |tw|])
    }

    /** The half table continued around the circle. */
    ghost function Around(): Circle
      requires Valid()
    {
      Circle(d, (k: int) => Root(k % Pow2(d)))
    }
  }

  function Signed(negative: bool, u: Complex): Complex {
    if negative then Neg(u) else u
  }

  lemma MulSigned(s: bool, t: bool, u: Complex, v: Complex)
    ensures Mul(Signed(s, u), Signed(t, v)) == Signed(s != t, Mul(u, v))
  {
    MulNeg(u, v);
    MulNeg(u, Neg(v));
  }

  lemma SignedUnit(s: bool, u: Complex)
    requires Mul(u, Conj(u)) == ONE
    ensures Mul(Signed(s, u), Conj(Signed(s, u))) == ONE
  {
    hide Mul, Conj, Neg;
    NegUnit(u);
  }

  /** A root is an entry of the half table with a sign. */
  lemma RootSigned(r: RootTable, m: nat) returns (i: nat)
    requires r.Valid() && r.d > 0 && m < Pow2(r.d)
    ensures i < |r.tw| && i == if m >= |r.tw| then m - |r.tw| else m
    ensures r.Root(m) == Signed(m >= |r.tw|, r.tw[i])
  {
    i := if m >= |r.tw| then m - |r.tw| else m;
  }

  lemma RootAdd(r: RootTable, i: nat, j: nat)
    requires r.Valid() && i < Pow2(r.d) && j < Pow2(r.d)
    ensures Mul(r.Root(i), r.Root(j)) == r.Root(if i + j < Pow2(r.d) then i + j else i + j - Pow2(r.d))
  {
    hide Mul;
    if r.d == 0 {
      MulOne(ONE);
    } else {
      var h := |r.tw|;
      var i' := RootSigned(r, i);
      var j' := RootSigned(r, j);
      var sum := RootSigned(r, if i + j < Pow2(r.d) then i + j else i + j - Pow2(r.d));
      var product := Mul(r.tw[i'], r.tw[j']);
      assert product == Signed(i' + j' >= h, r.tw[sum]) by { assert r.AnglesAdd(i', j'); }
      MulSigned(i >= h, j >= h, r.tw[i'], r.tw[j']);
    }
  }

  lemma RootUnit(r: RootTable, m: nat)
    requires r.Valid() && m < Pow2(r.d)
    ensures Mul(r.Root(m), Conj(r.Root(m))) == ONE
  {
    if r.d == 0 {
      MulOne(ONE);
    } else {
      var i := RootSigned(r, m);
      assert r.UnitModulus(i);
      SignedUnit(m >= |r.tw|, r.tw[i]);
    }
  }

  lemma AroundAdds(r: RootTable, a: int, b: int)
    requires r.Valid()
    ensures r.Around().AnglesAdd(a, b)
  {
    hide Mul, Neg;
    var n := Pow2(r.d);
    ModAdd(a, b, n);
    RootAdd(r, a % n, b % n);
  }

  lemma AroundPeriodic(r: RootTable, a: int, t: int)
    requires r.Valid()
    ensures r.Around().Periodic(a, t)
  {
    ModWrap(a, t, Pow2(r.d));
  }

  lemma AroundUnit(r: RootTable, a: int)
    requires r.Valid()
    ensures r.Around().UnitModulus(a)
  {
    hide Mul, Conj;
    RootUnit(r, a % Pow2(r.d));
  }

  lemma AroundLandmarks(r: RootTable)
    requires r.Valid()
    ensures r.Around().w(0) == ONE
    ensures r.d > 0 ==> r.Around().w(Pow2(r.d) / 2) == Neg(ONE)
  {
    SmallMod(0, Pow2(r.d));
    if r.d > 0 {
      SmallMod(Pow2(r.d) / 2, Pow2(r.d));
    }
  }

  /** A table that satisfies its half-circle laws spans a full circle of roots. */
  lemma TableSpansCircle(r: RootTable)
    requires r.Valid()
    ensures r.Around().Valid()
  {
    AroundLandmarks(r);
    forall a: int, b: int ensures r.Around().AnglesAdd(a, b) { AroundAdds(r, a, b); }
    forall a: int, t: int ensures r.Around().Periodic(a, t) { AroundPeriodic(r, a, t); }
    forall a: int ensures r.Around().UnitModulus(a) { AroundUnit(r, a); }
  }

  /** The hypothesis is met: the table the constructor fills in for size 4, `1` and `-i`. */
  lemma QuarterTurns()
    ensures RootTable(2, [ONE, Complex(0.0, -1.0)]).Valid()
  {
    hide Mul, Conj, Neg;
    var turn := Complex(0.0, -1.0);
    var r := RootTable(2, [ONE, turn]);
    assert Pow2(2) == 4 by { assert Pow2(2) == 2 * Pow2(1) && Pow2(1) == 2 * Pow2(0); }
    MulOne(ONE);
    MulOne(turn);
    TurnTwice();
    TurnBack();
    ConjOne();
  }
}
