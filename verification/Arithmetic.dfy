/**
 Powers of two and the few facts about quotients and remainders by a variable
 divisor that the rest of the project needs.
 */
module Arithmetic {

  function Pow2(d: nat): (n: nat)
    ensures n >= 1
  {
    if d == 0 then 1 else 2 * Pow2(d - 1)
  }

  /** The quotient of C++, which rounds toward zero. */
  function Quotient(a: int, n: int): int
    requires n > 0
  {
    if a >= 0 then a / n else -((-a) / n)
  }

  lemma {:induction false} Pow2Monotone(t: nat, d: nat)
    requires t <= d
    ensures Pow2(t) <= Pow2(d)
    ensures Pow2(t) == Pow2(d) ==> t == d
    decreases d - t
  {
    if t < d {
      Pow2Monotone(t + 1, d);
    }
  }

  lemma {:induction false} Pow2Split(d: nat, e: nat)
    requires e <= d
    ensures Pow2(d - e) * Pow2(e) == Pow2(d)
  {
    if e > 0 {
      Pow2Split(d, e - 1);
      assert Pow2(d - (e - 1)) == 2 * Pow2(d - e);
      Regroup(Pow2(d - e), Pow2(e - 1));
    }
  }

  lemma Regroup(a: int, b: int)
    ensures (2 * a) * b == a * (2 * b)
  {
  }

  lemma ModWrap(a: int, t: int, n: int)
    requires n > 0
    ensures (a + n * t) % n == a % n
  {
    var q, m := a / n, a % n;
    assert a + n * t == n * (q + t) + m;
    var q', m' := (a + n * t) / n, (a + n * t) % n;
    assert n * (q + t - q') == m' - m;
    assert q + t - q' >= 1 ==> n * (q + t - q') >= n;
    assert q + t - q' <= -1 ==> n * (q + t - q') <= -n;
  }

  lemma SmallMod(a: nat, n: nat)
    requires a < n
    ensures a % n == a
  {
  }

  lemma ModAdd(a: int, b: int, n: int)
    requires n > 0
    ensures (a + b) % n == if a % n + b % n < n then a % n + b % n else a % n + b % n - n
  {
    var m := a % n + b % n;
    var t := a / n + b / n;
    assert a + b == m + n * t by {
      Distribute(n, a / n, b / n);
    }
    ModWrap(m, t, n);
    if m < n {
      SmallMod(m, n);
    } else {
      ModWrap(m - n, 1, n);
      SmallMod(m - n, n);
    }
  }

  lemma Distribute(n: int, a: int, b: int)
    ensures n * (a + b) == n * a + n * b
  {
  }

  lemma DivUnique(i: nat, m: nat, q: nat, r: nat)
    requires r < m && i == m * q + r
    ensures i / m == q && i % m == r
  {
    var q', r' := i / m, i % m;
    assert m * (q - q') == r' - r;
    assert q - q' >= 1 ==> m * (q - q') >= m;
    assert q - q' <= -1 ==> m * (q - q') <= 0 - m;
  }

  lemma DivTwice(i: nat, m: nat)
    requires m > 0
    ensures i / (2 * m) == (i / 2) / m
  {
    var q, r := (i / 2) / m, (i / 2) % m;
    assert i == 2 * (m * q + r) + i % 2;
    assert i == (2 * m) * q + (2 * r + i % 2);
    DivUnique(i, 2 * m, q, 2 * r + i % 2);
  }

  lemma ModTwice(w: nat, p: nat)
    requires p > 0
    ensures w % (2 * p) == 2 * ((w / 2) % p) + w % 2
  {
    var h := w / 2;
    assert w == (2 * p) * (h / p) + (2 * (h % p) + w % 2) by {
      assert h == p * (h / p) + h % p;
      assert 2 * (p * (h / p)) == (2 * p) * (h / p);
    }
    DivUnique(w, 2 * p, h / p, 2 * (h % p) + w % 2);
  }
}
