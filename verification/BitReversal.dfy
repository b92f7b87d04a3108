/**
 The bit-reversal permutation of `dsp/fft.cpp`.
 */
module BitReversal {
  import opened Arithmetic

  /** The `t` low bits of `i`, in reverse order. */
  function Reverse(t: nat, i: nat): nat {
    if t == 0 then 0 else 2 * Reverse(t - 1, i) + (i / Pow2(t - 1)) % 2
  }

  lemma {:induction false} ReverseBound(t: nat, i: nat)
    ensures Reverse(t, i) < Pow2(t)
  {
    if t > 0 {
      ReverseBound(t - 1, i);
    }
  }

  /** The lowest bit becomes the highest one. */
  lemma {:induction false} ReverseLowBit(t: nat, b: nat, low: nat)
    requires low < 2
    ensures Reverse(t + 1, 2 * b + low) == (if low == 1 then Pow2(t) else 0) + Reverse(t, b)
  {
    hide Reverse;
    var i := 2 * b + low;
    NextBit(t, i);
    if t == 0 {
      NoBits(i);
      NoBits(b);
    } else {
      ReverseLowBit(t - 1, b, low);
      DivTwice(i, Pow2(t - 1));
      NextBit(t - 1, b);
    }
  }

  lemma NoBits(i: nat)
    ensures Reverse(0, i) == 0 && Pow2(0) == 1
  {
  }

  lemma NextBit(t: nat, i: nat)
    ensures Reverse(t + 1, i) == 2 * Reverse(t, i) + (i / Pow2(t)) % 2
  {
  }

  /** Bits above the low `t` do not matter. */
  lemma {:induction false} ReverseIgnoresHigh(t: nat, i: nat, m: nat)
    ensures Reverse(t, i + m * Pow2(t)) == Reverse(t, i)
  {
    hide Reverse;
    if t == 0 {
      NoBits(i);
      NoBits(i + m * Pow2(0));
    } else {
      var p := Pow2(t - 1);
      assert m * Pow2(t) == (2 * m) * p;
      ReverseIgnoresHigh(t - 1, i, 2 * m);
      BitIgnoresHigh(i, p, m);
      NextBit(t - 1, i);
      NextBit(t - 1, i + (2 * m) * p);
    }
  }

  lemma BitIgnoresHigh(i: nat, p: nat, m: nat)
    requires p > 0
    ensures ((i + (2 * m) * p) / p) % 2 == (i / p) % 2
  {
    var q := i / p;
    assert i + (2 * m) * p == p * (q + 2 * m) + i % p;
    DivUnique(i + (2 * m) * p, p, q + 2 * m, i % p);
  }

  /** The highest bit becomes the lowest one. */
  lemma ReverseHighBit(t: nat, y: nat, high: nat)
    requires y < Pow2(t) && high < 2
    ensures Reverse(t + 1, (if high == 1 then Pow2(t) else 0) + y) == 2 * Reverse(t, y) + high
  {
    hide Reverse;
    ReverseIgnoresHigh(t, y, high);
    DivUnique(y + high * Pow2(t), Pow2(t), high, y);
    NextBit(t, y + high * Pow2(t));
  }

  /** Reversing twice is the identity, so the table is a permutation of the input. */
  lemma {:induction false} ReverseInvolution(t: nat, i: nat)
    requires i < Pow2(t)
    ensures Reverse(t, Reverse(t, i)) == i
  {
    hide Reverse;
    if t == 0 {
      NoBits(Reverse(0, i));
    } else {
      var b, low := i / 2, i % 2;
      ReverseInvolution(t - 1, b);
      ReverseLowBit(t - 1, b, low);
      ReverseBound(t - 1, b);
      ReverseHighBit(t - 1, Reverse(t - 1, b), low);
    }
  }
}
