/**
 The in-place radix-2 transform of `dsp/fft.cpp`.

 `Network` is the pair of nested loops that `forward` and `inverse` share; it is
 proved against the defining Fourier sum of module `FourierSum`.
 */
module FastFourier {
  import opened Arithmetic
  import opened ComplexNumbers
  import opened RootsOfUnity
  import opened BitReversal
  import opened FourierSum

  // ----- one pass of butterflies

  /** The value a butterfly leaves at position `i + q` of the block that starts at `i`. */
  ghost function Butterfly(tw: seq<Complex>, s: nat, half: nat, before: seq<Complex>, i: nat, q: nat): Complex
    requires half * s == |tw| && 0 < s && q < 2 * half && i + 2 * half <= |before|
  {
    var j := if q < half then q else q - half;
    assert j * s < half * s;
    var u, v := before[i + j], Mul(before[i + j + half], tw[j * s]);
    if q < half then Add(u, v) else Sub(u, v)
  }

  /** The buffer after a whole pass: every block of length `2*half` crossed. */
  ghost function Crossed(tw: seq<Complex>, s: nat, half: nat, before: seq<Complex>): (after: seq<Complex>)
    requires half * s == |tw| && 0 < s && 0 < half && |before| == s * (2 * half)
    ensures |after| == |before|
  {
    seq(|before|, (p: nat) requires p < |before| =>
      BlockEnd(p, s, 2 * half);
      Butterfly(tw, s, half, before, p / (2 * half) * (2 * half), p % (2 * half)))
  }

  lemma BlockEnd(p: nat, s: nat, len: nat)
    requires 0 < len && p < s * len
    ensures p / len * len + len <= s * len
  {
    var b := p / len;
    assert p == len * b + p % len;
    assert b >= s ==> len * b >= s * len;
    assert (b + 1) * len <= s * len;
  }

  lemma CrossedAt(tw: seq<Complex>, s: nat, half: nat, before: seq<Complex>, b: nat, i: nat, q: nat)
    requires half * s == |tw| && 0 < s && 0 < half && |before| == s * (2 * half)
    requires i == b * (2 * half) && i + 2 * half <= |before| && q < 2 * half
    ensures Crossed(tw, s, half, before)[i + q] == Butterfly(tw, s, half, before, i, q)
  {
    DivUnique(i + q, 2 * half, b, q);
  }

  // ----- what a stage has computed

  /** Candidate transforms: `(off, stride, len, k)` is bin `k` of the `len` samples `off`, `off + stride`, ... */
  type Family = (nat, nat, nat, nat) -> Complex

  /** The family obeys the butterfly at one place. */
  ghost predicate SplitsAt(f: Family, w: nat -> Complex, off: nat, s: nat, half: nat, k: nat) {
    var u, v := f(off, 2 * s, half, k), Mul(f(off + s, 2 * s, half, k), w(k * s));
    && f(off, s, 2 * half, k) == Add(u, v)
    && f(off, s, 2 * half, k + half) == Sub(u, v)
  }

  /** Block `b` of length `len` is the family's transform of every `2^t`-th sample from `Reverse(t, b)` on. */
  ghost predicate BlockDone(f: Family, buf: seq<Complex>, t: nat, len: nat, b: nat) {
    var i := b * len;
    i + len <= |buf| ==> forall k: nat :: k < len ==> At(buf, i + k) == f(Reverse(t, b), Pow2(t), len, k)
  }

  function At(buf: seq<Complex>, i: nat): Complex {
    if i < |buf| then buf[i] else ZERO
  }

  ghost predicate StageDone(f: Family, buf: seq<Complex>, t: nat, len: nat) {
    forall b: nat :: BlockDone(f, buf, t, len, b)
  }

  lemma BlockValue(f: Family, buf: seq<Complex>, t: nat, len: nat, b: nat, i: nat, j: nat)
    requires BlockDone(f, buf, t, len, b)
    requires j < len && i == b * len && i + len <= |buf|
    ensures buf[i + j] == f(Reverse(t, b), Pow2(t), len, j)
  {
    assert At(buf, b * len + j) == f(Reverse(t, b), Pow2(t), len, j);
  }

  /** The two inputs of a butterfly: transforms of the even and of the odd samples. */
  lemma ButterflyInputs(f: Family, buf: seq<Complex>, t: nat, half: nat, b: nat, i: nat, j: nat)
    requires BlockDone(f, buf, t + 1, half, 2 * b)
    requires BlockDone(f, buf, t + 1, half, 2 * b + 1)
    requires j < half && i == b * (2 * half) && i + 2 * half <= |buf|
    ensures buf[i + j] == f(Reverse(t, b), 2 * Pow2(t), half, j)
    ensures buf[i + j + half] == f(Reverse(t, b) + Pow2(t), 2 * Pow2(t), half, j)
  {
    hide Reverse, BlockDone;
    Regroup(b, half);
    BlockValue(f, buf, t + 1, half, 2 * b, i, j);
    BlockValue(f, buf, t + 1, half, 2 * b + 1, i + half, j);
    ReverseLowBit(t, b, 0);
    ReverseLowBit(t, b, 1);
    assert i + half + j == i + j + half;
  }

  lemma Regroup(b: nat, half: nat)
    ensures (2 * b) * half == b * (2 * half)
    ensures (2 * b + 1) * half == b * (2 * half) + half
  {
  }

  /** A butterfly turns two transforms of a stage into one of the next. */
  lemma ButterflyAdvance(f: Family, w: nat -> Complex, tw: seq<Complex>, buf: seq<Complex>,
                         t: nat, s: nat, half: nat, b: nat, i: nat, q: nat)
    requires s == Pow2(t) && half * s == |tw|
    requires forall m: nat :: m < |tw| ==> tw[m] == w(m)
    requires q < 2 * half && i == b * (2 * half) && i + 2 * half <= |buf|
    requires BlockDone(f, buf, t + 1, half, 2 * b)
    requires BlockDone(f, buf, t + 1, half, 2 * b + 1)
    requires SplitsAt(f, w, Reverse(t, b), s, half, if q < half then q else q - half)
    ensures Butterfly(tw, s, half, buf, i, q) == f(Reverse(t, b), s, 2 * half, q)
  {
    hide Mul, Add, Sub, BlockDone, Reverse, Pow2;
    var j := if q < half then q else q - half;
    ButterflyInputs(f, buf, t, half, b, i, j);
    StrideBelow(j, half, s);
    assert tw[j * s] == w(j * s);
  }

  lemma StrideBelow(j: nat, half: nat, s: nat)
    requires j < half && s > 0
    ensures j * s < half * s
  {
  }

  /** A pass of butterflies completes the next stage, for every family that splits. */
  lemma StageAdvance(f: Family, w: nat -> Complex, tw: seq<Complex>, before: seq<Complex>, after: seq<Complex>,
                     t: nat, s: nat, half: nat)
    requires s == Pow2(t) && half * s == |tw| && 0 < half && |before| == s * (2 * half)
    requires after == Crossed(tw, s, half, before)
    requires forall m: nat :: m < |tw| ==> tw[m] == w(m)
    requires forall off: nat, k: nat :: SplitsAt(f, w, off, s, half, k)
    requires StageDone(f, before, t + 1, half)
    ensures StageDone(f, after, t, 2 * half)
  {
    hide Mul, Butterfly, Crossed, Reverse, Pow2, SplitsAt;
    forall b: nat ensures BlockDone(f, after, t, 2 * half, b) {
      var i := b * (2 * half);
      if i + 2 * half <= |before| {
        assert BlockDone(f, before, t + 1, half, 2 * b);
        assert BlockDone(f, before, t + 1, half, 2 * b + 1);
        forall q: nat | q < 2 * half ensures At(after, i + q) == f(Reverse(t, b), s, 2 * half, q) {
          assert SplitsAt(f, w, Reverse(t, b), s, half, if q < half then q else q - half);
          ButterflyAdvance(f, w, tw, before, t, s, half, b, i, q);
          CrossedAt(tw, s, half, before, b, i, q);
        }
      }
    }
  }

  // ----- the Fourier family

  ghost function Subs(c: Circle, x: Signal): Family {
    (off: nat, stride: nat, len: nat, k: nat) => SubDft(c, x, off, stride, len, k)
  }

  lemma FourierSplits(c: Circle, x: Signal, w: nat -> Complex, off: nat, s: nat, half: nat, k: nat)
    requires c.Valid() && s * (2 * half) == c.Size()
    requires w(k * s) == c.w(k * s)
    ensures SplitsAt(Subs(c, x), w, off, s, half, k)
  {
    hide Mul, SubDft;
    CooleyTukey(c, x, off, s, half, k);
  }

  /** The samples in bit-reversed order. */
  ghost function Shuffled(d: nat, x: Signal): (samples: seq<Complex>)
    ensures |samples| == Pow2(d)
  {
    seq(Pow2(d), (i: nat) => x(Reverse(d, i)))
  }

  lemma StageStart(c: Circle, x: Signal)
    requires c.Valid()
    ensures StageDone(Subs(c, x), Shuffled(c.d, x), c.d, 1)
  {
    hide Mul, SubDft;
    forall b: nat ensures BlockDone(Subs(c, x), Shuffled(c.d, x), c.d, 1, b) {
      SubDftSample(c, x, Reverse(c.d, b), Pow2(c.d));
    }
  }

  /** When one block is left, it is the transform. */
  lemma StageEnd(c: Circle, x: Signal, buf: seq<Complex>)
    requires |buf| == c.Size() && StageDone(Subs(c, x), buf, 0, c.Size())
    ensures buf == Spectrum(c, x)
  {
    hide SubDft, Dft;
    forall k: nat | k < c.Size() ensures buf[k] == Dft(c, x, k) {
      SubDftWhole(c, x, k);
      assert BlockDone(Subs(c, x), buf, 0, c.Size(), 0);
      assert At(buf, 0 * c.Size() + k) == Subs(c, x)(Reverse(0, 0), Pow2(0), c.Size(), k);
    }
  }

  lemma TableRoot(r: RootTable, m: nat)
    requires r.Valid() && m < |r.tw|
    ensures r.tw[m] == r.Around().w(m)
  {
    SmallMod(m, Pow2(r.d));
  }

  // ----- the loops

  /** `before` with the first `j` butterflies of the block at `i` replaced by their values in `goal`. */
  ghost function Partial(before: seq<Complex>, goal: seq<Complex>, i: nat, half: nat, j: nat): seq<Complex>
    requires |goal| == |before| && j <= half && i + 2 * half <= |before|
  {
    seq(|before|, (p: nat) requires p < |before| =>
      if i <= p < i + j || i + half <= p < i + half + j then goal[p] else before[p])
  }

  lemma PartialStep(before: seq<Complex>, goal: seq<Complex>, i: nat, half: nat, j: nat)
    requires |goal| == |before| && j < half && i + 2 * half <= |before|
    ensures var now := Partial(before, goal, i, half, j);
            && |now| == |before|
            && now[i + j] == before[i + j] && now[i + j + half] == before[i + j + half]
            && now[i + j := goal[i + j]][i + j + half := goal[i + j + half]] == Partial(before, goal, i, half, j + 1)
  {
  }

  lemma PartialEnds(before: seq<Complex>, goal: seq<Complex>, i: nat, half: nat)
    requires |goal| == |before| && i + 2 * half <= |before|
    ensures Partial(before, goal, i, half, 0) == before
    ensures Partial(before, goal, i, half, half) == before[..i] + goal[i..i + 2 * half] + before[i + 2 * half..]
  {
  }

  /** `goal` holds both results of butterfly `j` of the block at `i`. */
  ghost predicate GoalPair(tw: seq<Complex>, s: nat, half: nat, before: seq<Complex>, goal: seq<Complex>, i: nat, j: nat)
    requires half * s == |tw| && 0 < s && i + 2 * half <= |before| == |goal|
  {
    j < half ==>
      assert j * s < half * s;
      var u, v := before[i + j], Mul(before[i + j + half], tw[j * s]);
      goal[i + j] == Add(u, v) && goal[i + j + half] == Sub(u, v)
  }

  lemma ExactStride(j: nat, s: nat, len: nat, half: nat, n: nat)
    requires len == 2 * half && j < half && s > 0 && n == s * len
    ensures j * n / len == j * s < half * s
  {
    assert j * n == len * (j * s) + 0;
    DivUnique(j * n, len, j * s, 0);
  }

  /** The innermost loop: the butterflies of the block at `i`. */
  method CrossBlock(tw: seq<Complex>, buf: array<Complex>, len: nat, i: nat, ghost s: nat, ghost goal: seq<Complex>)
    requires len >= 2 && len % 2 == 0 && s > 0 && s * len == buf.Length && (len / 2) * s == |tw|
    requires i + len <= buf.Length == |goal|
    requires forall j: nat :: GoalPair(tw, s, len / 2, buf[..], goal, i, j)
    modifies buf
    ensures buf[..] == old(buf[..i]) + goal[i..i + len] + old(buf[i + len..])
  {
    hide Mul;
    var half := len / 2;
    ghost var before := buf[..];
    PartialEnds(before, goal, i, half);
    for j := 0 to half
      invariant buf[..] == Partial(before, goal, i, half, j)
    {
      ExactStride(j, s, len, half, buf.Length);
      PartialStep(before, goal, i, half, j);
      assert GoalPair(tw, s, half, before, goal, i, j);
      var w := tw[j * buf.Length / len];
      var u := buf[i + j];
      var v := Mul(buf[i + j + half], w);
      buf[i + j] := Add(u, v);
      buf[i + j + half] := Sub(u, v);
    }
  }

  lemma CrossedPair(tw: seq<Complex>, s: nat, half: nat, before: seq<Complex>, now: seq<Complex>, b: nat, i: nat, j: nat)
    requires half * s == |tw| && 0 < s && 0 < half && |before| == |now| == s * (2 * half)
    requires i == b * (2 * half) && i + 2 * half <= |before|
    requires now[i..] == before[i..]
    ensures GoalPair(tw, s, half, now, Crossed(tw, s, half, before), i, j)
  {
    hide Mul;
    if j < half {
      CrossedAt(tw, s, half, before, b, i, j);
      CrossedAt(tw, s, half, before, b, i, j + half);
      assert now[i + j] == now[i..][j] && now[i + j + half] == now[i..][j + half];
    }
  }

  lemma Spliced(before: seq<Complex>, goal: seq<Complex>, i: nat, len: nat)
    requires |before| == |goal| && i + len <= |goal|
    ensures var now := goal[..i] + before[i..];
            now[..i] + goal[i..i + len] + now[i + len..] == goal[..i + len] + before[i + len..]
    ensures (goal[..i] + before[i..])[i..] == before[i..]
  {
  }

  /** The middle loop, one stage: every block of length `len` is crossed. */
  method CrossStage(tw: seq<Complex>, buf: array<Complex>, len: nat, ghost s: nat)
    requires len >= 2 && len % 2 == 0 && s > 0 && s * len == buf.Length && (len / 2) * s == |tw|
    modifies buf
    ensures buf[..] == Crossed(tw, s, len / 2, old(buf[..]))
  {
    hide Mul, Butterfly, GoalPair, Crossed, BlockStart;
    ghost var before := buf[..];
    ghost var goal := Crossed(tw, s, len / 2, before);
    var i := 0;
    ghost var b: nat := 0;
    FirstBlock(len, s, buf.Length);
    while i < buf.Length
      invariant 0 <= i <= buf.Length && b <= s && BlockStart(b, i, len, s, buf.Length)
      invariant buf[..] == goal[..i] + before[i..]
      decreases s - b
    {
      NextBlock(b, i, len, s, buf.Length);
      Spliced(before, goal, i, len);
      forall j: nat ensures GoalPair(tw, s, len / 2, buf[..], goal, i, j) {
        CrossedPair(tw, s, len / 2, before, buf[..], b, i, j);
      }
      CrossBlock(tw, buf, len, i, s, goal);
      i := i + len;
      b := b + 1;
    }
  }

  /** Block `b` of `s` blocks of length `len` starts at `i`. */
  ghost predicate BlockStart(b: nat, i: nat, len: nat, s: nat, size: nat) {
    i == b * len && s * len == size
  }

  lemma FirstBlock(len: nat, s: nat, size: nat)
    requires s * len == size
    ensures BlockStart(0, 0, len, s, size)
  {
  }

  lemma NextBlock(b: nat, i: nat, len: nat, s: nat, size: nat)
    requires BlockStart(b, i, len, s, size) && i < size && len % 2 == 0
    ensures i == b * (2 * (len / 2))
    ensures b < s && i + len <= size && BlockStart(b + 1, i + len, len, s, size)
  {
    assert len == 2 * (len / 2);
    BlockFits(b, len, s);
  }

  lemma BlockFits(b: nat, len: nat, s: nat)
    requires b * len < s * len
    ensures b < s && (b + 1) * len == b * len + len <= s * len
  {
    if b >= s {
      MulMonotone(s, b, len);
    } else {
      MulMonotone(b + 1, s, len);
    }
  }

  lemma MulMonotone(a: nat, b: nat, n: nat)
    requires a <= b
    ensures a * n <= b * n
  {
    assert b * n == a * n + (b - a) * n;
  }

  // ----- the class

  /** A pass over transforms of `half` samples leaves transforms of `2*half` samples. */
  lemma FourierAdvance(r: RootTable, x: Signal, before: seq<Complex>, t: nat, s: nat, half: nat)
    requires r.Valid() && s == Pow2(t) && 0 < half && half * s == |r.tw|
    requires |before| == Pow2(r.d) == s * (2 * half)
    requires StageDone(Subs(r.Around(), x), before, t + 1, half)
    ensures StageDone(Subs(r.Around(), x), Crossed(r.tw, s, half, before), t, 2 * half)
  {
    hide Mul, SubDft, Crossed, StageDone, SplitsAt;
    TableSpansCircle(r);
    var c := r.Around();
    var w := (m: nat) => c.w(m);
    forall m: nat | m < |r.tw| ensures r.tw[m] == w(m) {
      TableRoot(r, m);
    }
    forall off: nat, k: nat ensures SplitsAt(Subs(c, x), w, off, s, half, k) {
      FourierSplits(c, x, w, off, s, half, k);
    }
    StageAdvance(Subs(c, x), w, r.tw, before, Crossed(r.tw, s, half, before), t, s, half);
  }

  /** The bit-reversal table. */
  ghost function Reversal(d: nat): seq<nat> {
    seq(Pow2(d), (i: nat) => Reverse(d, i))
  }

  /** The inner loop of the constructor: the bits of `i` below `size`, reversed. */
  method ReversedIndex(size: nat, i: nat, ghost d: nat) returns (j: nat)
    requires size == Pow2(d)
    ensures j == Reverse(d, i)
  {
    j := 0;
    var bit := 1;
    ghost var t := 0;
    while bit < size
      invariant t <= d && bit == Pow2(t) && j == Reverse(t, i)
      decreases d - t
    {
      j := 2 * j + (if (i / bit) % 2 == 1 then 1 else 0);
      bit := 2 * bit;
      t := t + 1;
    }
    Pow2Monotone(t, d);
  }

  /** The `len` samples of each block are transformed, `2^t` blocks in all. */
  ghost predicate Progress(r: RootTable, x: Signal, buf: seq<Complex>, t: nat, half: nat)
    requires r.Valid()
  {
    && half > 0 && |buf| == Pow2(r.d) && Factors(t, half, |buf|)
    && StageDone(Subs(r.Around(), x), buf, t, half)
  }

  lemma ProgressStart(r: RootTable, x: Signal)
    requires r.Valid()
    ensures Progress(r, x, Shuffled(r.d, x), r.d, 1)
  {
    TableSpansCircle(r);
    StageStart(r.Around(), x);
  }

  lemma ProgressEnd(r: RootTable, x: Signal, buf: seq<Complex>, t: nat, half: nat)
    requires r.Valid() && Progress(r, x, buf, t, half) && 2 * half > |buf|
    ensures buf == Spectrum(r.Around(), x)
  {
    hide StageDone, Spectrum;
    StageSizes(t, half, 2 * half, |buf|);
    StageEnd(r.Around(), x, buf);
  }

  /** The body of the outer loop. */
  method Pass(tw: seq<Complex>, buf: array<Complex>, len: nat, ghost d: nat, ghost x: Signal, ghost t: nat)
    requires RootTable(d, tw).Valid() && len % 2 == 0 && len <= buf.Length
    requires Progress(RootTable(d, tw), x, buf[..], t, len / 2)
    modifies buf
    ensures t > 0 && Progress(RootTable(d, tw), x, buf[..], t - 1, len)
  {
    hide Mul, StageDone, Crossed, Factors, Pow2;
    StageSizes(t, len / 2, len, buf.Length);
    FourierAdvance(RootTable(d, tw), x, buf[..], t - 1, Pow2(t - 1), len / 2);
    CrossStage(tw, buf, len, Pow2(t - 1));
  }

  /** The outer loop, shared by both directions: it turns shuffled samples into their spectrum. */
  method Network(tw: seq<Complex>, buf: array<Complex>, ghost d: nat, ghost x: Signal)
    requires RootTable(d, tw).Valid()
    requires buf[..] == Shuffled(d, x)
    modifies buf
    ensures buf[..] == Spectrum(RootTable(d, tw).Around(), x)
  {
    hide Progress, Spectrum, Shuffled, Pow2;
    ghost var r := RootTable(d, tw);
    ghost var t: nat := d;
    ProgressStart(r, x);
    var len: nat := 2;
    while len <= buf.Length
      invariant len % 2 == 0 && Progress(r, x, buf[..], t, len / 2)
      decreases t
    {
      Pass(tw, buf, len, d, x, t);
      len := 2 * len;
      t := t - 1;
    }
    ProgressEnd(r, x, buf[..], t, len / 2);
  }

  /** The first loop of the inverse. */
  method ShuffleConjugate(rev: seq<nat>, input: array<Complex>, buf: array<Complex>, ghost d: nat)
    requires rev == Reversal(d) && input.Length == buf.Length == Pow2(d) && input != buf
    modifies buf
    ensures buf[..] == Shuffled(d, Conjugated(AsSignal(input[..])))
  {
    hide Reverse, Pow2, Conj;
    ghost var bins := AsSignal(input[..]);
    for i := 0 to buf.Length
      invariant forall k: nat :: k < i ==> buf[k] == Conj(bins(Reverse(d, k)))
    {
      ReverseBound(d, i);
      buf[i] := Conj(input[rev[i]]);
    }
    assert buf[..] == Shuffled(d, Conjugated(bins));
  }

  ghost function Scaled(buf: seq<Complex>, inv: real): seq<real> {
    seq(|buf|, (i: nat) requires i < |buf| => Conj(buf[i]).re * inv)
  }

  /** The last loop of the inverse. */
  method Scale(buf: array<Complex>, output: array<real>, inv: real)
    requires buf.Length == output.Length
    modifies output
    ensures output[..] == Scaled(buf[..], inv)
  {
    ghost var goal := Scaled(buf[..], inv);
    for i := 0 to buf.Length
      invariant buf[..] == old(buf[..])
      invariant forall k: nat :: k < i ==> output[k] == goal[k]
    {
      assert goal[i] == Conj(buf[..][i]).re * inv;
      output[i] := Conj(buf[i]).re * inv;
    }
  }

  class FFT {
    const size: nat
    var rev: seq<nat>
    var twiddle: seq<Complex>
    ghost const d: nat

    ghost predicate Valid()
      reads this
    {
      && size == Pow2(d)
      && rev == Reversal(d)
      && RootTable(d, twiddle).Valid()
    }

    /** The circle of roots that the twiddle table spans. */
    ghost function Roots(): Circle
      requires Valid()
      reads this
    {
      RootTable(d, twiddle).Around()
    }

    /** `root(i)` stands for the exact `cos` and `sin` of `-2*pi*i/size`. */
    constructor (size: nat, root: nat -> Complex, ghost d: nat)
      requires size == Pow2(d)
      requires RootTable(d, seq(size / 2, (i: nat) => root(i))).Valid()
      ensures Valid()
      ensures this.size == size && this.d == d
      ensures twiddle == seq(size / 2, (i: nat) => root(i))
    {
      this.size := size;
      this.d := d;
      rev := seq(size, (i: nat) => 0);
      twiddle := seq(size / 2, (i: nat) => ZERO);
      new;
      for i := 0 to size
        invariant |rev| == size && |twiddle| == size / 2
        invariant forall k: nat :: k < i ==> rev[k] == Reverse(d, k)
      {
        rev := rev[i := i];
        var j := ReversedIndex(size, i, d);
        rev := rev[i := j];
      }
      assert rev == Reversal(d);
      for i := 0 to size / 2
        invariant rev == Reversal(d) && |twiddle| == size / 2
        invariant forall k: nat :: k < i ==> twiddle[k] == root(k)
      {
        twiddle := twiddle[i := root(i)];
      }
      assert twiddle == seq(size / 2, (i: nat) => root(i));
    }

    /** The spectrum of a real input: every bin is its defining Fourier sum. */
    method Forward(input: array<real>, output: array<Complex>)
      requires Valid() && input.Length == output.Length == size
      modifies output
      ensures output[..] == Spectrum(Roots(), RealSignal(input[..]))
    {
      ghost var x := RealSignal(input[..]);
      for i := 0 to size
        invariant forall k: nat :: k < i ==> output[k] == x(Reverse(d, k))
      {
        ReverseBound(d, i);
        output[i] := FromReal(input[rev[i]]);
      }
      assert output[..] == Shuffled(d, x);
      Network(twiddle, output, d, x);
    }

    /** The inverse, run through the same network between two conjugations. */
    method Inverse(input: array<Complex>, output: array<real>)
      requires Valid() && input.Length == output.Length == size
      modifies output
      ensures output[..] == Synthesis(Roots(), AsSignal(input[..]))
    {
      hide Mul, Dft, Spectrum, Synthesis, Scaled;
      ghost var bins := AsSignal(input[..]);
      var buf := new Complex[size];
      ShuffleConjugate(rev, input, buf, d);
      Network(twiddle, buf, d, Conjugated(bins));
      TableSpansCircle(RootTable(d, twiddle));
      var inv := 1.0 / size as real;
      Scale(buf, output, inv);
      SynthesisByConjugation(Roots(), bins, inv);
    }

    /** Analysis followed by synthesis: every real buffer comes back unchanged, also in place. */
    method ForwardThenInverse(input: array<real>, spectrum: array<Complex>, output: array<real>)
      requires Valid() && input.Length == spectrum.Length == output.Length == size
      modifies spectrum, output
      ensures output[..] == old(input[..])
    {
      hide Mul, Dft, Spectrum, Synthesis;
      TableSpansCircle(RootTable(d, twiddle));
      Forward(input, spectrum);
      Inverse(spectrum, output);
      SynthesisOfSpectrum(Roots(), old(input[..]));
    }
  }

  /** Conjugating around the network and dividing by the size is the inverse transform. */
  lemma SynthesisByConjugation(c: Circle, bins: Signal, inv: real)
    requires c.Valid() && inv == 1.0 / c.Size() as real
    ensures Scaled(Spectrum(c, Conjugated(bins)), inv) == Synthesis(c, bins)
  {
    hide Sum;
    var halfway := Spectrum(c, Conjugated(bins));
    forall i: nat | i < c.Size() ensures Scaled(halfway, inv)[i] == Synthesis(c, bins)[i] {
      InverseByConjugation(c, bins, i);
      assert halfway[i] == Dft(c, Conjugated(bins), i);
      OverSize(InverseSum(c, bins, i).re, c.Size() as real);
    }
  }

  lemma OverSize(z: real, n: real)
    requires n > 0.0
    ensures z / n == z * (1.0 / n)
  {
  }

  /** `2^t` blocks of `half` samples make up the buffer. */
  ghost predicate Factors(t: nat, half: nat, size: nat) {
    Pow2(t) * half == size
  }

  lemma StageSizes(t: nat, half: nat, len: nat, size: nat)
    requires Factors(t, half, size) && half > 0 && len == 2 * half
    ensures t == 0 ==> half == size
    ensures t > 0 ==>
      && Pow2(t - 1) * (2 * half) == size && Pow2(t - 1) * len == size
      && half * Pow2(t - 1) == size / 2 && (len / 2) * Pow2(t - 1) == size / 2
      && len <= size && Factors(t - 1, len, size)
  {
    if t > 0 {
      DoubledFactor(Pow2(t - 1), half);
    }
  }

  lemma DoubledFactor(s: nat, half: nat)
    requires s > 0
    ensures (2 * s) * half == s * (2 * half) == 2 * (half * s)
    ensures 2 * half <= s * (2 * half)
  {
    AtLeastOnce(s, 2 * half);
  }

  lemma AtLeastOnce(s: nat, h: nat)
    requires s > 0
    ensures h <= s * h
  {
  }
}
