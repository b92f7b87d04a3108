/**
 What does not depend on the order of a sequence.
 */
module Permutations {

  /** `f` of the elements that satisfy `p`, in order. */
  function Collect<T, U>(p: T -> bool, f: T -> U, s: seq<T>): seq<U> {
    if s == [] then []
    else
      var last := s[|s| - 1];
      Collect(p, f, s[..|s| - 1]) + if p(last) then [f(last)] else []
  }

  lemma {:induction false} CollectConcat<T, U>(p: T -> bool, f: T -> U, a: seq<T>, b: seq<T>)
    ensures Collect(p, f, a + b) == Collect(p, f, a) + Collect(p, f, b)
  {
    if b == [] {
      assert a + b == a;
    } else {
      var n := |b| - 1;
      CollectConcat(p, f, a, b[..n]);
      assert (a + b)[..|a + b| - 1] == a + b[..n];
    }
  }

  lemma CollectOne<T, U>(p: T -> bool, f: T -> U, x: T)
    ensures Collect(p, f, [x]) == if p(x) then [f(x)] else []
  {
    assert Collect(p, f, [x][..0]) == [];
  }

  /** Taking the element at `k` out of a sequence. */
  lemma CollectWithout<T, U>(p: T -> bool, f: T -> U, s: seq<T>, k: nat)
    requires k < |s|
    ensures multiset(Collect(p, f, s))
         == multiset(Collect(p, f, s[..k] + s[k + 1..])) + if p(s[k]) then multiset{f(s[k])} else multiset{}
  {
    hide Collect;
    var x, a, b := s[k], s[..k], s[k + 1..];
    assert s == a + [x] + b;
    CollectConcat(p, f, a + [x], b);
    CollectConcat(p, f, a, [x]);
    CollectConcat(p, f, a, b);
    CollectOne(p, f, x);
    var ca, cx, cb := Collect(p, f, a), Collect(p, f, [x]), Collect(p, f, b);
    assert multiset(ca + cx + cb) == multiset(ca) + multiset(cx) + multiset(cb);
    assert multiset(ca + cb) == multiset(ca) + multiset(cb);
  }

  lemma Without<T>(s: seq<T>, k: nat)
    requires k < |s|
    ensures multiset(s[..k] + s[k + 1..]) == multiset(s) - multiset{s[k]}
  {
    var a, b := s[..k], s[k + 1..];
    assert s == a + [s[k]] + b;
    assert multiset(s) == multiset(a) + multiset{s[k]} + multiset(b);
    assert multiset(a + b) == multiset(a) + multiset(b);
  }

  /** Collecting from a permutation gives a permutation. */
  lemma {:induction false} CollectPermutation<T, U>(p: T -> bool, f: T -> U, a: seq<T>, b: seq<T>)
    requires multiset(a) == multiset(b)
    ensures multiset(Collect(p, f, a)) == multiset(Collect(p, f, b))
    decreases |a|
  {
    if a == [] {
      assert |b| == |multiset(b)| == 0;
    } else {
      var n := |a| - 1;
      assert a[n] in multiset(a);
      assert a[n] in b;
      var k :| 0 <= k < |b| && b[k] == a[n];
      var a', b' := a[..n] + a[n + 1..], b[..k] + b[k + 1..];
      Without(a, n);
      Without(b, k);
      CollectPermutation(p, f, a', b');
      CollectWithout(p, f, a, n);
      CollectWithout(p, f, b, k);
    }
  }

  function Count<T>(p: T -> bool, s: seq<T>): nat {
    if s == [] then 0 else Count(p, s[..|s| - 1]) + if p(s[|s| - 1]) then 1 else 0
  }

  lemma {:induction false} CountIsLength<T>(p: T -> bool, s: seq<T>)
    ensures Count(p, s) == |Collect(p, (x: T) => x, s)|
  {
    if s != [] {
      CountIsLength(p, s[..|s| - 1]);
    }
  }

  lemma CountPermutation<T>(p: T -> bool, a: seq<T>, b: seq<T>)
    requires multiset(a) == multiset(b)
    ensures Count(p, a) == Count(p, b)
  {
    CountIsLength(p, a);
    CountIsLength(p, b);
    CollectPermutation(p, (x: T) => x, a, b);
    assert |multiset(Collect(p, (x: T) => x, a))| == |multiset(Collect(p, (x: T) => x, b))|;
  }

  lemma {:induction false} CountConcat<T>(p: T -> bool, a: seq<T>, b: seq<T>)
    ensures Count(p, a + b) == Count(p, a) + Count(p, b)
  {
    if b == [] {
      assert a + b == a;
    } else {
      var n := |b| - 1;
      CountConcat(p, a, b[..n]);
      assert (a + b)[..|a + b| - 1] == a + b[..n];
    }
  }

  /** A weaker test counts at least as much. */
  lemma {:induction false} CountMonotone<T>(p: T -> bool, q: T -> bool, s: seq<T>)
    requires forall i :: 0 <= i < |s| && p(s[i]) ==> q(s[i])
    ensures Count(p, s) <= Count(q, s)
  {
    if s != [] {
      CountMonotone(p, q, s[..|s| - 1]);
    }
  }

  lemma {:induction false} CountNone<T>(p: T -> bool, s: seq<T>)
    requires forall i :: 0 <= i < |s| ==> !p(s[i])
    ensures Count(p, s) == 0
  {
    if s != [] {
      CountNone(p, s[..|s| - 1]);
    }
  }

  function Total<T>(f: T -> int, s: seq<T>): int {
    if s == [] then 0 else Total(f, s[..|s| - 1]) + f(s[|s| - 1])
  }

  lemma {:induction false} TotalConcat<T>(f: T -> int, a: seq<T>, b: seq<T>)
    ensures Total(f, a + b) == Total(f, a) + Total(f, b)
  {
    if b == [] {
      assert a + b == a;
    } else {
      var n := |b| - 1;
      TotalConcat(f, a, b[..n]);
      assert (a + b)[..|a + b| - 1] == a + b[..n];
    }
  }

  lemma TotalWithout<T>(f: T -> int, s: seq<T>, k: nat)
    requires k < |s|
    ensures Total(f, s) == Total(f, s[..k] + s[k + 1..]) + f(s[k])
  {
    var x, a, b := s[k], s[..k], s[k + 1..];
    assert s == a + [x] + b;
    TotalConcat(f, a + [x], b);
    TotalConcat(f, a, [x]);
    TotalConcat(f, a, b);
    assert Total(f, [x]) == Total(f, [x][..0]) + f(x);
  }

  /** Sums do not depend on the order. */
  lemma {:induction false} TotalPermutation<T>(f: T -> int, a: seq<T>, b: seq<T>)
    requires multiset(a) == multiset(b)
    ensures Total(f, a) == Total(f, b)
    decreases |a|
  {
    if a == [] {
      assert |b| == |multiset(b)| == 0;
    } else {
      var n := |a| - 1;
      assert a[n] in multiset(a);
      assert a[n] in b;
      var k :| 0 <= k < |b| && b[k] == a[n];
      Without(a, n);
      Without(b, k);
      TotalPermutation(f, a[..n] + a[n + 1..], b[..k] + b[k + 1..]);
      TotalWithout(f, a, n);
      TotalWithout(f, b, k);
    }
  }
}
