/**
 Strictly increasing sequences: the keys of an ordered map, or a sorted list of
 distinct indices.
 */
module Ordered {

  ghost predicate Increasing(ticks: seq<nat>) {
    forall i, j :: 0 <= i < j < |ticks| ==> ticks[i] < ticks[j]
  }

  /** The place of a key in an ordered map. */
  method InsertKey(keys: seq<nat>, key: nat) returns (r: seq<nat>)
    requires Increasing(keys)
    ensures Increasing(r)
    ensures forall t: nat :: t in r <==> t in keys || t == key
  {
    var k := 0;
    while k < |keys| && keys[k] < key
      invariant 0 <= k <= |keys|
      invariant forall j :: 0 <= j < k ==> keys[j] < key
    {
      k := k + 1;
    }
    if k < |keys| && keys[k] == key {
      return keys;
    }
    r := Between(keys, k, key);
  }

  /** A key between the smaller and the larger ones. */
  method Between(keys: seq<nat>, k: nat, key: nat) returns (r: seq<nat>)
    requires Increasing(keys) && k <= |keys|
    requires (forall j :: 0 <= j < k ==> keys[j] < key) && (k < |keys| ==> key < keys[k])
    ensures Increasing(r)
    ensures forall t: nat :: t in r <==> t in keys || t == key
  {
    var low, high := keys[..k], keys[k..];
    r := low + [key] + high;
    assert keys == low + high;
    assert forall j :: 0 <= j < |high| ==> high[j] == keys[k + j] >= keys[k];
  }

  /** Increasing sequences with the same members are equal. */
  lemma {:induction false} IncreasingUnique(a: seq<nat>, b: seq<nat>)
    requires Increasing(a) && Increasing(b) && forall t: nat :: t in a <==> t in b
    ensures a == b
    decreases |a|
  {
    if |b| > 0 {
      assert b[|b| - 1] in b;
    }
    if a != [] {
      assert a[|a| - 1] in b;
      assert b[|b| - 1] in a;
      var a', b' := a[..|a| - 1], b[..|b| - 1];
      assert a[|a| - 1] == b[|b| - 1];
      assert a == a' + [a[|a| - 1]] && b == b' + [b[|b| - 1]];
      forall t: nat ensures t in a' <==> t in b' {
        assert t in a <==> t in b;
      }
      IncreasingUnique(a', b');
    }
  }
}
