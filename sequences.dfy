/** Sequence helpers for the database cursor operations (sort, skip, limit) and
    Python's in-place `list.reverse`. */
module Sequences {

  function Min(a: int, b: int): (m: int)
  {
    if a <= b then a else b
  }

  /** `s` in the opposite order. */
  function Reversed<T>(s: seq<T>): (r: seq<T>)
    ensures |r| == |s|
  {
    if s == [] then [] else Reversed(s[1..]) + [s[0]]
  }

  lemma {:induction false} ReversedIndex<T>(s: seq<T>, k: nat)
    requires k < |s|
    ensures Reversed(s)[k] == s[|s| - 1 - k]
  {
    if k < |s| - 1 {
      ReversedIndex(s[1..], k);
    }
  }

  lemma ReversedIndices<T>(s: seq<T>)
    ensures forall k :: 0 <= k < |s| ==> Reversed(s)[k] == s[|s| - 1 - k]
  {
    forall k | 0 <= k < |s|
      ensures Reversed(s)[k] == s[|s| - 1 - k]
    {
      ReversedIndex(s, k);
    }
  }

  /** The cursor's `limit(n)`: the first `n` elements, or all of them if fewer. */
  function Take<T>(s: seq<T>, n: nat): (r: seq<T>)
    ensures |r| == Min(n, |s|)
    ensures forall i :: 0 <= i < |r| ==> r[i] == s[i]
  {
    if n <= |s| then s[..n] else s
  }

  /** The cursor's `skip(n)`: everything after the first `n` elements. */
  function Drop<T>(s: seq<T>, n: nat): (r: seq<T>)
    ensures |r| == |s| - Min(n, |s|)
    ensures forall i :: 0 <= i < |r| ==> r[i] == s[n + i]
  {
    if n <= |s| then s[n..] else []
  }

  /** Taking the first `k` of the reversed sequence and reversing them back
      gives the last `k` elements in their original order. */
  lemma {:induction false} ReversedTakeReversed<T>(s: seq<T>, n: nat)
    ensures Reversed(Take(Reversed(s), n)) == s[|s| - Min(n, |s|)..]
  {
    var k := Min(n, |s|);
    var t := Take(Reversed(s), n);
    var u := s[|s| - k..];
    assert |t| == k;
    forall i | 0 <= i < k
      ensures Reversed(t)[i] == u[i]
    {
      ReversedIndex(t, i);
      assert t[k - 1 - i] == Reversed(s)[k - 1 - i];
      ReversedIndex(s, k - 1 - i);
    }
  }

  /** skip followed by limit is one contiguous slice. */
  lemma TakeDropIsSlice<T>(s: seq<T>, skip: nat, limit: nat)
    ensures Take(Drop(s, skip), limit) == s[Min(skip, |s|)..Min(skip + limit, |s|)]
  {
  }

  /** Python's `list.reverse()`: reverses the array in place. */
  method ReverseInPlace<T>(a: array<T>)
    modifies a
    ensures a[..] == Reversed(old(a[..]))
  {
    var lo, hi := 0, a.Length - 1;
    while lo < hi
      invariant 0 <= lo && hi == a.Length - 1 - lo && lo <= a.Length / 2
      invariant forall k :: lo <= k <= hi ==> a[k] == old(a[k])
      invariant forall k :: 0 <= k < lo ==> a[k] == old(a[a.Length - 1 - k]) && a[a.Length - 1 - k] == old(a[k])
    {
      a[lo], a[hi] := a[hi], a[lo];
      lo, hi := lo + 1, hi - 1;
    }
    ghost var before := old(a[..]);
    forall k | 0 <= k < a.Length
      ensures a[..][k] == Reversed(before)[k]
    {
      ReversedIndex(before, k);
    }
  }
}
