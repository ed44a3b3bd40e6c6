/**
  Element-level helpers shared by both vector implementations: the
  zero padding a vector gets when fewer components than its dimension
  are given, and the gather/scatter a swizzle performs on its parent's
  elements through an index list.
 */
module Elements {

  /** `n` zeros: what `T(0)` fills the unset tail of a vector with. */
  function Zeros(n: nat): (r: seq<int>)
    ensures |r| == n
    ensures forall i :: 0 <= i < n ==> r[i] == 0
  {
    seq(n, _ => 0)
  }

  /** Every index addresses an element of a parent of `n` elements. */
  predicate InRange(indices: seq<int>, n: int) {
    forall k :: 0 <= k < |indices| ==> 0 <= indices[k] < n
  }

  /** No parent element is addressed twice. */
  predicate Distinct(indices: seq<int>) {
    forall i, j :: 0 <= i < j < |indices| ==> indices[i] != indices[j]
  }

  /** The swizzled read: element k is the parent's element `indices[k]`. */
  function Gather(s: seq<int>, indices: seq<int>): (r: seq<int>)
    requires InRange(indices, |s|)
    ensures |r| == |indices|
    ensures forall k :: 0 <= k < |r| ==> r[k] in s
  {
    seq(|indices|, k requires 0 <= k < |indices| => s[indices[k]])
  }

  /**
    The swizzled write: `vals[k]` is stored at `indices[k]`, one write
    after another for k ascending, so the last write to a position wins.
   */
  function Scatter(s: seq<int>, indices: seq<int>, vals: seq<int>): (r: seq<int>)
    requires InRange(indices, |s|) && |vals| == |indices|
    ensures |r| == |s|
    decreases |indices|
  {
    if indices == [] then s
    else
      var n := |indices| - 1;
      Scatter(s, indices[..n], vals[..n])[indices[n] := vals[n]]
  }

  /** A position no index names keeps its value. */
  lemma {:induction false} ScatterOutside(s: seq<int>, indices: seq<int>, vals: seq<int>, p: int)
    requires InRange(indices, |s|) && |vals| == |indices|
    requires 0 <= p < |s| && p !in indices
    ensures Scatter(s, indices, vals)[p] == s[p]
    decreases |indices|
  {
    if indices != [] {
      var n := |indices| - 1;
      assert indices[n] in indices;
      ScatterOutside(s, indices[..n], vals[..n], p);
    }
  }

  /** With distinct indices, position `indices[k]` ends up holding `vals[k]`. */
  lemma {:induction false} ScatterAt(s: seq<int>, indices: seq<int>, vals: seq<int>, k: int)
    requires InRange(indices, |s|) && |vals| == |indices| && Distinct(indices)
    requires 0 <= k < |indices|
    ensures Scatter(s, indices, vals)[indices[k]] == vals[k]
    decreases |indices|
  {
    var n := |indices| - 1;
    if k < n {
      assert indices[k] != indices[n];
      assert indices[..n][k] == indices[k];
      ScatterAt(s, indices[..n], vals[..n], k);
    }
  }

  /** Reading back through the same distinct indices returns what was written. */
  lemma GatherScatter(s: seq<int>, indices: seq<int>, vals: seq<int>)
    requires InRange(indices, |s|) && |vals| == |indices| && Distinct(indices)
    ensures Gather(Scatter(s, indices, vals), indices) == vals
  {
    var r := Scatter(s, indices, vals);
    forall k | 0 <= k < |indices|
      ensures Gather(r, indices)[k] == vals[k]
    {
      ScatterAt(s, indices, vals, k);
    }
  }

  /** Writing back what was read through any index list changes nothing. */
  lemma {:induction false} ScatterGather(s: seq<int>, indices: seq<int>)
    requires InRange(indices, |s|)
    ensures Scatter(s, indices, Gather(s, indices)) == s
    decreases |indices|
  {
    if indices != [] {
      var n := |indices| - 1;
      assert Gather(s, indices)[..n] == Gather(s, indices[..n]);
      ScatterGather(s, indices[..n]);
    }
  }

  /** Scattering through `[0, 1, 2]` overwrites a three-element sequence in order. */
  lemma ScatterIdentity(a: seq<int>, vals: seq<int>)
    requires |a| == 3 && |vals| == 3
    ensures Scatter(a, [0, 1, 2], vals) == vals
  {
    var idx := [0, 1, 2];
    assert idx[..2] == [0, 1] && idx[..2][..1] == [0] && idx[..2][..1][..0] == [];
    assert Scatter(a, [0], vals[..2][..1]) == a[0 := vals[0]];
    assert Scatter(a, [0, 1], vals[..2]) == a[0 := vals[0]][1 := vals[1]];
  }
}
