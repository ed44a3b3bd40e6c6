/**
  The vector and swizzle classes of include/Mathter/Vector/VectorImpl.hpp
  with integer elements. Constructors flatten their arguments with
  `AsTuple` before storing anything; a `Swizzle` is a view over its
  parent's array, and its assignment from a vector writes through the
  swizzle's own `operator[]`.
 */
module IncludeVectorImpl {
  import opened Elements

  /**
    The SIMD padding rule: an unpacked vector of 3 elements is padded to
    4, one of 6 or 7 elements to 8; every other size, and every packed
    vector, keeps its dimension.
   */
  function ExtendedDim(dim: int, packed: bool): (r: int)
    ensures r >= dim
    ensures packed ==> r == dim
    ensures !packed && dim == 3 ==> r == 4
    ensures !packed && (dim == 6 || dim == 7) ==> r == 8
    ensures r != dim ==> !packed && (dim == 3 || dim == 6 || dim == 7)
  {
    if !packed && dim == 3 then 4
    else if !packed && (dim == 6 || dim == 7) then 8
    else dim
  }

  /** A padded size is padded no further. */
  lemma ExtendedDimIdempotent(dim: int, packed: bool)
    ensures ExtendedDim(ExtendedDim(dim, packed), packed) == ExtendedDim(dim, packed)
  {
  }

  /** `Vector<T, Dim, Packed>`: `data` is the element array, `dim` is `Dim`. */
  class Vector {
    const dim: int
    const packed: bool
    const data: array<int>

    /** The `static_assert`: a positive dimension, and one array slot per dimension. */
    ghost predicate Valid() {
      dim >= 1 && data.Length == dim
    }

    function Dimension(): (r: int)
      requires Valid()
      ensures r >= 1 && r == data.Length
    {
      dim
    }

    /** The converting constructor: element `i` is `other.data[i]` cast to `T`. */
    constructor Convert(other: Vector, packed: bool)
      requires other.Valid()
      ensures Valid() && fresh(data) && dim == other.dim && this.packed == packed
      ensures data[..] == other.data[..]
    {
      dim, this.packed := other.dim, packed;
      data := new int[other.dim];
      new;
      var i := 0;
      while i < dim
        invariant 0 <= i <= dim
        invariant forall j :: 0 <= j < i ==> data[j] == other.data[j]
      {
        data[i] := other.data[i];
        i := i + 1;
      }
    }

    /** `Vector(const U* data)`: `std::copy` of exactly `Dimension()` elements. */
    constructor FromArray(dim: int, packed: bool, p: array<int>)
      requires dim >= 1 && p.Length >= dim
      ensures Valid() && fresh(data) && this.dim == dim && this.packed == packed
      ensures data[..] == p[..dim]
    {
      this.dim, this.packed := dim, packed;
      data := new int[dim];
      new;
      forall i | 0 <= i < dim {
        data[i] := p[i];
      }
    }

    /** `Vector(T all)`: `std::fill`, or a batch store of `all`; every element is `all`. */
    constructor Fill(dim: int, packed: bool, all: int)
      requires dim >= 1
      ensures Valid() && fresh(data) && this.dim == dim && this.packed == packed
      ensures forall i :: 0 <= i < dim ==> data[i] == all
    {
      this.dim, this.packed := dim, packed;
      data := new int[dim];
      new;
      forall i | 0 <= i < dim {
        data[i] := all;
      }
    }

    /**
      The mixed constructor (more than one argument): `data` is assigned
      the braced list of all flattened components, so a shorter list
      leaves the remaining elements zero.
     */
    constructor Mixed(dim: int, packed: bool, args: seq<Arg>)
      requires dim >= 1 && |args| > 1 && ArgsValid(args) && TotalWidth(args) <= dim
      ensures Valid() && fresh(data) && this.dim == dim && this.packed == packed
      ensures data[..] == Flatten(args) + Zeros(dim - TotalWidth(args))
    {
      this.dim, this.packed := dim, packed;
      var scalars := Flatten(args);
      FootprintAllocated(args);
      data := new int[dim];
      new;
      Store(scalars);
    }

    /** Homogeneous upcast, delegating to `Vector(rhs, 1)`: the elements of `rhs`, then 1. */
    constructor Upcast(rhs: Vector, packed: bool)
      requires rhs.Valid()
      ensures Valid() && fresh(data) && dim == rhs.dim + 1 && this.packed == packed
      ensures data[..] == rhs.data[..] + [1]
    {
      dim, this.packed := rhs.dim + 1, packed;
      var args := [VectorArg(rhs), Scalar(1)];
      assert args[1..] == [Scalar(1)] && args[1..][1..] == [];
      assert Flatten(args[1..][1..]) == [];
      assert TotalWidth(args[1..]) == 1 && Flatten(args[1..]) == [1];
      var scalars := Flatten(args);
      assert scalars == rhs.data[..] + [1];
      data := new int[rhs.dim + 1];
      new;
      Store(scalars);
    }

    /** Homogeneous downcast, delegating to `Vector(rhs.Data())`: all but the last element. */
    constructor Downcast(rhs: Vector, packed: bool)
      requires rhs.Valid() && rhs.dim >= 2
      ensures Valid() && fresh(data) && dim == rhs.dim - 1 && this.packed == packed
      ensures data[..] == rhs.data[..rhs.dim - 1]
    {
      dim, this.packed := rhs.dim - 1, packed;
      data := new int[rhs.dim - 1];
      new;
      forall i | 0 <= i < dim {
        data[i] := rhs.data[i];
      }
    }

    /** `this->data = { T(args)... }`: the listed values first, zeros after them. */
    method Store(s: seq<int>)
      requires Valid() && |s| <= dim
      modifies data
      ensures data[..] == s + Zeros(dim - |s|)
    {
      forall i | 0 <= i < dim {
        data[i] := if i < |s| then s[i] else 0;
      }
    }
  }

  /**
    `Swizzle<T, Dim, Packed, Indices...>` over the parent vector's array;
    `Dim` is `parent.Length`, `Packed` is `packed` and `IndexTable` is
    `indices`.
   */
  class Swizzle {
    const parent: array<int>
    const packed: bool
    const indices: seq<int>

    /** Every index addresses an element of the parent. */
    ghost predicate Valid() {
      InRange(indices, parent.Length)
    }

    constructor (parent: array<int>, packed: bool, indices: seq<int>)
      ensures this.parent == parent && this.packed == packed && this.indices == indices
    {
      this.parent, this.packed, this.indices := parent, packed, indices;
    }

    /** `operator[]` / `operator()` for reading: `data()[IndexTable[idx]]`. */
    function Get(idx: int): (r: int)
      reads parent
      requires Valid() && 0 <= idx < |indices|
      ensures r == Gather(parent[..], indices)[idx]
    {
      parent[indices[idx]]
    }

    /** `operator[]` / `operator()` for writing: the reference is `data()[IndexTable[idx]]`. */
    method SetAt(idx: int, x: int)
      requires Valid() && 0 <= idx < |indices|
      modifies parent
      ensures parent[..] == old(parent[..])[indices[idx] := x]
      ensures Get(idx) == x
    {
      parent[indices[idx]] := x;
    }

    /**
      The conversion operator to `Vector<T2, sizeof...(Indices), Packed2>`:
      `V(data()[Indices]...)`, which is the fill constructor for a single
      index and the mixed constructor otherwise.
     */
    method Convert(packed: bool) returns (v: Vector)
      requires Valid() && |indices| >= 1
      ensures fresh(v) && v.Valid() && v.dim == |indices| && v.packed == packed
      ensures v.data[..] == Gather(parent[..], indices)
    {
      var n := |indices|;
      var values := Gather(parent[..], indices);
      if n == 1 {
        v := new Vector.Fill(1, packed, values[0]);
      } else {
        var args := Scalars(values);
        TotalWidthScalars(values);
        v := new Vector.Mixed(n, packed, args);
        FlattenScalars(values);
      }
    }

    /**
      `ToVector<Packed>()`, which builds `Vector<T, Dim, Packed>` from the
      swizzle: it only compiles when the swizzle has as many indices as
      its parent has elements.
     */
    method ToVector(packed: bool) returns (v: Vector)
      requires Valid() && |indices| == parent.Length >= 1
      ensures fresh(v) && v.Valid() && v.dim == parent.Length && v.packed == packed
      ensures v.data[..] == Gather(parent[..], indices)
    {
      v := Convert(packed);
    }

    /**
      `operator=(const Vector&)` as written: `std::tie((*this)[Indices]...)
      = AsTuple(rhs)` goes through `operator[]`, so element k of `rhs`
      lands on `parent[IndexTable[Indices[k]]]`. Each `Indices[k]` must
      therefore also be a position in `IndexTable`. When `rhs` is the
      parent itself it is first copied to a temporary.
     */
    method AssignVector(rhs: Vector)
      requires Valid() && rhs.Valid() && rhs.dim == |indices| && InRange(indices, |indices|)
      modifies parent
      ensures parent[..] == Scatter(old(parent[..]), TableLookups(indices), old(rhs.data[..]))
      decreases if rhs.data == parent then 1 else 0
    {
      TableLookupsInRange(indices, parent.Length);
      if parent != rhs.data {
        var values := rhs.data[..];
        var targets := TableLookups(indices);
        var k := 0;
        while k < |indices|
          invariant 0 <= k <= |indices|
          invariant parent[..] == Scatter(old(parent[..]), targets[..k], values[..k])
        {
          assert targets[..k + 1][..k] == targets[..k] && values[..k + 1][..k] == values[..k];
          SetAt(indices[k], values[k]);
          k := k + 1;
        }
        assert targets[..|indices|] == targets && values[..|indices|] == values;
      } else {
        var tmp := new Vector.Convert(rhs, false);
        AssignVector(tmp);
      }
    }

    /**
      `operator=(const Vector&)` as its documentation states it: element
      k of `rhs` lands on `parent[Indices[k]]`, and an aliased `rhs` is
      read from a temporary.
     */
    method AssignVectorIntended(rhs: Vector)
      requires Valid() && rhs.Valid() && rhs.dim == |indices|
      modifies parent
      ensures parent[..] == Scatter(old(parent[..]), indices, old(rhs.data[..]))
    {
      var values := rhs.data[..];
      var k := 0;
      while k < |indices|
        invariant 0 <= k <= |indices|
        invariant parent[..] == Scatter(old(parent[..]), indices[..k], values[..k])
      {
        assert indices[..k + 1][..k] == indices[..k] && values[..k + 1][..k] == values[..k];
        parent[indices[k]] := values[k];
        k := k + 1;
      }
      assert indices[..|indices|] == indices && values[..|indices|] == values;
    }

    /** Whether `rhs` has this swizzle's own type `Swizzle<T, Dim, Packed, Indices...>`. */
    predicate SameType(rhs: Swizzle) {
      rhs.parent.Length == parent.Length && rhs.packed == packed && rhs.indices == indices
    }

    /**
      `a = rhs` for a swizzle `rhs` of as many indices. The class declares
      no copy assignment, so for `rhs` of the same type the implicit one,
      which has no member to copy, is chosen over the template, and the
      parent keeps its elements. Any other `rhs` goes through the template,
      `*this = Vector<T, sizeof...(Indices2), false>(rhs)`.
     */
    method AssignSwizzle(rhs: Swizzle)
      requires Valid() && rhs.Valid() && |rhs.indices| == |indices| >= 1
      requires !SameType(rhs) ==> InRange(indices, |indices|)
      modifies parent
      ensures SameType(rhs) ==> parent[..] == old(parent[..])
      ensures !SameType(rhs) ==> parent[..] == Scatter(old(parent[..]), TableLookups(indices), old(Gather(rhs.parent[..], rhs.indices)))
    {
      if !SameType(rhs) {
        var tmp := rhs.Convert(false);
        AssignVector(tmp);
      }
    }

    /**
      `a = rhs` as documented for every swizzle `rhs`, of the same type or
      not: element k of `rhs` lands on `parent[Indices[k]]`.
     */
    method AssignSwizzleIntended(rhs: Swizzle)
      requires Valid() && rhs.Valid() && |rhs.indices| == |indices| >= 1
      modifies parent
      ensures parent[..] == Scatter(old(parent[..]), indices, old(Gather(rhs.parent[..], rhs.indices)))
    {
      var tmp := rhs.Convert(false);
      AssignVectorIntended(tmp);
    }
  }

  /** `IndexTable[Indices[k]]` for every k: where the assignment really writes. */
  function TableLookups(indices: seq<int>): (r: seq<int>)
    requires InRange(indices, |indices|)
    ensures |r| == |indices|
    ensures forall k :: 0 <= k < |r| ==> r[k] in indices
  {
    seq(|indices|, k requires 0 <= k < |indices| => indices[indices[k]])
  }

  lemma TableLookupsInRange(indices: seq<int>, n: int)
    requires InRange(indices, |indices|) && InRange(indices, n)
    ensures InRange(TableLookups(indices), n)
  {
  }

  /**
    Where every index names its own table slot (`Indices[Indices[k]] ==
    Indices[k]`, as for `xyz`), the assignment as written does what its
    documentation says.
   */
  lemma AsWrittenAgreesOnFixedPoints(indices: seq<int>)
    requires InRange(indices, |indices|)
    requires forall k :: 0 <= k < |indices| ==> indices[indices[k]] == indices[k]
    ensures TableLookups(indices) == indices
  {
  }

  /**
    `b = {1,2,3}; a.yxz = b;` as written: the targets are `IndexTable[1],
    IndexTable[0], IndexTable[2]` = 0, 1, 2, so `a` becomes `{1,2,3}`.
   */
  lemma YxzAssignmentAsWritten(a: seq<int>)
    requires |a| == 3
    ensures TableLookups([1, 0, 2]) == [0, 1, 2]
    ensures Scatter(a, TableLookups([1, 0, 2]), [1, 2, 3]) == [1, 2, 3]
  {
    YxzTableLookups();
    ScatterIdentity(a, [1, 2, 3]);
  }

  lemma YxzTableLookups()
    ensures TableLookups([1, 0, 2]) == [0, 1, 2]
  {
    var t := TableLookups([1, 0, 2]);
    assert t[0] == 0 && t[1] == 1 && t[2] == 2;
  }

  /**
    `a = {1,2,3}; b = {4,5,6}; a.xyz = b.xyz;` for two unpacked 3-element
    vectors leaves `a = {1,2,3}`: both sides have the same swizzle type,
    so the implicit copy assignment is chosen. As documented, `a` would
    become `{4,5,6}`.
   */
  method SameTypeSwizzleAssign() returns (after: seq<int>, intended: seq<int>)
    ensures after == [1, 2, 3] && intended == [4, 5, 6]
  {
    var a := new int[3];
    a[0], a[1], a[2] := 1, 2, 3;
    var b := new int[3];
    b[0], b[1], b[2] := 4, 5, 6;
    var axyz := new Swizzle(a, false, [0, 1, 2]);
    var bxyz := new Swizzle(b, false, [0, 1, 2]);
    axyz.AssignSwizzle(bxyz);
    after := a[..];
    axyz.AssignSwizzleIntended(bxyz);
    intended := a[..];
    assert Gather(b[..], [0, 1, 2]) == [4, 5, 6];
    ScatterIdentity(after, [4, 5, 6]);
  }

  /**
    `a = {1,2,3,4}; b = {5,6,7,8}; a.zw = b.zw;` for two unpacked 4-element
    vectors leaves `a = {1,2,3,4}`: the implicit copy assignment is chosen
    again, so the index table, which `z` and `w` would overrun, is never
    read. As documented, `a` would become `{1,2,7,8}`.
   */
  method SameTypeSwizzleAssignPastTable() returns (after: seq<int>, intended: seq<int>)
    ensures after == [1, 2, 3, 4] && intended == [1, 2, 7, 8]
  {
    var a := new int[4];
    a[0], a[1], a[2], a[3] := 1, 2, 3, 4;
    var b := new int[4];
    b[0], b[1], b[2], b[3] := 5, 6, 7, 8;
    var azw := new Swizzle(a, false, [2, 3]);
    var bzw := new Swizzle(b, false, [2, 3]);
    azw.AssignSwizzle(bzw);
    after := a[..];
    azw.AssignSwizzleIntended(bzw);
    intended := a[..];
    assert Gather(b[..], [2, 3]) == [7, 8];
    assert [2, 3][..1] == [2] && [7, 8][..1] == [7];
  }

  /** `b = {1,2,3}; a.yxz = b;` as documented: `a` becomes `{2,1,3}`. */
  lemma YxzAssignmentIntended(a: seq<int>)
    requires |a| == 3
    ensures Scatter(a, [1, 0, 2], [1, 2, 3]) == [2, 1, 3]
  {
    assert [1, 0, 2][..2][..1] == [1] && [1, 2, 3][..2][..1] == [1];
    assert [1, 0, 2][..2] == [1, 0] && [1, 2, 3][..2] == [1, 2];
  }

  /**
    The accessors' check lets through an index past the swizzle's own
    table exactly when the swizzle is shorter than its parent: `v.xy[2]`
    on a 4-element vector passes `assert(2 < 4)` and reads past the
    two-entry `IndexTable`.
   */
  lemma AccessorCheckAdmitsOutOfTable(s: Swizzle)
    requires s.Valid()
    ensures (exists idx :: 0 <= idx && AccessorChecks(idx, s.parent.Length) && idx >= |s.indices|)
        <==> |s.indices| < s.parent.Length
  {
    if |s.indices| < s.parent.Length {
      assert AccessorChecks(|s.indices|, s.parent.Length);
    }
  }

  /**
    The same check refuses an index inside the table exactly when the
    swizzle is longer than its parent: `v.xxyy[3]` on a 2-element vector
    fails `assert(3 < 2)` although `IndexTable[3]` names element 1.
   */
  lemma AccessorCheckRejectsInTable(s: Swizzle)
    requires s.Valid()
    ensures (exists idx :: 0 <= idx < |s.indices| && !AccessorChecks(idx, s.parent.Length))
        <==> s.parent.Length < |s.indices|
  {
    if s.parent.Length < |s.indices| {
      assert !AccessorChecks(s.parent.Length, s.parent.Length);
    }
  }

  /** The check the accessors make, `assert(idx < Dim)`, against the parent's dimension. */
  predicate AccessorChecks(idx: int, parentDim: int) {
    idx < parentDim
  }

  // -----------------------------------------------------------------------
  // AsTuple and the mixed constructor's argument list
  // -----------------------------------------------------------------------

  /** Every array an argument list reads is already allocated. */
  lemma {:induction false} FootprintAllocated(args: seq<Arg>)
    ensures forall o :: o in Footprint(args) ==> allocated(o)
    decreases |args|
  {
    if args != [] {
      FootprintAllocated(args[1..]);
    }
  }

  // `Arg` and the functions over it mirror those of `VectorImpl`: each
  // header has its own `Vector` and `Swizzle`, so the two cannot share them.

  /** A scalar (by value), a vector or a swizzle argument (by reference). */
  datatype Arg = Scalar(value: int) | VectorArg(vec: Vector) | SwizzleArg(swz: Swizzle)

  ghost predicate ArgValid(a: Arg) {
    match a
    case Scalar(_) => true
    case VectorArg(v) => v.Valid()
    case SwizzleArg(s) => s.Valid()
  }

  ghost predicate ArgsValid(args: seq<Arg>) {
    forall i :: 0 <= i < |args| ==> ArgValid(args[i])
  }

  /** The size of `AsTuple(a)`. */
  function Width(a: Arg): int {
    match a
    case Scalar(_) => 1
    case VectorArg(v) => v.dim
    case SwizzleArg(s) => |s.indices|
  }

  function TotalWidth(args: seq<Arg>): (r: int)
    ensures ArgsValid(args) ==> r >= 0
    decreases |args|
  {
    if args == [] then 0 else Width(args[0]) + TotalWidth(args[1..])
  }

  /** The array an argument reads from. */
  function Storage(a: Arg): set<array<int>> {
    match a
    case Scalar(_) => {}
    case VectorArg(v) => {v.data}
    case SwizzleArg(s) => {s.parent}
  }

  function Footprint(args: seq<Arg>): set<array<int>>
    decreases |args|
  {
    if args == [] then {} else Storage(args[0]) + Footprint(args[1..])
  }

  /**
    The `AsTuple` overloads: a vector's elements in index order, a
    swizzle's element for each index, any other value on its own.
   */
  function AsTuple(a: Arg): (r: seq<int>)
    reads Storage(a)
    requires ArgValid(a)
    ensures |r| == Width(a)
  {
    match a
    case Scalar(x) => [x]
    case VectorArg(v) => v.data[..]
    case SwizzleArg(s) => Gather(s.parent[..], s.indices)
  }

  /** `std::tuple_cat(AsTuple(mixed)...)`. */
  function Flatten(args: seq<Arg>): (r: seq<int>)
    reads Footprint(args)
    requires ArgsValid(args)
    ensures |r| == TotalWidth(args)
    decreases |args|
  {
    if args == [] then [] else AsTuple(args[0]) + Flatten(args[1..])
  }

  /** Flattening distributes over splitting the argument list. */
  lemma {:induction false} FlattenAppend(xs: seq<Arg>, ys: seq<Arg>)
    requires ArgsValid(xs) && ArgsValid(ys) && ArgsValid(xs + ys)
    ensures Flatten(xs + ys) == Flatten(xs) + Flatten(ys)
    decreases |xs|
  {
    var zs := xs + ys;
    if xs == [] {
      assert zs == ys;
    } else {
      assert zs[0] == xs[0] && zs[1..] == xs[1..] + ys;
      assert ArgsValid(xs[1..]) && ArgsValid(zs[1..]);
      FlattenAppend(xs[1..], ys);
      ConcatAssociative(AsTuple(xs[0]), Flatten(xs[1..]), Flatten(ys));
    }
  }

  lemma ConcatAssociative(a: seq<int>, b: seq<int>, c: seq<int>)
    ensures a + (b + c) == (a + b) + c
  {
  }

  /**
    Component `i` of argument `j` sits right after the components of
    the arguments before it.
   */
  lemma {:induction false} FlattenSlot(args: seq<Arg>, j: int, i: int)
    requires ArgsValid(args) && 0 <= j < |args| && 0 <= i < Width(args[j])
    ensures 0 <= TotalWidth(args[..j]) + i < TotalWidth(args)
    ensures Flatten(args)[TotalWidth(args[..j]) + i] == AsTuple(args[j])[i]
    decreases j
  {
    FlattenCons(args);
    if j == 0 {
      assert TotalWidth(args[..0]) == 0;
      IndexPastPrefix([], AsTuple(args[0]), Flatten(args[1..]), i);
    } else {
      PrefixWidthCons(args, j);
      FlattenSlot(args[1..], j - 1, i);
      IndexAfterHead(AsTuple(args[0]), Flatten(args[1..]), TotalWidth(args[1..][..j - 1]) + i);
    }
  }

  /** The arguments before `j` are the head and the tail's arguments before `j - 1`. */
  lemma PrefixWidthCons(args: seq<Arg>, j: int)
    requires 0 < j < |args|
    ensures args[1..][j - 1] == args[j]
    ensures TotalWidth(args[..j]) == Width(args[0]) + TotalWidth(args[1..][..j - 1])
  {
    assert args[..j][1..] == args[1..][..j - 1];
  }

  lemma IndexAfterHead(head: seq<int>, tail: seq<int>, k: int)
    requires 0 <= k < |tail|
    ensures (head + tail)[|head| + k] == tail[k]
  {
  }

  /** The head's components, then the tail's. */
  lemma FlattenCons(args: seq<Arg>)
    requires args != [] && ArgsValid(args)
    ensures ArgsValid(args[1..]) && Flatten(args) == AsTuple(args[0]) + Flatten(args[1..])
  {
  }

  lemma IndexPastPrefix(prefix: seq<int>, here: seq<int>, rest: seq<int>, i: int)
    requires 0 <= i < |here|
    ensures (prefix + (here + rest))[|prefix| + i] == here[i]
  {
  }

  /** The scalars a swizzle conversion passes to the constructor. */
  function Scalars(values: seq<int>): (r: seq<Arg>)
    ensures |r| == |values| && ArgsValid(r)
    ensures forall k :: 0 <= k < |r| ==> r[k] == Scalar(values[k])
  {
    seq(|values|, k requires 0 <= k < |values| => Scalar(values[k]))
  }

  lemma {:induction false} TotalWidthScalars(values: seq<int>)
    ensures TotalWidth(Scalars(values)) == |values|
    decreases |values|
  {
    if values != [] {
      assert Scalars(values)[1..] == Scalars(values[1..]);
      TotalWidthScalars(values[1..]);
    }
  }

  lemma {:induction false} FlattenScalars(values: seq<int>)
    ensures Flatten(Scalars(values)) == values
    decreases |values|
  {
    if values != [] {
      assert Scalars(values)[1..] == Scalars(values[1..]);
      FlattenScalars(values[1..]);
    }
  }
}
