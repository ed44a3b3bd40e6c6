/**
  The vector and swizzle classes of Mathter/Vector/VectorImpl.hpp with
  integer elements. A `Vector` owns a fixed array of `Dim` elements; a
  `Swizzle` is a view that reads and writes its parent vector's array
  through a fixed list of indices.
 */
module VectorImpl {
  import opened Elements
  import D = DefinitionsUtil

  /** `Vector<T, Dim, Packed>`: `data` is the element array, `dim` is `Dim`. */
  class Vector {
    const dim: int
    const packed: bool
    const data: array<int>

    /** The `static_assert`: a positive dimension, and one array slot per dimension. */
    ghost predicate Valid() {
      dim >= 1 && data.Length == dim
    }

    function Dimension(): (r: int)
      requires Valid()
      ensures r >= 1 && r == data.Length
    {
      dim
    }

    /** The defaulted copy constructor. */
    constructor Copy(other: Vector)
      requires other.Valid()
      ensures Valid() && fresh(data) && dim == other.dim && packed == other.packed
      ensures data[..] == other.data[..]
    {
      dim, packed := other.dim, other.packed;
      data := new int[other.dim];
      new;
      CopyFrom(other.data);
    }

    /** `Vector(T all)`: every element set to `all`. */
    constructor Fill(dim: int, packed: bool, all: int)
      requires dim >= 1
      ensures Valid() && fresh(data) && this.dim == dim && this.packed == packed
      ensures forall i :: 0 <= i < dim ==> data[i] == all
    {
      this.dim, this.packed := dim, packed;
      data := new int[dim];
      new;
      var i := 0;
      while i < dim
        invariant 0 <= i <= dim
        invariant forall j :: 0 <= j < i ==> data[j] == all
      {
        data[i] := all;
        i := i + 1;
      }
    }

    /** `Vector(const U* p)`: the first `Dim` elements of the array `p`. */
    constructor FromArray(dim: int, packed: bool, p: array<int>)
      requires dim >= 1 && p.Length >= dim
      ensures Valid() && fresh(data) && this.dim == dim && this.packed == packed
      ensures data[..] == p[..dim]
    {
      this.dim, this.packed := dim, packed;
      data := new int[dim];
      new;
      CopyFrom(p);
    }

    /** The element loop of `Vector(const U* p)`: `data[i] = p[i]` for i below `Dim`. */
    method CopyFrom(p: array<int>)
      requires Valid() && p.Length >= dim
      modifies data
      ensures data[..] == old(p[..dim])
    {
      var i := 0;
      while i < dim
        invariant 0 <= i <= dim
        invariant forall j :: 0 <= j < i ==> data[j] == old(p[j])
        invariant forall j :: i <= j < p.Length ==> p[j] == old(p[j])
      {
        data[i] := p[i];
        i := i + 1;
      }
    }

    /** Homogeneous upcast: the `Dim - 1` elements of `rhs`, then a 1. */
    constructor Upcast(rhs: Vector, packed: bool)
      requires rhs.Valid()
      ensures Valid() && fresh(data) && dim == rhs.dim + 1 && this.packed == packed
      ensures data[..] == rhs.data[..] + [1]
    {
      dim, this.packed := rhs.dim + 1, packed;
      var args := [VectorArg(rhs), Scalar(1)];
      assert args[1..] == [Scalar(1)] && args[1..][1..] == [];
      assert TotalWidth(args[1..]) == 1;
      assert ArgsValid(args);
      ghost var footprint := Footprint(args);
      FootprintAllocated(args);
      var storage := new int[rhs.dim + 1];
      assert storage !in footprint;
      data := storage;
      new;
      AssignSpecUnaliased(args, data, data[..], 0);
      Assign(0, args);
      assert Flatten(args[1..][1..]) == [];
    }

    /** Homogeneous downcast: the first `Dim` elements of a `Dim + 1` vector. */
    constructor Downcast(rhs: Vector, packed: bool)
      requires rhs.Valid() && rhs.dim >= 2
      ensures Valid() && fresh(data) && dim == rhs.dim - 1 && this.packed == packed
      ensures data[..] == rhs.data[..rhs.dim - 1]
    {
      dim, this.packed := rhs.dim - 1, packed;
      data := new int[rhs.dim - 1];
      new;
      CopyFrom(rhs.data);
    }

    /**
      The concatenating constructors `Vector(h1, h2, scalars...)` and
      `Vector(h1, mixed...)`: the components of the arguments, laid out
      from index 0 in argument order.
     */
    constructor Concat(dim: int, packed: bool, args: seq<Arg>)
      requires dim >= 1 && ArgsValid(args) && ConcatAdmitted(args, dim)
      ensures Valid() && fresh(data) && this.dim == dim && this.packed == packed
      ensures data[..] == Flatten(args)
    {
      this.dim, this.packed := dim, packed;
      ghost var footprint := Footprint(args);
      FootprintAllocated(args);
      var storage := new int[dim];
      assert storage !in footprint;
      data := storage;
      new;
      assert TotalWidth(args) == dim;
      AssignSpecWhole(args, data, data[..]);
      Assign(0, args);
    }

    /**
      `Set(scalars...)` and `Set(mixed...)`. The second takes every
      argument by reference: vectors, swizzles and scalar references are
      read while `data` is being written, so one that refers into this
      vector sees the elements already replaced.
     */
    method Set(args: seq<Arg>)
      requires Valid() && ArgsValid(args) && ConcatAdmitted(args, dim)
      modifies data
      ensures data[..] == old(AssignSpec(args, data, data[..], 0))
      ensures data !in Footprint(args) ==> data[..] == old(Flatten(args))
    {
      if data !in Footprint(args) {
        assert TotalWidth(args) == dim;
        AssignSpecWhole(args, data, data[..]);
      }
      Assign(0, args);
    }

    /** `Set` as evidently intended: every argument read before anything is written. */
    method SetIntended(args: seq<Arg>)
      requires Valid() && ArgsValid(args) && ConcatAdmitted(args, dim)
      modifies data
      ensures data[..] == old(Flatten(args))
    {
      ghost var flat := Flatten(args);
      FootprintAllocated(args);
      var tmp := new Vector.Concat(dim, packed, args);
      assert tmp.data[..] == flat;
      CopyFrom(tmp.data);
      assert tmp.data[..dim] == flat;
    }

    /**
      The protected `Assign(idx, head, rest...)` overloads. A list of
      scalars only goes to the scalar overload, which copies them on
      entry; otherwise the generalized one writes the head's components
      to `data[idx..]`, each read when it is written, then the rest
      follows. The terminator zero-fills the tail.
     */
    method Assign(idx: int, args: seq<Arg>)
      requires Valid() && ArgsValid(args) && 0 <= idx && idx + TotalWidth(args) <= dim
      modifies data
      ensures data[..] == old(AssignSpec(args, data, data[..], idx))
      decreases |args|
    {
      if args == [] {
        AssignZeroFill(idx);
      } else if ScalarsOnly(args) {
        var values := Flatten(args);
        ValuesOnEntryAreComponents(args, data);
        AssignValues(idx, values);
      } else {
        var head := args[0];
        ghost var outs := Outsides(args, data);
        OutsidesCons(args, data);
        FootprintAllocated(args[1..]);
        var next := AssignHead(idx, head);
        assert Outsides(args[1..], data) == outs[1..];
        Assign(next, args[1..]);
      }
    }

    /**
      The loop of the generalized `Assign`: the head's components go to
      `data[idx..]`, each read when it is written, and `idx` advances.
     */
    method AssignHead(idx: int, head: Arg) returns (next: int)
      requires Valid() && ArgValid(head) && 0 <= idx && idx + Width(head) <= dim
      modifies data
      ensures next == idx + Width(head)
      ensures data[..] == old(WriteArg(head, data, Outside(head, data), data[..], idx, Width(head)))
    {
      ghost var start := data[..];
      ghost var outside := Outside(head, data);
      FootprintAllocated([head]);
      next := idx;
      var i := 0;
      while i < Width(head)
        invariant 0 <= i <= Width(head) && next == idx + i
        invariant data[..] == WriteArg(head, data, outside, start, idx, i)
        invariant Outside(head, data) == outside
      {
        WriteArgStep(head, data, outside, start, idx, i);
        var x := Element(head, i);
        data[next] := x;
        i, next := i + 1, next + 1;
      }
    }

    /**
      The scalar `Assign(idx, head, scalars...)`, whose arguments are
      copies: `data[idx] = head`, then the rest, then the terminator.
     */
    method AssignValues(idx: int, values: seq<int>)
      requires Valid() && 0 <= idx && idx + |values| <= dim
      modifies data
      ensures data[..] == old(data[..])[..idx] + values + Zeros(dim - idx - |values|)
      decreases |values|
    {
      if values == [] {
        AssignZeroFill(idx);
      } else {
        data[idx] := values[0];
        ghost var mid := data[..];
        AssignValues(idx + 1, values[1..]);
        assert mid[..idx + 1] == old(data[..])[..idx] + [values[0]];
        assert [values[0]] + values[1..] == values;
      }
    }

    /** The terminator `Assign(idx)`: zeros from `idx` up to `Dim - 1`. */
    method AssignZeroFill(idx: int)
      requires Valid() && 0 <= idx <= dim
      modifies data
      ensures data[..] == old(data[..])[..idx] + Zeros(dim - idx)
    {
      var i := idx;
      while i < dim
        invariant idx <= i <= dim
        invariant data[..] == old(data[..])[..idx] + Zeros(i - idx) + old(data[..])[i..]
      {
        data[i] := 0;
        i := i + 1;
      }
    }

    /** The scalar product, accumulated as `s = lhs[i] * rhs[i] + s` from i = 0 up. */
    static method Dot(lhs: Vector, rhs: Vector) returns (s: int)
      requires lhs.Valid() && rhs.Valid() && lhs.dim == rhs.dim
      ensures s == DotSpec(lhs.data[..], rhs.data[..])
    {
      s := lhs.data[0] * rhs.data[0];
      var i := 1;
      while i < lhs.dim
        invariant 1 <= i <= lhs.dim
        invariant s == DotSpec(lhs.data[..i], rhs.data[..i])
      {
        assert lhs.data[..i + 1][..i] == lhs.data[..i] && rhs.data[..i + 1][..i] == rhs.data[..i];
        s := lhs.data[i] * rhs.data[i] + s;
        i := i + 1;
      }
      assert lhs.data[..lhs.dim] == lhs.data[..] && rhs.data[..rhs.dim] == rhs.data[..];
    }

    method LengthSquared() returns (s: int)
      requires Valid()
      ensures s == DotSpec(data[..], data[..]) && s >= 0
    {
      s := Dot(this, this);
      DotSelfNonNegative(data[..]);
    }
  }

  /** `Swizzle<T, Indices...>`: the view `indices` over the parent's elements. */
  class Swizzle {
    const parent: array<int>
    const indices: seq<int>

    /** Every index addresses an element of the parent. */
    ghost predicate Valid() {
      InRange(indices, parent.Length)
    }

    constructor (parent: array<int>, indices: seq<int>)
      ensures this.parent == parent && this.indices == indices
    {
      this.parent, this.indices := parent, indices;
    }

    /** `operator[]` / `operator()` for reading: element `idx` of the swizzled vector. */
    function Get(idx: int): (r: int)
      reads parent
      requires Valid() && 0 <= idx < |indices|
      ensures r == Gather(parent[..], indices)[idx]
    {
      parent[indices[idx]]
    }

    /** `operator[]` / `operator()` for writing: the reference is the parent's element. */
    method SetAt(idx: int, x: int)
      requires Valid() && 0 <= idx < |indices|
      modifies parent
      ensures parent[..] == old(parent[..])[indices[idx] := x]
      ensures Get(idx) == x
    {
      parent[indices[idx]] := x;
    }

    /** The conversion to `Vector<T, sizeof...(Indices), Packed>`. */
    method ToVector(packed: bool) returns (v: Vector)
      requires Valid() && |indices| >= 1
      ensures fresh(v) && v.Valid() && v.dim == |indices| && v.packed == packed
      ensures v.data[..] == Gather(parent[..], indices)
    {
      var n := |indices|;
      if n == 1 {
        v := new Vector.Fill(1, packed, parent[indices[0]]);
      } else {
        var values := Gather(parent[..], indices);
        var args := Scalars(values);
        ScalarsAdmitted(values);
        v := new Vector.Concat(n, packed, args);
        FlattenScalars(values);
      }
    }

    /** The protected `Assign<Indices...>(rhs)`: `parent[indices[k]] = rhs[k]`, k ascending. */
    method Assign(rhs: array<int>)
      requires Valid() && rhs.Length >= |indices| && rhs != parent
      modifies parent
      ensures parent[..] == Scatter(old(parent[..]), indices, rhs[..|indices|])
    {
      var k := 0;
      while k < |indices|
        invariant 0 <= k <= |indices|
        invariant parent[..] == Scatter(old(parent[..]), indices[..k], rhs[..k])
      {
        assert indices[..k + 1][..k] == indices[..k] && rhs[..k + 1][..k] == rhs[..k];
        parent[indices[k]] := rhs[k];
        k := k + 1;
      }
      assert indices[..|indices|] == indices;
    }

    /**
      `operator=(const Vector&)`: when `rhs` is the parent itself, it is
      first copied to a temporary, so the result is always the scatter of
      the values `rhs` had before the call.
     */
    method AssignVector(rhs: Vector)
      requires Valid() && rhs.Valid() && rhs.dim == |indices|
      modifies parent
      ensures parent[..] == Scatter(old(parent[..]), indices, old(rhs.data[..]))
      decreases if rhs.data == parent then 1 else 0
    {
      if parent != rhs.data {
        Assign(rhs.data);
        assert rhs.data[..|indices|] == rhs.data[..];
      } else {
        var tmp := new Vector.Copy(rhs);
        AssignVector(tmp);
      }
    }

    /**
      Whether `rhs` has this swizzle's own type `Swizzle<T, Indices...>`;
      the parent's size is not part of that type.
     */
    predicate SameType(rhs: Swizzle) {
      rhs.indices == indices
    }

    /**
      `a = rhs` for a swizzle `rhs` of as many indices. The class declares
      no copy assignment, so for `rhs` of the same type the implicit one,
      which has no member to copy, is chosen over the template, and the
      parent keeps its elements; any other `rhs` goes through the template.
     */
    method AssignSwizzle(rhs: Swizzle)
      requires Valid() && rhs.Valid() && |rhs.indices| == |indices| && |indices| >= 1
      modifies parent
      ensures SameType(rhs) ==> parent[..] == old(parent[..])
      ensures !SameType(rhs) ==> parent[..] == Scatter(old(parent[..]), indices, old(Gather(rhs.parent[..], rhs.indices)))
    {
      if !SameType(rhs) {
        AssignSwizzleIntended(rhs);
      }
    }

    /**
      The template `operator=(const Swizzle<T2, Indices2...>&)`, through a
      temporary vector built from `rhs`: what `a = rhs` evidently means
      for every swizzle `rhs`, of the same type or not.
     */
    method AssignSwizzleIntended(rhs: Swizzle)
      requires Valid() && rhs.Valid() && |rhs.indices| == |indices| && |indices| >= 1
      modifies parent
      ensures parent[..] == Scatter(old(parent[..]), indices, old(Gather(rhs.parent[..], rhs.indices)))
    {
      var tmp := rhs.ToVector(false);
      AssignVector(tmp);
    }
  }

  // -----------------------------------------------------------------------
  // Arguments of the concatenating constructors and of Set
  // -----------------------------------------------------------------------

  /** Every array an argument list reads is already allocated. */
  lemma {:induction false} FootprintAllocated(args: seq<Arg>)
    ensures forall o :: o in Footprint(args) ==> allocated(o)
    decreases |args|
  {
    if args != [] {
      FootprintAllocated(args[1..]);
    }
  }

  /**
    An argument: a scalar value, a scalar passed as `const T&` to element
    `pos` of the array `arr` (such as `v.x`, which is `v.data[0]`), or a
    vector or swizzle, also passed by reference.
   */
  datatype Arg = Scalar(value: int) | ScalarRef(arr: array<int>, pos: int) | VectorArg(vec: Vector) | SwizzleArg(swz: Swizzle)

  ghost predicate ArgValid(a: Arg) {
    match a
    case Scalar(_) => true
    case ScalarRef(arr, pos) => 0 <= pos < arr.Length
    case VectorArg(v) => v.Valid()
    case SwizzleArg(s) => s.Valid()
  }

  ghost predicate ArgsValid(args: seq<Arg>) {
    forall i :: 0 <= i < |args| ==> ArgValid(args[i])
  }

  /** How many elements an argument contributes: `DimensionOf` of its type. */
  function Width(a: Arg): int {
    match a
    case Scalar(_) => 1
    case ScalarRef(_, _) => 1
    case VectorArg(v) => v.dim
    case SwizzleArg(s) => |s.indices|
  }

  function TotalWidth(args: seq<Arg>): (r: int)
    ensures ArgsValid(args) ==> r >= 0
    decreases |args|
  {
    if args == [] then 0 else Width(args[0]) + TotalWidth(args[1..])
  }

  /** The array an argument reads from. */
  function Storage(a: Arg): set<array<int>> {
    match a
    case Scalar(_) => {}
    case ScalarRef(arr, _) => {arr}
    case VectorArg(v) => {v.data}
    case SwizzleArg(s) => {s.parent}
  }

  function Footprint(args: seq<Arg>): set<array<int>>
    decreases |args|
  {
    if args == [] then {} else Storage(args[0]) + Footprint(args[1..])
  }

  /** `GetVectorElement<Head>::Get` for every index: the argument's components. */
  function Components(a: Arg): (r: seq<int>)
    reads Storage(a)
    requires ArgValid(a)
    ensures |r| == Width(a)
  {
    match a
    case Scalar(x) => [x]
    case ScalarRef(arr, pos) => [arr[pos]]
    case VectorArg(v) => v.data[..]
    case SwizzleArg(s) => Gather(s.parent[..], s.indices)
  }

  function Element(a: Arg, i: int): int
    reads Storage(a)
    requires ArgValid(a) && 0 <= i < Width(a)
  {
    Components(a)[i]
  }

  /** The components of all arguments in argument order. */
  function Flatten(args: seq<Arg>): (r: seq<int>)
    reads Footprint(args)
    requires ArgsValid(args)
    ensures |r| == TotalWidth(args)
    decreases |args|
  {
    if args == [] then [] else Components(args[0]) + Flatten(args[1..])
  }

  /** The type of an argument, as the trait layer sees it. */
  function ArgType(a: Arg): D.TypeDesc {
    match a
    case Scalar(_) => D.Int
    case ScalarRef(_, _) => D.Int
    case VectorArg(v) => D.Vec(D.Int, v.dim, v.packed)
    case SwizzleArg(s) => D.Swz(D.Int, s.indices)
  }

  function ArgTypes(args: seq<Arg>): seq<D.TypeDesc> {
    seq(|args|, i requires 0 <= i < |args| => ArgType(args[i]))
  }

  /**
    The `enable_if` of the concatenating constructors (and the checks of
    `Set`): at least two scalars, or at least one vector or swizzle, whose
    dimensions sum to `Dim`, summed so that an unknown dimension is not
    absorbed into the total.
   */
  predicate ConcatAdmitted(args: seq<Arg>, dim: int)
    ensures ConcatAdmitted(args, dim) && dim >= 1 ==> TotalWidth(args) == dim
  {
    DimSumIsTotalWidth(args);
    var ts := ArgTypes(args);
    ((|args| >= 2 && D.All(D.IsScalar, ts)) || D.Any(D.IsVectorOrSwizzle, ts))
    && D.SumDimensionsPropagating(ts) == dim
  }

  lemma {:induction false} DimSumIsTotalWidth(args: seq<Arg>)
    ensures D.DimSum(ArgTypes(args)) == TotalWidth(args)
    decreases |args|
  {
    if args != [] {
      assert ArgTypes(args)[1..] == ArgTypes(args[1..]);
      DimSumIsTotalWidth(args[1..]);
    }
  }

  // -----------------------------------------------------------------------
  // What Assign writes
  // -----------------------------------------------------------------------

  /**
    The contents of the array `a` reads, unless that array is `self`:
    those are not fixed while `self` is being written.
   */
  function Outside(a: Arg, self: array<int>): (r: seq<int>)
    reads Storage(a) - {self}
    ensures Fits(a, self, r)
  {
    match a
    case Scalar(_) => []
    case ScalarRef(arr, _) => if arr == self then [] else arr[..]
    case VectorArg(v) => if v.data == self then [] else v.data[..]
    case SwizzleArg(s) => if s.parent == self then [] else s.parent[..]
  }

  /** `Outside` of every argument, in argument order. */
  function Outsides(args: seq<Arg>, self: array<int>): (r: seq<seq<int>>)
    reads Footprint(args) - {self}
    ensures OutsFit(args, self, r)
    decreases |args|
  {
    if args == [] then [] else [Outside(args[0], self)] + Outsides(args[1..], self)
  }

  /** `out` has the length of the array `a` reads. */
  predicate Sized(a: Arg, out: seq<int>) {
    match a
    case Scalar(_) => true
    case ScalarRef(arr, _) => |out| == arr.Length
    case VectorArg(v) => |out| == v.data.Length
    case SwizzleArg(s) => |out| == s.parent.Length
  }

  /** `outside` can stand for the array `a` reads, when that is not `self`. */
  predicate Fits(a: Arg, self: array<int>, outside: seq<int>) {
    self in Storage(a) || Sized(a, outside)
  }

  predicate OutsFit(args: seq<Arg>, self: array<int>, outs: seq<seq<int>>) {
    |outs| == |args| && forall k :: 0 <= k < |args| ==> Fits(args[k], self, outs[k])
  }

  predicate SizedAll(args: seq<Arg>, outs: seq<seq<int>>) {
    |outs| == |args| && forall k :: 0 <= k < |args| ==> Sized(args[k], outs[k])
  }

  /**
    Component `i` of `a`, read while the array `self` holds `cur`: an
    argument that views `self` sees the current contents, any other
    sees `outside`.
   */
  function ReadLive(a: Arg, i: int, self: array<int>, outside: seq<int>, cur: seq<int>): int
    requires ArgValid(a) && Fits(a, self, outside) && 0 <= i < Width(a) && |cur| == self.Length
  {
    match a
    case Scalar(x) => x
    case ScalarRef(arr, pos) => if arr == self then cur[pos] else outside[pos]
    case VectorArg(v) => if v.data == self then cur[i] else outside[i]
    case SwizzleArg(s) => if s.parent == self then cur[s.indices[i]] else outside[s.indices[i]]
  }

  /** `cur` after the first `n` components of `a` have been written from `idx` on. */
  function WriteArg(a: Arg, self: array<int>, outside: seq<int>, cur: seq<int>, idx: int, n: int): (r: seq<int>)
    requires ArgValid(a) && Fits(a, self, outside) && |cur| == self.Length
    requires 0 <= n <= Width(a) && 0 <= idx && idx + Width(a) <= |cur|
    ensures |r| == |cur|
    decreases n
  {
    if n == 0 then cur
    else
      var p := WriteArg(a, self, outside, cur, idx, n - 1);
      p[idx + n - 1 := ReadLive(a, n - 1, self, outside, p)]
  }

  /** Reading an argument live from the current heap is `GetVectorElement`. */
  lemma ReadLiveIsElement(a: Arg, self: array<int>, i: int)
    requires ArgValid(a) && 0 <= i < Width(a)
    ensures ReadLive(a, i, self, Outside(a, self), self[..]) == Element(a, i)
  {
  }

  /** Writing one more component of `a` stores what `GetVectorElement` reads now. */
  lemma WriteArgStep(a: Arg, self: array<int>, outside: seq<int>, start: seq<int>, idx: int, i: int)
    requires ArgValid(a) && outside == Outside(a, self) && |start| == self.Length
    requires 0 <= i < Width(a) && 0 <= idx && idx + Width(a) <= |start|
    requires self[..] == WriteArg(a, self, outside, start, idx, i)
    ensures WriteArg(a, self, outside, start, idx, i + 1) == self[..][idx + i := Element(a, i)]
  {
    ReadLiveIsElement(a, self, i);
  }

  /**
    The contents of `self` after `Assign(idx, args...)` starting from
    `cur`, where `outs` holds what each argument reads when that is not
    `self`. A list of scalars only goes to the scalar overload, which
    copies them all on entry; any other list to the generalized one.
   */
  function AssignFrom(args: seq<Arg>, self: array<int>, outs: seq<seq<int>>, cur: seq<int>, idx: int): (r: seq<int>)
    requires ArgsValid(args) && OutsFit(args, self, outs)
    requires |cur| == self.Length && 0 <= idx && idx + TotalWidth(args) <= |cur|
    ensures |r| == |cur|
    decreases |args|
  {
    if args == [] then cur[..idx] + Zeros(|cur| - idx)
    else if ScalarsOnly(args) then
      var vals := ValuesOnEntry(args, self, outs, cur);
      cur[..idx] + vals + Zeros(|cur| - idx - |vals|)
    else
      var w := Width(args[0]);
      AssignFrom(args[1..], self, outs[1..], WriteArg(args[0], self, outs[0], cur, idx, w), idx + w)
  }

  /** A scalar, by value or by reference: `traits::IsScalar` of its type. */
  predicate IsScalarArg(a: Arg) {
    a.Scalar? || a.ScalarRef?
  }

  /** The `enable_if` of the scalar `Assign` overload: every argument is a scalar. */
  predicate ScalarsOnly(args: seq<Arg>) {
    forall k :: 0 <= k < |args| ==> IsScalarArg(args[k])
  }

  /** The overload test on arguments is the trait layer's `All<IsScalar>` on their types. */
  lemma ScalarsOnlyIsAll(args: seq<Arg>)
    ensures ScalarsOnly(args) <==> D.All(D.IsScalar, ArgTypes(args))
  {
    D.AllIffEvery(D.IsScalar, ArgTypes(args));
    assert forall k :: 0 <= k < |args| ==> (IsScalarArg(args[k]) <==> D.IsScalar(ArgTypes(args)[k]));
  }

  /**
    The values the scalar overload copies on entry, while `self` holds
    `cur`: a reference into `self` sees the current contents.
   */
  function ValuesOnEntry(args: seq<Arg>, self: array<int>, outs: seq<seq<int>>, cur: seq<int>): (r: seq<int>)
    requires ArgsValid(args) && ScalarsOnly(args) && OutsFit(args, self, outs) && |cur| == self.Length
    ensures |r| == |args| == TotalWidth(args)
    ensures forall k :: 0 <= k < |args| ==> r[k] == ReadLive(args[k], 0, self, outs[k], cur)
    decreases |args|
  {
    if args == [] then []
    else [ReadLive(args[0], 0, self, outs[0], cur)] + ValuesOnEntry(args[1..], self, outs[1..], cur)
  }

  /** The contents of `self` after `Assign(idx, args...)` starting from `cur`. */
  function AssignSpec(args: seq<Arg>, self: array<int>, cur: seq<int>, idx: int): (r: seq<int>)
    reads Footprint(args) - {self}
    requires ArgsValid(args) && |cur| == self.Length && 0 <= idx && idx + TotalWidth(args) <= |cur|
    ensures |r| == |cur|
  {
    AssignFrom(args, self, Outsides(args, self), cur, idx)
  }

  /** The snapshots of a non-empty argument list: the head's, then the tail's. */
  lemma OutsidesCons(args: seq<Arg>, self: array<int>)
    requires args != []
    ensures Outsides(args, self)[0] == Outside(args[0], self)
    ensures Outsides(args, self)[1..] == Outsides(args[1..], self)
  {
  }

  /** Read from the heap on entry, the scalars' values are their components. */
  lemma {:induction false} ValuesOnEntryAreComponents(args: seq<Arg>, self: array<int>)
    requires ArgsValid(args) && ScalarsOnly(args)
    ensures ValuesOnEntry(args, self, Outsides(args, self), self[..]) == Flatten(args)
    decreases |args|
  {
    if args != [] {
      OutsidesCons(args, self);
      ValuesOnEntryAreComponents(args[1..], self);
    }
  }

  /** The components of `a` when the array it reads holds `out`. */
  function ComponentsFrom(a: Arg, out: seq<int>): (r: seq<int>)
    requires ArgValid(a) && Sized(a, out)
    ensures |r| == Width(a)
  {
    match a
    case Scalar(x) => [x]
    case ScalarRef(_, pos) => [out[pos]]
    case VectorArg(_) => out
    case SwizzleArg(s) => Gather(out, s.indices)
  }

  /** `Flatten` with `outs` standing for the arrays the arguments read. */
  function FlattenFrom(args: seq<Arg>, outs: seq<seq<int>>): (r: seq<int>)
    requires ArgsValid(args) && SizedAll(args, outs)
    ensures |r| == TotalWidth(args)
    decreases |args|
  {
    if args == [] then [] else ComponentsFrom(args[0], outs[0]) + FlattenFrom(args[1..], outs[1..])
  }

  lemma {:induction false} WriteArgUnaliased(a: Arg, self: array<int>, out: seq<int>, cur: seq<int>, idx: int, n: int)
    requires ArgValid(a) && Sized(a, out) && |cur| == self.Length && self !in Storage(a)
    requires 0 <= n <= Width(a) && 0 <= idx && idx + Width(a) <= |cur|
    ensures WriteArg(a, self, out, cur, idx, n) == cur[..idx] + ComponentsFrom(a, out)[..n] + cur[idx + n..]
    decreases n
  {
    if n > 0 {
      var comps := ComponentsFrom(a, out);
      var p := WriteArg(a, self, out, cur, idx, n - 1);
      WriteArgUnaliased(a, self, out, cur, idx, n - 1);
      ReadLiveUnaliased(a, self, out, p, n - 1);
      WriteSlot(cur, comps, idx, n);
    }
  }

  /** An argument that does not view `self` reads its component from `out`. */
  lemma ReadLiveUnaliased(a: Arg, self: array<int>, out: seq<int>, cur: seq<int>, i: int)
    requires ArgValid(a) && Sized(a, out) && |cur| == self.Length && self !in Storage(a) && 0 <= i < Width(a)
    ensures ReadLive(a, i, self, out, cur) == ComponentsFrom(a, out)[i]
  {
  }

  /** Writing component `n - 1` extends the laid-out prefix by one. */
  lemma WriteSlot(cur: seq<int>, comps: seq<int>, idx: int, n: int)
    requires 0 <= idx && 1 <= n <= |comps| && idx + n <= |cur|
    ensures (cur[..idx] + comps[..n - 1] + cur[idx + n - 1..])[idx + n - 1 := comps[n - 1]]
            == cur[..idx] + comps[..n] + cur[idx + n..]
  {
    var lhs := (cur[..idx] + comps[..n - 1] + cur[idx + n - 1..])[idx + n - 1 := comps[n - 1]];
    var rhs := cur[..idx] + comps[..n] + cur[idx + n..];
    assert |lhs| == |rhs|;
    forall k | 0 <= k < |lhs|
      ensures lhs[k] == rhs[k]
    {
    }
  }

  /** `AssignFrom` laid the components out after `cur[..idx]` and zero-filled the rest. */
  ghost predicate LaidOut(args: seq<Arg>, self: array<int>, outs: seq<seq<int>>, cur: seq<int>, idx: int)
    requires ArgsValid(args) && OutsFit(args, self, outs) && SizedAll(args, outs)
    requires |cur| == self.Length && 0 <= idx && idx + TotalWidth(args) <= |cur|
  {
    AssignFrom(args, self, outs, cur, idx) == cur[..idx] + FlattenFrom(args, outs) + Zeros(|cur| - idx - TotalWidth(args))
  }

  /** With no argument viewing `self`, `AssignFrom` lays out the components and zero-fills the rest. */
  lemma {:induction false} AssignFromUnaliased(args: seq<Arg>, self: array<int>, outs: seq<seq<int>>, cur: seq<int>, idx: int)
    requires ArgsValid(args) && OutsFit(args, self, outs) && SizedAll(args, outs) && self !in Footprint(args)
    requires |cur| == self.Length && 0 <= idx && idx + TotalWidth(args) <= |cur|
    ensures LaidOut(args, self, outs, cur, idx)
    decreases |args|
  {
    if args == [] {
      assert cur[..idx] + [] == cur[..idx];
    } else if ScalarsOnly(args) {
      ValuesOnEntryUnaliased(args, self, outs, cur);
    } else {
      TailFits(args, self, outs);
      AssignFromUnaliased(args[1..], self, outs[1..], WriteArg(args[0], self, outs[0], cur, idx, Width(args[0])), idx + Width(args[0]));
      LaidOutStep(args, self, outs, cur, idx);
    }
  }

  /** If the tail is laid out after the head's write, the whole list is laid out. */
  lemma LaidOutStep(args: seq<Arg>, self: array<int>, outs: seq<seq<int>>, cur: seq<int>, idx: int)
    requires args != [] && !ScalarsOnly(args) && ArgsValid(args) && OutsFit(args, self, outs) && SizedAll(args, outs)
    requires self !in Footprint(args)
    requires |cur| == self.Length && 0 <= idx && idx + TotalWidth(args) <= |cur|
    requires ArgsValid(args[1..]) && OutsFit(args[1..], self, outs[1..]) && SizedAll(args[1..], outs[1..])
    requires LaidOut(args[1..], self, outs[1..], WriteArg(args[0], self, outs[0], cur, idx, Width(args[0])), idx + Width(args[0]))
    ensures LaidOut(args, self, outs, cur, idx)
  {
    var w := Width(args[0]);
    var comps := ComponentsFrom(args[0], outs[0]);
    var next := WriteArg(args[0], self, outs[0], cur, idx, w);
    var n := |cur| - idx - TotalWidth(args);
    TailFits(args, self, outs);
    FlattenFromCons(args, outs);
    WriteArgUnaliased(args[0], self, outs[0], cur, idx, w);
    LayOutHead(AssignFrom(args, self, outs, cur, idx), AssignFrom(args[1..], self, outs[1..], next, idx + w),
               cur, next, idx, w, comps, FlattenFrom(args[1..], outs[1..]), FlattenFrom(args, outs), Zeros(n));
  }

  /** Scalars that do not refer into `self` are copied on entry from their own arrays. */
  lemma {:induction false} ValuesOnEntryUnaliased(args: seq<Arg>, self: array<int>, outs: seq<seq<int>>, cur: seq<int>)
    requires ArgsValid(args) && ScalarsOnly(args) && OutsFit(args, self, outs) && SizedAll(args, outs)
    requires self !in Footprint(args) && |cur| == self.Length
    ensures ValuesOnEntry(args, self, outs, cur) == FlattenFrom(args, outs)
    decreases |args|
  {
    if args != [] {
      TailFits(args, self, outs);
      FlattenFromCons(args, outs);
      ValuesOnEntryUnaliased(args[1..], self, outs[1..], cur);
    }
  }

  /** What the head and the tail of an unaliased argument list satisfy. */
  lemma TailFits(args: seq<Arg>, self: array<int>, outs: seq<seq<int>>)
    requires args != [] && ArgsValid(args) && OutsFit(args, self, outs) && SizedAll(args, outs)
    requires self !in Footprint(args)
    ensures ArgValid(args[0]) && Sized(args[0], outs[0]) && self !in Storage(args[0])
    ensures ArgsValid(args[1..]) && OutsFit(args[1..], self, outs[1..]) && SizedAll(args[1..], outs[1..])
    ensures self !in Footprint(args[1..])
    ensures TotalWidth(args) == Width(args[0]) + TotalWidth(args[1..])
  {
  }

  lemma FlattenFromCons(args: seq<Arg>, outs: seq<seq<int>>)
    requires args != [] && ArgsValid(args) && SizedAll(args, outs)
    ensures ArgsValid(args[1..]) && SizedAll(args[1..], outs[1..])
    ensures FlattenFrom(args, outs) == ComponentsFrom(args[0], outs[0]) + FlattenFrom(args[1..], outs[1..])
  {
  }

  /** Laid out from index 0 with nothing left to zero-fill, the components are the whole array. */
  lemma Unpadded(cur: seq<int>, flat: seq<int>)
    ensures cur[..0] + flat + Zeros(0) == flat
  {
    assert cur[..0] == [] && Zeros(0) == [];
  }

  /** The sequence bookkeeping of one step of `AssignFromUnaliased`. */
  lemma LayOutHead(whole: seq<int>, rest: seq<int>, cur: seq<int>, next: seq<int>, idx: int, w: int,
                   comps: seq<int>, more: seq<int>, flat: seq<int>, tail: seq<int>)
    requires 0 <= idx && |comps| == w && idx + w <= |cur|
    requires next == cur[..idx] + comps[..w] + cur[idx + w..]
    requires whole == rest && rest == next[..idx + w] + more + tail
    requires flat == comps + more
    ensures whole == cur[..idx] + flat + tail
  {
    assert comps[..w] == comps;
    assert next[..idx + w] == cur[..idx] + comps;
  }

  /** Read from the heap, the arrays of arguments that do not view `self` give `Flatten`. */
  lemma {:induction false} FlattenFromOutsides(args: seq<Arg>, self: array<int>)
    requires ArgsValid(args) && self !in Footprint(args)
    ensures SizedAll(args, Outsides(args, self)) && FlattenFrom(args, Outsides(args, self)) == Flatten(args)
    decreases |args|
  {
    if args != [] {
      var outs := Outsides(args, self);
      assert outs[0] == Outside(args[0], self) && outs[1..] == Outsides(args[1..], self);
      FlattenFromOutsides(args[1..], self);
    }
  }

  /** With no argument viewing `self`, Assign lays out the components and zero-fills the rest. */
  lemma AssignSpecUnaliased(args: seq<Arg>, self: array<int>, cur: seq<int>, idx: int)
    requires ArgsValid(args) && |cur| == self.Length && 0 <= idx && idx + TotalWidth(args) <= |cur|
    requires self !in Footprint(args)
    ensures AssignSpec(args, self, cur, idx)
            == cur[..idx] + Flatten(args) + Zeros(|cur| - idx - TotalWidth(args))
  {
    FlattenFromOutsides(args, self);
    AssignFromUnaliased(args, self, Outsides(args, self), cur, idx);
  }

  /** From index 0 with exactly as many components as elements, an unaliased list fills the vector. */
  lemma AssignSpecWhole(args: seq<Arg>, self: array<int>, cur: seq<int>)
    requires ArgsValid(args) && |cur| == self.Length == TotalWidth(args) && self !in Footprint(args)
    ensures AssignSpec(args, self, cur, 0) == Flatten(args)
  {
    AssignSpecUnaliased(args, self, cur, 0);
    Unpadded(cur, Flatten(args));
  }

  // -----------------------------------------------------------------------
  // Scalars, as the swizzle conversion passes them
  // -----------------------------------------------------------------------

  function Scalars(values: seq<int>): (r: seq<Arg>)
    ensures |r| == |values| && ArgsValid(r)
    ensures forall k :: 0 <= k < |r| ==> r[k] == Scalar(values[k])
  {
    seq(|values|, k requires 0 <= k < |values| => Scalar(values[k]))
  }

  lemma {:induction false} FlattenScalars(values: seq<int>)
    ensures Footprint(Scalars(values)) == {} && Flatten(Scalars(values)) == values
    decreases |values|
  {
    if values != [] {
      assert Scalars(values)[1..] == Scalars(values[1..]);
      FlattenScalars(values[1..]);
    }
  }

  /** Two or more scalars whose count is the dimension pass the constructor's check. */
  lemma ScalarsAdmitted(values: seq<int>)
    requires |values| >= 2
    ensures ConcatAdmitted(Scalars(values), |values|)
  {
    var ts := ArgTypes(Scalars(values));
    assert forall i :: 0 <= i < |ts| ==> ts[i] == D.Int;
    D.AllIffEvery(D.IsScalar, ts);
    DimSumIsTotalWidth(Scalars(values));
    TotalWidthScalars(values);
  }

  lemma {:induction false} TotalWidthScalars(values: seq<int>)
    ensures TotalWidth(Scalars(values)) == |values|
    decreases |values|
  {
    if values != [] {
      assert Scalars(values)[1..] == Scalars(values[1..]);
      TotalWidthScalars(values[1..]);
    }
  }

  // -----------------------------------------------------------------------
  // Dot product
  // -----------------------------------------------------------------------

  /** The sum of `a[i] * b[i]`, accumulated in index order. */
  function DotSpec(a: seq<int>, b: seq<int>): int
    requires |a| == |b| >= 1
    decreases |a|
  {
    var n := |a| - 1;
    if n == 0 then a[0] * b[0] else a[n] * b[n] + DotSpec(a[..n], b[..n])
  }

  /** For integer elements the scalar product is symmetric. */
  lemma {:induction false} DotSymmetric(a: seq<int>, b: seq<int>)
    requires |a| == |b| >= 1
    ensures DotSpec(a, b) == DotSpec(b, a)
    decreases |a|
  {
    var n := |a| - 1;
    if n > 0 {
      DotSymmetric(a[..n], b[..n]);
    }
  }

  /** A vector's squared length is never negative. */
  lemma {:induction false} DotSelfNonNegative(a: seq<int>)
    requires |a| >= 1
    ensures DotSpec(a, a) >= 0
    decreases |a|
  {
    var n := |a| - 1;
    assert a[n] * a[n] >= 0 by {
      if a[n] < 0 {
        assert a[n] * a[n] == (-a[n]) * (-a[n]);
      }
    }
    if n > 0 {
      DotSelfNonNegative(a[..n]);
    }
  }

  // -----------------------------------------------------------------------
  // Scenarios
  // -----------------------------------------------------------------------

  /** `b = {1,2,3}; a.yxz = b;` leaves `a = {2,1,3}`. */
  lemma SwizzleAssignExample(a: seq<int>)
    requires |a| == 3
    ensures Scatter(a, [1, 0, 2], [1, 2, 3]) == [2, 1, 3]
  {
    assert [1, 0, 2][..2][..1] == [1] && [1, 2, 3][..2][..1] == [1];
    assert [1, 0, 2][..2] == [1, 0] && [1, 2, 3][..2] == [1, 2];
  }

  /**
    `v = {1,2,3}; v.Set(v.zyx);` leaves `v = {3,2,3}`: the last element
    is read after the first was overwritten. Reading first would give
    `{3,2,1}`.
   */
  method SetThroughOwnSwizzle() returns (before: seq<int>, intended: seq<int>, after: seq<int>)
    ensures before == [1, 2, 3] && intended == [3, 2, 1] && after == [3, 2, 3]
  {
    var init := new int[3];
    init[0], init[1], init[2] := 1, 2, 3;
    var v := new Vector.FromArray(3, false, init);
    var zyx := new Swizzle(v.data, [2, 1, 0]);
    var args := [SwizzleArg(zyx)];
    before := v.data[..];
    assert before == [1, 2, 3];
    intended := Flatten(args);
    assert args[1..] == [];
    assert intended == [3, 2, 1];
    assert ArgTypes(args) == [D.Swz(D.Int, [2, 1, 0])];
    assert Outsides(args, v.data) == [[]];
    OwnReverseWrites(args[0], v.data);
    v.Set(args);
    after := v.data[..];
    assert after == AssignFrom([], v.data, [], [3, 2, 3], 3);
  }

  /**
    `a = {1,2,3}; b = {4,5,6}; a.xyz = b.xyz;` leaves `a = {1,2,3}`: both
    sides are `Swizzle<int, 0, 1, 2>`, so the implicit copy assignment is
    chosen. The template would give `{4,5,6}`.
   */
  method SameTypeSwizzleAssign() returns (after: seq<int>, intended: seq<int>)
    ensures after == [1, 2, 3] && intended == [4, 5, 6]
  {
    var a := new int[3];
    a[0], a[1], a[2] := 1, 2, 3;
    var b := new int[3];
    b[0], b[1], b[2] := 4, 5, 6;
    var axyz := new Swizzle(a, [0, 1, 2]);
    var bxyz := new Swizzle(b, [0, 1, 2]);
    axyz.AssignSwizzle(bxyz);
    after := a[..];
    axyz.AssignSwizzleIntended(bxyz);
    intended := a[..];
    assert Gather(b[..], [0, 1, 2]) == [4, 5, 6];
    ScatterIdentity(after, [4, 5, 6]);
  }

  /**
    `v = {1,2,3}; v.Set(v.yz, v.x);` leaves `v = {2,3,2}`: `v.x` is passed
    by reference and copied only when the scalar overload is entered,
    after `data[0]` became 2. Reading first would give `{2,3,1}`.
   */
  method SetThroughOwnScalar() returns (before: seq<int>, intended: seq<int>, after: seq<int>)
    ensures before == [1, 2, 3] && intended == [2, 3, 1] && after == [2, 3, 2]
  {
    var init := new int[3];
    init[0], init[1], init[2] := 1, 2, 3;
    var v := new Vector.FromArray(3, false, init);
    var yz := new Swizzle(v.data, [1, 2]);
    var args := [SwizzleArg(yz), ScalarRef(v.data, 0)];
    before := v.data[..];
    assert before == [1, 2, 3];
    PairThenScalarReads(args, v.data);
    intended := Flatten(args);
    PairThenScalarWrites(args, v.data);
    v.Set(args);
    after := v.data[..];
  }

  /** `(self.yz, self.x)` with `self = {1,2,3}` is admitted and has the components `{2,3,1}`. */
  lemma PairThenScalarReads(args: seq<Arg>, self: array<int>)
    requires self[..] == [1, 2, 3] && |args| == 2
    requires args[0].SwizzleArg? && args[0].swz.parent == self && args[0].swz.indices == [1, 2]
    requires args[1] == ScalarRef(self, 0)
    ensures ArgsValid(args) && ConcatAdmitted(args, 3) && Flatten(args) == [2, 3, 1]
  {
    assert args[1..][1..] == [];
    assert Components(args[0]) == [2, 3] && Flatten(args[1..]) == [1];
    assert ArgTypes(args) == [D.Swz(D.Int, [1, 2]), D.Int];
  }

  /** Assigning `(self.yz, self.x)` to `self = {1,2,3}` gives `{2,3,2}`. */
  lemma PairThenScalarWrites(args: seq<Arg>, self: array<int>)
    requires self.Length == 3 && |args| == 2
    requires args[0].SwizzleArg? && args[0].swz.parent == self && args[0].swz.indices == [1, 2]
    requires args[1] == ScalarRef(self, 0)
    ensures ArgsValid(args) && TotalWidth(args) == 3
    ensures AssignSpec(args, self, [1, 2, 3], 0) == [2, 3, 2]
  {
    assert args[1..][1..] == [];
    assert TotalWidth(args[1..]) == 1;
    assert Outsides(args, self) == [[], []];
    assert !ScalarsOnly(args) && ScalarsOnly(args[1..]);
    OwnPairWrites(args[0], self);
    assert AssignSpec(args, self, [1, 2, 3], 0) == AssignFrom(args[1..], self, [[]], [2, 3, 3], 2);
  }

  /**
    `v = {1,2,3,4}; v.Set(v.xy, 9, v.z);` leaves `v = {1,2,9,3}`: once only
    scalars remain, the scalar overload copies `9` and `v.z` on entry, so
    `v.z` is read before `data[2]` becomes 9.
   */
  method SetCopiesScalarsOnEntry() returns (after: seq<int>)
    ensures after == [1, 2, 9, 3]
  {
    var init := new int[4];
    init[0], init[1], init[2], init[3] := 1, 2, 3, 4;
    var v := new Vector.FromArray(4, false, init);
    var xy := new Swizzle(v.data, [0, 1]);
    var args := [SwizzleArg(xy), Scalar(9), ScalarRef(v.data, 2)];
    assert v.data[..] == [1, 2, 3, 4];
    PrefixThenScalarsAdmitted(args);
    PrefixThenScalarsWrites(args, v.data);
    v.Set(args);
    after := v.data[..];
  }

  /** `(v.xy, 9, v.z)` is admitted for a 4-vector. */
  lemma PrefixThenScalarsAdmitted(args: seq<Arg>)
    requires |args| == 3 && args[0].SwizzleArg? && |args[0].swz.indices| == 2
    requires args[1].Scalar? && args[2].ScalarRef?
    ensures ConcatAdmitted(args, 4)
  {
    var ts := [D.Swz(D.Int, args[0].swz.indices), D.Int, D.Int];
    assert ArgTypes(args) == ts && ts[1..] == [D.Int, D.Int] && ts[1..][1..] == [D.Int];
    assert D.SumDimensionsPropagating(ts[1..]) == 2;
  }

  /** Assigning `(self.xy, 9, self.z)` to `self = {1,2,3,4}` gives `{1,2,9,3}`. */
  lemma PrefixThenScalarsWrites(args: seq<Arg>, self: array<int>)
    requires self.Length == 4 && |args| == 3
    requires args[0].SwizzleArg? && args[0].swz.parent == self && args[0].swz.indices == [0, 1]
    requires args[1] == Scalar(9) && args[2] == ScalarRef(self, 2)
    ensures ArgsValid(args) && TotalWidth(args) == 4
    ensures AssignSpec(args, self, [1, 2, 3, 4], 0) == [1, 2, 9, 3]
  {
    assert args[1..][1..][1..] == [];
    assert TotalWidth(args[1..][1..]) == 1;
    assert TotalWidth(args[1..]) == 2;
    assert Outsides(args[1..], self) == [[], []];
    assert Outsides(args, self) == [[], [], []];
    assert !ScalarsOnly(args) && ScalarsOnly(args[1..]);
    OwnPrefixWrites(args[0], self);
    assert AssignSpec(args, self, [1, 2, 3, 4], 0) == AssignFrom(args[1..], self, [[], []], [1, 2, 3, 4], 2);
  }

  /** Writing the view `xy` of `self = {1,2,3,4}` into `self` from index 0 changes nothing. */
  lemma OwnPrefixWrites(a: Arg, self: array<int>)
    requires a.SwizzleArg? && a.swz.parent == self && a.swz.indices == [0, 1] && self.Length == 4
    ensures WriteArg(a, self, [], [1, 2, 3, 4], 0, 2) == [1, 2, 3, 4]
  {
    assert WriteArg(a, self, [], [1, 2, 3, 4], 0, 1) == [1, 2, 3, 4];
  }

  /** Writing the view `yz` of `self = {1,2,3}` into `self` from index 0 gives `{2,3,3}`. */
  lemma OwnPairWrites(a: Arg, self: array<int>)
    requires a.SwizzleArg? && a.swz.parent == self && a.swz.indices == [1, 2] && self.Length == 3
    ensures WriteArg(a, self, [], [1, 2, 3], 0, 2) == [2, 3, 3]
  {
    assert WriteArg(a, self, [], [1, 2, 3], 0, 1) == [2, 2, 3];
  }

  /** Writing the view `zyx` of `self = {1,2,3}` into `self` element by element gives `{3,2,3}`. */
  lemma OwnReverseWrites(a: Arg, self: array<int>)
    requires a.SwizzleArg? && a.swz.parent == self && a.swz.indices == [2, 1, 0] && self.Length == 3
    ensures WriteArg(a, self, [], [1, 2, 3], 0, 3) == [3, 2, 3]
  {
    assert WriteArg(a, self, [], [1, 2, 3], 0, 1) == [3, 2, 3];
    assert WriteArg(a, self, [], [1, 2, 3], 0, 2) == [3, 2, 3];
  }
}
