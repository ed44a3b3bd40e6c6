/**
  The compile-time trait layer of Mathter's DefinitionsUtil.hpp, with
  C++ types made into values: a `TypeDesc` stands for a type, the
  template predicates and property helpers become total functions over
  it, and the template-metaprogramming lists become sequences.
 */
module DefinitionsUtil {

  datatype Option<T> = None | Some(value: T)

  /** Whether transform matrices are written M*v (precede) or v*M (follow). */
  datatype MatrixOrder = PrecedeVector | FollowVector

  /** Whether a matrix's rows or its columns are contiguous in memory. */
  datatype MatrixLayout = RowMajor | ColumnMajor

  /** The dimension that stands for "sized at run time" (not supported by the library). */
  const DYNAMIC: int := -1

  /**
    A C++ type as the trait layer sees it: one of the five class templates
    with its template arguments, any other type (scalars and everything
    else) by name, or a const- or reference-qualified type.
   */
  datatype TypeDesc =
    | Vec(elem: TypeDesc, dim: int, packed: bool)
    | Swz(elem: TypeDesc, indices: seq<int>)
    | Mat(elem: TypeDesc, rows: int, columns: int, order: MatrixOrder, layout: MatrixLayout, packed: bool)
    | Sub(base: TypeDesc, subRows: int, subColumns: int)
    | Quat(elem: TypeDesc, packed: bool)
    | Other(name: string)
    | Const(inner: TypeDesc)
    | Ref(inner: TypeDesc)

  /** A qualifier that can be put around a type. */
  datatype Qualifier = ConstQ | RefQ

  /** `t` with the qualifiers `qs` applied, the first one outermost. */
  function Qualify(t: TypeDesc, qs: seq<Qualifier>): TypeDesc
    decreases |qs|
  {
    if qs == [] then t
    else if qs[0] == ConstQ then Const(Qualify(t, qs[1..]))
    else Ref(Qualify(t, qs[1..]))
  }

  /** `std::decay` as far as qualifiers go: strips const and reference. */
  function Decay(t: TypeDesc): (r: TypeDesc)
    ensures !r.Const? && !r.Ref?
  {
    match t
    case Const(inner) => Decay(inner)
    case Ref(inner) => Decay(inner)
    case _ => t
  }

  /** Decaying a qualified type gives back the unqualified type. */
  lemma {:induction false} DecayQualify(t: TypeDesc, qs: seq<Qualifier>)
    requires !t.Const? && !t.Ref?
    ensures Decay(Qualify(t, qs)) == t
    decreases |qs|
  {
    if qs != [] {
      DecayQualify(t, qs[1..]);
    }
  }

  // ---------------------------------------------------------------------
  // Shape predicates. Each matches one class template exactly, without
  // stripping qualifiers, as a partial specialization does.
  // ---------------------------------------------------------------------

  predicate IsVector(t: TypeDesc) { t.Vec? }
  predicate NotVector(t: TypeDesc) { !IsVector(t) }

  predicate IsSwizzle(t: TypeDesc) { t.Swz? }
  predicate NotSwizzle(t: TypeDesc) { !IsSwizzle(t) }

  predicate IsVectorOrSwizzle(t: TypeDesc) { IsVector(t) || IsSwizzle(t) }

  predicate IsMatrix(t: TypeDesc) { t.Mat? }
  predicate NotMatrix(t: TypeDesc) { !IsMatrix(t) }

  predicate IsSubmatrix(t: TypeDesc) { t.Sub? }
  predicate NotSubmatrix(t: TypeDesc) { !IsSubmatrix(t) }

  predicate IsQuaternion(t: TypeDesc) { t.Quat? }
  predicate NotQuaternion(t: TypeDesc) { !IsQuaternion(t) }

  /** Scalar is derived: none of the five composite shapes matches. */
  predicate IsScalar(t: TypeDesc) {
    !IsMatrix(t) && !IsVector(t) && !IsSwizzle(t) && !IsQuaternion(t) && !IsSubmatrix(t)
  }

  datatype Shape = ScalarShape | VectorShape | SwizzleShape | MatrixShape | SubmatrixShape | QuaternionShape

  /**
    The one shape a type has. Since the result is a single tag, the
    contract says that exactly one of the six predicates holds.
   */
  function Classify(t: TypeDesc): (s: Shape)
    ensures (s == VectorShape) == IsVector(t)
    ensures (s == SwizzleShape) == IsSwizzle(t)
    ensures (s == MatrixShape) == IsMatrix(t)
    ensures (s == SubmatrixShape) == IsSubmatrix(t)
    ensures (s == QuaternionShape) == IsQuaternion(t)
    ensures (s == ScalarShape) == IsScalar(t)
  {
    match t
    case Vec(_, _, _) => VectorShape
    case Swz(_, _) => SwizzleShape
    case Mat(_, _, _, _, _, _) => MatrixShape
    case Sub(_, _, _) => SubmatrixShape
    case Quat(_, _) => QuaternionShape
    case _ => ScalarShape
  }

  /** Each `NotX` negates `IsX`, and vector-or-swizzle is the disjunction. */
  lemma NegationsAndUnion(t: TypeDesc)
    ensures NotVector(t) == !IsVector(t) && NotSwizzle(t) == !IsSwizzle(t)
    ensures NotMatrix(t) == !IsMatrix(t) && NotSubmatrix(t) == !IsSubmatrix(t)
    ensures NotQuaternion(t) == !IsQuaternion(t)
    ensures IsVectorOrSwizzle(t) == (IsVector(t) || IsSwizzle(t))
  {
  }

  /** The shape predicates do not look through qualifiers: a qualified vector is a scalar. */
  lemma QualifiedIsScalar(t: TypeDesc, qs: seq<Qualifier>)
    requires qs != []
    ensures IsScalar(Qualify(t, qs)) && Classify(Qualify(t, qs)) == ScalarShape
  {
  }

  // ---------------------------------------------------------------------
  // Property extraction. The helper is only specialized for its shape, so
  // asking for the properties of anything else does not compile: here, a
  // precondition.
  // ---------------------------------------------------------------------

  datatype VectorProps = VectorProps(elem: TypeDesc, dim: int, packed: bool)

  datatype MatrixProps = MatrixProps(elem: TypeDesc, rows: int, columns: int,
                                     order: MatrixOrder, layout: MatrixLayout, packed: bool)

  function VectorProperties(t: TypeDesc): (r: VectorProps)
    requires IsVector(Decay(t))
    ensures Vec(r.elem, r.dim, r.packed) == Decay(t)
  {
    var v := Decay(t);
    VectorProps(v.elem, v.dim, v.packed)
  }

  function MatrixProperties(t: TypeDesc): (r: MatrixProps)
    requires IsMatrix(Decay(t))
    ensures Mat(r.elem, r.rows, r.columns, r.order, r.layout, r.packed) == Decay(t)
  {
    var m := Decay(t);
    MatrixProps(m.elem, m.rows, m.columns, m.order, m.layout, m.packed)
  }

  /** Extraction returns exactly the template arguments, under any qualifiers. */
  lemma VectorPropertiesRoundTrip(elem: TypeDesc, dim: int, packed: bool, qs: seq<Qualifier>)
    ensures IsVector(Decay(Qualify(Vec(elem, dim, packed), qs)))
    ensures VectorProperties(Qualify(Vec(elem, dim, packed), qs)) == VectorProps(elem, dim, packed)
  {
    DecayQualify(Vec(elem, dim, packed), qs);
  }

  lemma MatrixPropertiesRoundTrip(elem: TypeDesc, rows: int, columns: int, order: MatrixOrder,
                                  layout: MatrixLayout, packed: bool, qs: seq<Qualifier>)
    ensures IsMatrix(Decay(Qualify(Mat(elem, rows, columns, order, layout, packed), qs)))
    ensures MatrixProperties(Qualify(Mat(elem, rows, columns, order, layout, packed), qs))
            == MatrixProps(elem, rows, columns, order, layout, packed)
  {
    DecayQualify(Mat(elem, rows, columns, order, layout, packed), qs);
  }

  // ---------------------------------------------------------------------
  // Layout complement and numeric helpers
  // ---------------------------------------------------------------------

  function OppositeLayout(layout: MatrixLayout): (r: MatrixLayout)
    ensures r != layout
  {
    if layout == RowMajor then ColumnMajor else RowMajor
  }

  lemma OppositeLayoutInvolution(layout: MatrixLayout)
    ensures OppositeLayout(OppositeLayout(layout)) == layout
  {
  }

  function BoolToInt(b: bool): int { if b then 1 else 0 }

  /** `T(arg > 0) - (arg < 0)`. */
  function Sign(arg: int): (r: int)
    ensures r == 1 <==> arg > 0
    ensures r == 0 <==> arg == 0
    ensures r == -1 <==> arg < 0
  {
    BoolToInt(arg > 0) - BoolToInt(arg < 0)
  }

  /** `T(arg >= 0) - (arg < 0)`: like Sign, but zero counts as positive. */
  function SignNonzero(arg: int): (r: int)
    ensures r != 0
    ensures r == 1 <==> arg >= 0
    ensures r == -1 <==> arg < 0
  {
    BoolToInt(arg >= 0) - BoolToInt(arg < 0)
  }

  /** The tolerance comparison for element types that are not floating point. */
  function AlmostEqual(d1: int, d2: int): bool {
    d1 == d2
  }

  /**
    Unlike the floating-point strategy, which scales by the first operand
    only, the exact strategy is an equivalence: reflexive, symmetric and
    transitive.
   */
  lemma AlmostEqualIsEquivalence(a: int, b: int, c: int)
    ensures AlmostEqual(a, a)
    ensures AlmostEqual(a, b) == AlmostEqual(b, a)
    ensures AlmostEqual(a, b) && AlmostEqual(b, c) ==> AlmostEqual(a, c)
    ensures AlmostEqual(a, b) ==> a == b
  {
  }

  // ---------------------------------------------------------------------
  // Template metaprogramming utilities
  // ---------------------------------------------------------------------

  function All(cond: TypeDesc -> bool, ts: seq<TypeDesc>): bool
    decreases |ts|
  {
    if ts == [] then true else cond(ts[0]) && All(cond, ts[1..])
  }

  function Any(cond: TypeDesc -> bool, ts: seq<TypeDesc>): bool
    decreases |ts|
  {
    if ts == [] then false else cond(ts[0]) || Any(cond, ts[1..])
  }

  /** `All` is the conjunction over the list (vacuously true when empty). */
  lemma {:induction false} AllIffEvery(cond: TypeDesc -> bool, ts: seq<TypeDesc>)
    ensures All(cond, ts) <==> forall i :: 0 <= i < |ts| ==> cond(ts[i])
    decreases |ts|
  {
    if ts != [] {
      AllIffEvery(cond, ts[1..]);
      assert forall i :: 1 <= i < |ts| ==> ts[1..][i - 1] == ts[i];
    }
  }

  /** `Any` is the disjunction over the list (false when empty). */
  lemma {:induction false} AnyIffSome(cond: TypeDesc -> bool, ts: seq<TypeDesc>)
    ensures Any(cond, ts) <==> exists i :: 0 <= i < |ts| && cond(ts[i])
    decreases |ts|
  {
    if ts != [] {
      AnyIffSome(cond, ts[1..]);
      if !cond(ts[0]) && exists i :: 0 <= i < |ts| && cond(ts[i]) {
        var i :| 0 <= i < |ts| && cond(ts[i]);
        assert ts[1..][i - 1] == ts[i];
      }
      if Any(cond, ts[1..]) {
        var i :| 0 <= i < |ts[1..]| && cond(ts[1..][i]);
        assert cond(ts[i + 1]);
      }
    }
  }

  /** `TypeList<T...>`: an inert list of types. */
  type TypeList = seq<TypeDesc>

  function ConcatTypeList(l1: TypeList, l2: TypeList): (r: TypeList)
    ensures |r| == |l1| + |l2|
    ensures forall i :: 0 <= i < |l1| ==> r[i] == l1[i]
    ensures forall j :: 0 <= j < |l2| ==> r[|l1| + j] == l2[j]
  {
    l1 + l2
  }

  /**
    `RepeatType<T, N>` as evidently intended: N copies of T, none when
    N <= 0. The recursion is only entered for positive N.
   */
  function RepeatType(t: TypeDesc, n: int): (r: TypeList)
    ensures |r| == if n <= 0 then 0 else n
    ensures forall i :: 0 <= i < |r| ==> r[i] == t
    decreases n
  {
    if n <= 0 then [] else ConcatTypeList([t], RepeatType(t, n - 1))
  }

  /**
    `RepeatType<T, N>` as written: `std::conditional` takes both branches
    as template arguments, so `RepeatType<T, N - 1>::type` is instantiated
    whatever N is. `depth` is the compiler's remaining instantiation depth;
    `None` means the limit was hit and the program does not compile.
   */
  function RepeatTypeAsWritten(t: TypeDesc, n: int, depth: nat): Option<TypeList>
    decreases depth
  {
    if depth == 0 then None
    else
      match RepeatTypeAsWritten(t, n - 1, depth - 1)
      case None => None
      case Some(rest) => Some(if n <= 0 then [] else ConcatTypeList([t], rest))
  }

  /**
    For every N and any finite depth limit, instantiating `RepeatType<T, N>`
    fails. This follows from the shape of `RepeatTypeAsWritten` alone: its
    recursive call is unconditional and its only base case, the exhausted
    depth, is `None`. The induction confirms that reading of the definition;
    it is no evidence beyond it.
   */
  lemma {:induction false} RepeatTypeNeverInstantiates(t: TypeDesc, n: int, depth: nat)
    ensures RepeatTypeAsWritten(t, n, depth) == None
    decreases depth
  {
    if depth > 0 {
      RepeatTypeNeverInstantiates(t, n - 1, depth - 1);
    }
  }

  // ---------------------------------------------------------------------
  // Dimension arithmetic
  // ---------------------------------------------------------------------

  /**
    `DimensionOf<U, Along>`: only a bare `Vector` (with Along = 0) and a
    bare `Swizzle` have a dimension other than 1.
   */
  function DimensionOf(t: TypeDesc, along: int := 0): (r: int)
    ensures !IsVectorOrSwizzle(t) ==> r == 1
    ensures along != 0 ==> r == 1
    ensures IsVector(t) && along == 0 ==> r == t.dim
    ensures IsSwizzle(t) && along == 0 ==> r == |t.indices|
  {
    if along != 0 then 1
    else match t
      case Vec(_, dim, _) => dim
      case Swz(_, indices) => |indices|
      case _ => 1
  }

  /** Scalars, matrices, submatrices, quaternions and qualified types count as one element. */
  lemma DimensionOfNonVector(t: TypeDesc)
    requires IsScalar(t) || IsMatrix(t) || IsSubmatrix(t) || IsQuaternion(t)
    ensures DimensionOf(t) == 1
  {
  }

  /** Plain sum of the argument dimensions: the reference for SumDimensions. */
  function DimSum(ts: seq<TypeDesc>): int
    decreases |ts|
  {
    if ts == [] then 0 else DimensionOf(ts[0]) + DimSum(ts[1..])
  }

  /** All argument dimensions are positive. */
  predicate AllPositive(ts: seq<TypeDesc>) {
    forall i :: 0 <= i < |ts| ==> DimensionOf(ts[i]) > 0
  }

  /**
    `SumDimensions<Args...>` as written: a head of non-positive dimension
    gives DYNAMIC, but a DYNAMIC coming back from the tail is added to the
    head's dimension like any other number.
   */
  function SumDimensions(ts: seq<TypeDesc>): (r: int)
    ensures r >= DYNAMIC
    ensures r == DYNAMIC <==> ts != [] && DimensionOf(ts[0]) <= 0
    decreases |ts|
  {
    if ts == [] then 0
    else if DimensionOf(ts[0]) > 0 then DimensionOf(ts[0]) + SumDimensions(ts[1..])
    else DYNAMIC
  }

  /** With every dimension positive the fold is the plain sum. */
  lemma {:induction false} SumDimensionsAllPositive(ts: seq<TypeDesc>)
    requires AllPositive(ts)
    ensures SumDimensions(ts) == DimSum(ts)
    ensures SumDimensions(ts) >= |ts|
    decreases |ts|
  {
    if ts != [] {
      assert DimensionOf(ts[0]) > 0;
      SumDimensionsAllPositive(ts[1..]);
    }
  }

  /**
    The literal fold: if the first non-positive dimension is at position
    k, the result is DYNAMIC when k = 0, and otherwise the sum of the
    dimensions before k, minus one.
   */
  lemma {:induction false} SumDimensionsFirstNonPositive(ts: seq<TypeDesc>, k: int)
    requires 0 <= k < |ts| && DimensionOf(ts[k]) <= 0 && AllPositive(ts[..k])
    ensures SumDimensions(ts) == if k == 0 then DYNAMIC else DimSum(ts[..k]) - 1
    decreases k
  {
    if k > 0 {
      assert ts[1..][..k - 1] == ts[..k][1..];
      SumDimensionsFirstNonPositive(ts[1..], k - 1);
      assert DimensionOf(ts[..k][0]) > 0;
    }
  }

  /** Dimensions [3, -1] (a 3-vector then a DYNAMIC vector) give 2, not DYNAMIC. */
  lemma SumDimensionsDynamicTail(elem: TypeDesc)
    ensures SumDimensions([Vec(elem, 3, false), Vec(elem, DYNAMIC, false)]) == 2
  {
    assert [Vec(elem, 3, false), Vec(elem, DYNAMIC, false)][1..] == [Vec(elem, DYNAMIC, false)];
  }

  /**
    The admission check of the concatenating constructor, as written,
    accepts a 2-vector built from a 3-vector and an empty swizzle, whose
    components add up to 3.
   */
  lemma SumDimensionsAdmitsOverlongList(elem: TypeDesc)
    ensures SumDimensions([Vec(elem, 3, false), Swz(elem, [])]) == 2
    ensures DimSum([Vec(elem, 3, false), Swz(elem, [])]) == 3
  {
    var ts := [Vec(elem, 3, false), Swz(elem, [])];
    assert ts[1..] == [Swz(elem, [])];
    assert ts[1..][1..] == [];
    assert DimSum(ts[1..]) == 0;
  }

  /**
    `SumDimensions` as evidently intended: DYNAMIC as soon as any
    argument's dimension is unknown, the plain sum otherwise.
   */
  function SumDimensionsPropagating(ts: seq<TypeDesc>): (r: int)
    ensures r == DYNAMIC <==> exists i :: 0 <= i < |ts| && DimensionOf(ts[i]) <= 0
    ensures r != DYNAMIC ==> r >= |ts| && r == DimSum(ts)
    decreases |ts|
  {
    if ts == [] then 0
    else
      var rest := SumDimensionsPropagating(ts[1..]);
      assert forall i :: 1 <= i < |ts| ==> ts[i] == ts[1..][i - 1];
      if DimensionOf(ts[0]) <= 0 || rest == DYNAMIC then DYNAMIC
      else DimensionOf(ts[0]) + rest
  }

  /** Where no dimension is unknown, the intended and the literal fold agree. */
  lemma SumDimensionsAgree(ts: seq<TypeDesc>)
    requires AllPositive(ts)
    ensures SumDimensionsPropagating(ts) == SumDimensions(ts)
  {
    SumDimensionsAllPositive(ts);
  }

  // ---------------------------------------------------------------------
  // Scenarios
  // ---------------------------------------------------------------------

  const Int: TypeDesc := Other("int")
  const Float: TypeDesc := Other("float")

  lemma Scenarios()
    ensures SumDimensions([]) == 0
    ensures SumDimensions([Vec(Float, 3, false), Float, Vec(Float, 2, false)]) == 6
    ensures All(IsScalar, [Int, Float]) && !Any(IsMatrix, [Int, Vec(Float, 3, false)])
    ensures Classify(Int) == ScalarShape && DimensionOf(Int) == 1
    ensures VectorProperties(Vec(Float, 4, true)) == VectorProps(Float, 4, true)
    ensures MatrixProperties(Mat(Other("double"), 3, 3, PrecedeVector, RowMajor, false)).layout == RowMajor
    ensures OppositeLayout(RowMajor) == ColumnMajor
  {
    var ts := [Vec(Float, 3, false), Float, Vec(Float, 2, false)];
    assert ts[1..][1..] == [Vec(Float, 2, false)];
    assert ts[1..][1..][1..] == [];
    assert SumDimensions(ts[1..][1..]) == 2;
    assert SumDimensions(ts[1..]) == 3;
    var us := [Int, Vec(Float, 3, false)];
    assert us[1..] == [Vec(Float, 3, false)] && us[1..][1..] == [];
    assert !Any(IsMatrix, us[1..]);
  }
}
