# Mathter vectors and type traits, modelled in Dafny

This project models three parts of the Mathter C++ linear-algebra library.
Element types are fixed to `int`.

- **`DefinitionsUtil`** (`definitions_util.dfy`) is the compile-time trait layer of
  `Mathter/DefinitionsUtil.hpp`. A C++ type is a `TypeDesc` value:
  - `Vec`, `Swz`, `Mat`, `Sub` and `Quat` stand for `Vector`, `Swizzle`, `Matrix`,
    `Submatrix` and `Quaternion`;
  - `Other` stands for any other type;
  - `Const` and `Ref` are the qualifiers that `std::decay` strips.

  Every trait template becomes a total function:
  - shape classification, `VectorProperties` and `MatrixProperties`;
  - `OppositeLayout`, `sign` and `sign_nonzero`, and the integer `AlmostEqual`;
  - `All` and `Any`, `ConcatTypeList` and `RepeatType`;
  - `DimensionOf` and `SumDimensions`, with `DYNAMIC = -1`.
- **`VectorImpl`** (`vector_impl.dfy`) is the vector and swizzle code of
  `Mathter/Vector/VectorImpl.hpp`.
  - A `Vector` is a class whose `data` array is written in place by its constructors, `Set` and
    the recursive `Assign`.
  - A `Swizzle` is a view: the parent vector's array plus an index sequence.
  - Arguments of the concatenating constructors and of `Set` are:
    - `Scalar`, a value;
    - `ScalarRef`, a scalar passed as `const T&` to an array element, such as `v.x`;
    - `VectorArg` and `SwizzleArg`, passed by reference.
  - The generalized `Assign` reads its head while `data` is being written. So a swizzle or a
    scalar reference into the vector being set sees values that have already been replaced.
    Once only scalars remain, the scalar `Assign` overload copies them all on entry.
  - Neither swizzle class declares a copy assignment. So `a.xyz = b.xyz`, with both sides of
    the same swizzle type, picks the implicit one, which copies nothing.
- **`IncludeVectorImpl`** (`include_vector_impl.dfy`) is the newer vector and swizzle code of
  `include/Mathter/Vector/VectorImpl.hpp`. It has:
  - the `ExtendedDim` padding rule;
  - `AsTuple` flattening;
  - constructors that store the flattened tuple in one step;
  - a swizzle assignment that writes through the swizzle's own `operator[]`.
- **`Elements`** (`elements.dfy`) holds the sequence operations both vector modules share:
  - `Zeros` is the zero padding;
  - `Gather` is a swizzled read;
  - `Scatter` is a swizzled write: one write per index in ascending order, so the last write
    to a position wins.

Where the code does something other than what it evidently means to do, the model follows the
code. The intended behaviour is kept beside it as a separate member (see "## Findings"):
- `SumDimensions` turns a non-positive head dimension into DYNAMIC with its
  `> 0 ? ... : DYNAMIC` guard (`Mathter/DefinitionsUtil.hpp:278`). The intended fold is
  inferred from that guard: DYNAMIC once any argument is dynamic. The code, however, adds a
  DYNAMIC tail sum to the head's dimension.
- The newer swizzle assignment is documented as `a.yxz = b` giving `{2,1,3}`.

The newer mixed constructor does not compare the argument count with the dimension. A shorter
argument list leaves the trailing elements zero, because that is how the braced assignment
`data = { ... }` behaves. The model states exactly that.

## Model

| member | source | states |
|---|---|---|
| `DefinitionsUtil.Decay` | Mathter/DefinitionsUtil.hpp:88-89 | the decayed type carries no const or reference qualifier |
| `DefinitionsUtil.DecayQualify` | Mathter/DefinitionsUtil.hpp:88-89 | decaying any stack of const/reference qualifiers gives back the unqualified type |
| `DefinitionsUtil.Classify` | Mathter/DefinitionsUtil.hpp:181-256 | exactly one shape holds for every type; it is vector, swizzle, matrix, submatrix or quaternion exactly when that predicate holds, and scalar exactly when none of them does |
| `DefinitionsUtil.NegationsAndUnion` | Mathter/DefinitionsUtil.hpp:190-250 | each `NotX` is the negation of `IsX`; `IsVectorOrSwizzle` is `IsVector` or `IsSwizzle` |
| `DefinitionsUtil.QualifiedIsScalar` | Mathter/DefinitionsUtil.hpp:182-256 | the shape predicates do not strip qualifiers: a const or reference type classifies as scalar |
| `DefinitionsUtil.VectorProperties` | Mathter/DefinitionsUtil.hpp:77-89 | defined only when the decayed type is a vector; returns that vector's element type, dimension and packing |
| `DefinitionsUtil.VectorPropertiesRoundTrip` | Mathter/DefinitionsUtil.hpp:77-89 | for a vector under any qualifiers, the properties are exactly its template arguments |
| `DefinitionsUtil.MatrixProperties` | Mathter/DefinitionsUtil.hpp:92-108 | defined only when the decayed type is a matrix; returns its element type, rows, columns, order, layout and packing |
| `DefinitionsUtil.MatrixPropertiesRoundTrip` | Mathter/DefinitionsUtil.hpp:92-108 | for a matrix under any qualifiers, the properties are exactly its template arguments |
| `DefinitionsUtil.OppositeLayout` | Mathter/DefinitionsUtil.hpp:111-115 | the result is never the input layout |
| `DefinitionsUtil.OppositeLayoutInvolution` | Mathter/DefinitionsUtil.hpp:111-115 | flipping twice gives the original layout |
| `DefinitionsUtil.Sign` | Mathter/DefinitionsUtil.hpp:122-125 | 1, 0 or -1 exactly when the argument is positive, zero or negative |
| `DefinitionsUtil.SignNonzero` | Mathter/DefinitionsUtil.hpp:127-130 | never 0; 1 exactly when the argument is at least 0, -1 exactly when it is negative |
| `DefinitionsUtil.AlmostEqual` | Mathter/DefinitionsUtil.hpp:311-314 | the non-floating overload compares exactly; no contract of its own, `AlmostEqualIsEquivalence` states its properties |
| `DefinitionsUtil.AlmostEqualIsEquivalence` | Mathter/DefinitionsUtil.hpp:304-314 | for non-floating types the comparison is exact equality, hence reflexive, symmetric and transitive |
| `DefinitionsUtil.All` | Mathter/DefinitionsUtil.hpp:135-146 | the conjunctive fold over the type list, true on the empty list; no contract of its own, `AllIffEvery` states its meaning |
| `DefinitionsUtil.Any` | Mathter/DefinitionsUtil.hpp:149-160 | the disjunctive fold over the type list, false on the empty list; no contract of its own, `AnyIffSome` states its meaning |
| `DefinitionsUtil.AllIffEvery` | Mathter/DefinitionsUtil.hpp:135-146 | `All` holds exactly when the predicate holds of every element (true on the empty list) |
| `DefinitionsUtil.AnyIffSome` | Mathter/DefinitionsUtil.hpp:149-160 | `Any` holds exactly when the predicate holds of some element (false on the empty list) |
| `DefinitionsUtil.ConcatTypeList` | Mathter/DefinitionsUtil.hpp:164-173 | the first list's elements in order, followed by the second's |
| `DefinitionsUtil.RepeatType` | Mathter/DefinitionsUtil.hpp:175-178 | exactly max(N, 0) copies of T (the intended definition) |
| `DefinitionsUtil.RepeatTypeAsWritten` | Mathter/DefinitionsUtil.hpp:175-178 | the template as written, with the compiler's instantiation depth as a budget; no contract of its own, `RepeatTypeNeverInstantiates` states that it never yields a list |
| `DefinitionsUtil.RepeatTypeNeverInstantiates` | Mathter/DefinitionsUtil.hpp:175-178 | as written, instantiating `RepeatType<T, N>` recurses into `RepeatType<T, N-1>` for every N and exhausts any instantiation depth |
| `DefinitionsUtil.DimensionOf` | Mathter/DefinitionsUtil.hpp:258-270 | a bare vector with `Along = 0` has its `Dim`, a swizzle its number of indices, every other type or axis 1 |
| `DefinitionsUtil.DimensionOfNonVector` | Mathter/DefinitionsUtil.hpp:258-270 | scalars, matrices, submatrices and quaternions have dimension 1 |
| `DefinitionsUtil.SumDimensions` | Mathter/DefinitionsUtil.hpp:272-284 | the literal fold is never below DYNAMIC, and it is DYNAMIC exactly when the head's dimension is non-positive; a non-positive dimension later in the list does not make it DYNAMIC |
| `DefinitionsUtil.SumDimensionsAllPositive` | Mathter/DefinitionsUtil.hpp:272-284 | with every dimension positive the fold is the plain sum, at least the number of arguments |
| `DefinitionsUtil.SumDimensionsFirstNonPositive` | Mathter/DefinitionsUtil.hpp:272-284 | with the first non-positive dimension at position k, the result is DYNAMIC when k = 0 and otherwise the sum before k minus 1 |
| `DefinitionsUtil.SumDimensionsDynamicTail` | Mathter/DefinitionsUtil.hpp:276-279 | a 3-vector followed by a DYNAMIC vector sums to 2, not DYNAMIC |
| `DefinitionsUtil.SumDimensionsAdmitsOverlongList` | Mathter/Vector/VectorImpl.hpp:466-470 | a 3-vector and an empty swizzle have the literal sum 2 but 3 components, so the constructor's check admits them for a 2-vector |
| `DefinitionsUtil.SumDimensionsPropagating` | Mathter/DefinitionsUtil.hpp:276-279 | DYNAMIC exactly when some argument's dimension is non-positive, otherwise the plain sum (the intended fold) |
| `DefinitionsUtil.SumDimensionsAgree` | Mathter/DefinitionsUtil.hpp:276-279 | with every dimension positive the literal and the intended fold agree |
| `DefinitionsUtil.Scenarios` | Mathter/DefinitionsUtil.hpp:272-284 | the empty sum is 0, (vector3, scalar, vector2) sums to 6, and the other worked examples of the trait layer |
| `Elements.Gather` | Mathter/Vector/VectorImpl.hpp:70-90 | the swizzled read has one element per index, each an element of the parent |
| `Elements.Zeros` | Mathter/Vector/VectorImpl.hpp:702-707 | the padding has the requested length and every element is 0 |
| `Elements.Scatter` | Mathter/Vector/VectorImpl.hpp:99-107 | writing through indices keeps the parent's length |
| `Elements.ScatterOutside` | Mathter/Vector/VectorImpl.hpp:99-107 | a swizzle write changes no parent element that no index names |
| `Elements.ScatterAt` | Mathter/Vector/VectorImpl.hpp:99-107 | with distinct indices, parent position `Indices[k]` ends up holding `rhs[k]` |
| `Elements.GatherScatter` | Mathter/Vector/VectorImpl.hpp:72-91 | with distinct indices, reading a swizzle back after writing it returns what was written |
| `Elements.ScatterGather` | Mathter/Vector/VectorImpl.hpp:720-741 | writing a swizzle's own values back through it (`a.zyx = Vector<int, 3>(a.zyx)`) changes nothing, whatever the indices |
| `VectorImpl.Vector.Dimension` | Mathter/Vector/VectorImpl.hpp:401-404 | `Dim`, at least 1 and equal to the number of stored elements |
| `VectorImpl.Vector.Copy` | Mathter/Vector/VectorImpl.hpp:412 | the copy has the same dimension and the same elements in fresh storage |
| `VectorImpl.Vector.Fill` | Mathter/Vector/VectorImpl.hpp:415-426 | every element equals `all` |
| `VectorImpl.Vector.FromArray` | Mathter/Vector/VectorImpl.hpp:428-435 | element i is `p[i]` for i below `Dim` |
| `VectorImpl.Vector.CopyFrom` | Mathter/Vector/VectorImpl.hpp:430-435 | the elements become the first `Dim` elements `p` held before the loop, even when `p` is the vector's own array |
| `VectorImpl.Vector.Upcast` | Mathter/Vector/VectorImpl.hpp:441-443 | the `Dim - 1` elements of `rhs`, then 1 |
| `VectorImpl.Vector.Downcast` | Mathter/Vector/VectorImpl.hpp:445-447 | the first `Dim` elements of the `Dim + 1` vector |
| `VectorImpl.Vector.Concat` | Mathter/Vector/VectorImpl.hpp:455-470 | for an argument list the constructors admit, the elements are the arguments' components in argument order |
| `VectorImpl.Vector.Set` | Mathter/Vector/VectorImpl.hpp:472-490 | the new elements are what `Assign` writes when vector, swizzle and scalar references are read as the source reads them; when no argument refers into this vector, they are the arguments' components in order |
| `VectorImpl.Vector.SetIntended` | Mathter/Vector/VectorImpl.hpp:484-490 | the elements become the arguments' components as they were before the call, aliasing or not |
| `VectorImpl.Vector.Assign` | Mathter/Vector/VectorImpl.hpp:685-707 | the elements from `idx` on are each argument's components in turn and the rest is zero-filled; a head that is not part of an all-scalar list is read at the moment it is written, and an all-scalar list is copied on entry |
| `VectorImpl.Vector.AssignValues` | Mathter/Vector/VectorImpl.hpp:685-690 | the copied scalar values go to `idx` onward in order, the elements before `idx` are kept and the rest is zero-filled |
| `VectorImpl.ScalarsOnlyIsAll` | Mathter/Vector/VectorImpl.hpp:686 | the model's test for the scalar overload is the trait layer's `All<IsScalar>` over the argument types, in both directions |
| `VectorImpl.ValuesOnEntry` | Mathter/Vector/VectorImpl.hpp:686-690 | one value per scalar, each read as it stands when the overload is entered, a reference into the vector included |
| `VectorImpl.ValuesOnEntryAreComponents` | Mathter/Vector/VectorImpl.hpp:686-690 | read from the heap on entry, the scalars' values are their components |
| `VectorImpl.ValuesOnEntryUnaliased` | Mathter/Vector/VectorImpl.hpp:686-690 | for scalars that do not refer into the vector, the values copied on entry are the components read from the snapshots |
| `VectorImpl.AssignSpecWhole` | Mathter/Vector/VectorImpl.hpp:455-490 | from index 0, an unaliased list with exactly `Dim` components fills the vector with them |
| `VectorImpl.Vector.AssignZeroFill` | Mathter/Vector/VectorImpl.hpp:702-707 | elements before `idx` are kept, those from `idx` to `Dim - 1` become 0 |
| `VectorImpl.Vector.Dot` | Mathter/Vector/VectorImpl.hpp:623-630 | the accumulated sum of `lhs[i] * rhs[i]` over all i |
| `VectorImpl.Vector.LengthSquared` | Mathter/Vector/VectorImpl.hpp:642-645 | the dot product of the vector with itself, never negative |
| `VectorImpl.Swizzle.Get` | Mathter/Vector/VectorImpl.hpp:72-91 | element k of the swizzle is parent element `Indices[k]` |
| `VectorImpl.Swizzle.SetAt` | Mathter/Vector/VectorImpl.hpp:72-86 | writing element k writes parent element `Indices[k]` and nothing else |
| `VectorImpl.Swizzle.ToVector` | Mathter/Vector/VectorImpl.hpp:711-718 | a fresh vector of `sizeof...(Indices)` elements holding the parent's elements at the indices, in order |
| `VectorImpl.Swizzle.Assign` | Mathter/Vector/VectorImpl.hpp:99-107 | `rhs[k]` goes to parent position `Indices[k]`, k ascending |
| `VectorImpl.Swizzle.AssignVector` | Mathter/Vector/VectorImpl.hpp:720-741 | the parent becomes the scatter of `rhs`'s values from before the call, also when `rhs` is the parent itself |
| `VectorImpl.Swizzle.AssignSwizzle` | Mathter/Vector/VectorImpl.hpp:35-108 | with `rhs` of the same type (the same indices), the implicit copy assignment leaves the parent unchanged; otherwise the parent becomes the scatter of the values `rhs` showed before the call, also when both swizzles view the same parent |
| `VectorImpl.Swizzle.AssignSwizzleIntended` | Mathter/Vector/VectorImpl.hpp:60-69 | for every `rhs`, the parent becomes the scatter of the values `rhs` showed before the call |
| `VectorImpl.Components` | Mathter/Vector/VectorImpl.hpp:671-682 | an argument contributes as many values as its `DimensionOf` |
| `VectorImpl.ConcatAdmitted` | Mathter/Vector/VectorImpl.hpp:455-470 | an admitted argument list has exactly `Dim` components in all |
| `VectorImpl.DimSumIsTotalWidth` | Mathter/Vector/VectorImpl.hpp:455-470 | the trait layer's dimension sum of the argument types equals the number of components the arguments supply |
| `VectorImpl.Vector.AssignHead` | Mathter/Vector/VectorImpl.hpp:693-699 | the head's components (one, for a scalar or a scalar reference) are written to `idx` onward one by one, each read at the moment it is written, and the returned index is `idx` plus the head's dimension |
| `VectorImpl.ReadLive` | Mathter/Vector/VectorImpl.hpp:671-682 | `GetVectorElement<U>::Get`: a scalar gives its value, a scalar reference, vector or swizzle element `i` read from the vector's current contents when it views the vector and from its own storage otherwise; no contract of its own, `FlattenFromOutsides` and `AssignSpecUnaliased` state what the reads add up to |
| `VectorImpl.WriteArg` | Mathter/Vector/VectorImpl.hpp:693-699 | writing part of one argument keeps the vector's length |
| `VectorImpl.WriteArgUnaliased` | Mathter/Vector/VectorImpl.hpp:693-699 | an argument that does not view the vector is copied from its own storage into positions `idx` onward and nothing else changes |
| `VectorImpl.Outsides` | Mathter/Vector/VectorImpl.hpp:685-700 | one snapshot per argument, each of the length of the array that argument reads unless that array is the vector's own |
| `VectorImpl.AssignFrom` | Mathter/Vector/VectorImpl.hpp:685-707 | the recursive `Assign` over snapshots of the other arrays keeps the vector's length |
| `VectorImpl.AssignSpec` | Mathter/Vector/VectorImpl.hpp:685-707 | the whole assignment, read against the arrays as they are, keeps the vector's length |
| `VectorImpl.OutsidesCons` | Mathter/Vector/VectorImpl.hpp:693-699 | the snapshots of `head, rest...` are the head's snapshot followed by those of `rest...` |
| `VectorImpl.AssignFromUnaliased` | Mathter/Vector/VectorImpl.hpp:685-707 | when no argument views the vector, the recursion leaves the old prefix, then every component in order, then zeros |
| `VectorImpl.FlattenFromOutsides` | Mathter/Vector/VectorImpl.hpp:671-682 | for arguments that do not view the vector, the components read from the snapshots are the arguments' components |
| `VectorImpl.AssignSpecUnaliased` | Mathter/Vector/VectorImpl.hpp:685-707 | when no argument views the vector, it holds its old prefix, then all components in order, then zeros |
| `VectorImpl.ScalarsAdmitted` | Mathter/Vector/VectorImpl.hpp:711-714 | the scalars a swizzle conversion passes pass the scalar constructor's check |
| `VectorImpl.FlattenScalars` | Mathter/Vector/VectorImpl.hpp:711-714 | passing values as scalars lays them out unchanged |
| `VectorImpl.TotalWidthScalars` | Mathter/Vector/VectorImpl.hpp:711-714 | n scalars supply n components |
| `VectorImpl.DotSymmetric` | Mathter/Vector/VectorImpl.hpp:623-630 | for integers `Dot(a, b) == Dot(b, a)` |
| `VectorImpl.DotSelfNonNegative` | Mathter/Vector/VectorImpl.hpp:642-645 | a squared length is never negative |
| `VectorImpl.SwizzleAssignExample` | Mathter/Vector/VectorImpl.hpp:47-51 | `b = {1,2,3}; a.yxz = b` leaves `a = {2,1,3}` |
| `VectorImpl.SetThroughOwnSwizzle` | Mathter/Vector/VectorImpl.hpp:693-699 | `v = {1,2,3}; v.Set(v.zyx)` leaves `{3,2,3}`, where reading first would give `{3,2,1}` |
| `VectorImpl.SetThroughOwnScalar` | Mathter/Vector/VectorImpl.hpp:685-699 | `v = {1,2,3}; v.Set(v.yz, v.x)` leaves `{2,3,2}`, where reading first would give `{2,3,1}` |
| `VectorImpl.SetCopiesScalarsOnEntry` | Mathter/Vector/VectorImpl.hpp:685-699 | `v = {1,2,3,4}; v.Set(v.xy, 9, v.z)` leaves `{1,2,9,3}`: `v.z` is copied before 9 is written |
| `VectorImpl.SameTypeSwizzleAssign` | Mathter/Vector/VectorImpl.hpp:35-108 | `a = {1,2,3}; b = {4,5,6}; a.xyz = b.xyz` leaves `a = {1,2,3}`, where the template would give `{4,5,6}` |
| `IncludeVectorImpl.ExtendedDim` | include/Mathter/Vector/VectorImpl.hpp:107-118 | never below `Dim`; packed vectors keep `Dim`; unpacked 3 becomes 4 and 6 or 7 become 8, and no other size changes |
| `IncludeVectorImpl.ExtendedDimIdempotent` | include/Mathter/Vector/VectorImpl.hpp:107-118 | a padded size is not padded again |
| `IncludeVectorImpl.Vector.Dimension` | include/Mathter/Vector/VectorImpl.hpp:318-320 | `Dim`, at least 1 and equal to the number of stored elements |
| `IncludeVectorImpl.Vector.Convert` | include/Mathter/Vector/VectorImpl.hpp:331-337 | element i is `other.data[i]` |
| `IncludeVectorImpl.Vector.FromArray` | include/Mathter/Vector/VectorImpl.hpp:362-367 | exactly `Dimension()` elements are copied from `p` |
| `IncludeVectorImpl.Vector.Fill` | include/Mathter/Vector/VectorImpl.hpp:369-377 | every element equals `all` |
| `IncludeVectorImpl.Vector.Mixed` | include/Mathter/Vector/VectorImpl.hpp:379-387 | the elements are the concatenated `AsTuple` of the arguments in order, then zeros |
| `IncludeVectorImpl.Vector.Upcast` | include/Mathter/Vector/VectorImpl.hpp:349-351 | the elements of `rhs`, then 1 |
| `IncludeVectorImpl.Vector.Downcast` | include/Mathter/Vector/VectorImpl.hpp:353-355 | all elements of `rhs` but the last |
| `IncludeVectorImpl.Vector.Store` | include/Mathter/Vector/VectorImpl.hpp:385 | the braced list first, zeros after it |
| `IncludeVectorImpl.Swizzle.Get` | include/Mathter/Vector/VectorImpl.hpp:74-94 | element k of the swizzle is parent element `IndexTable[k]` |
| `IncludeVectorImpl.Swizzle.SetAt` | include/Mathter/Vector/VectorImpl.hpp:75-89 | the reference handed out is parent element `IndexTable[k]`; nothing else changes |
| `IncludeVectorImpl.Swizzle.Convert` | include/Mathter/Vector/VectorImpl.hpp:448-461 | a fresh vector of `sizeof...(Indices)` elements holding the parent's elements at the indices, in order |
| `IncludeVectorImpl.Swizzle.ToVector` | include/Mathter/Vector/VectorImpl.hpp:96-100 | the same gathered vector, with the parent's dimension |
| `IncludeVectorImpl.Swizzle.AssignVector` | include/Mathter/Vector/VectorImpl.hpp:464-475 | `rhs[k]` lands on parent position `IndexTable[Indices[k]]`, from the values `rhs` had before the call, also when `rhs` is the parent |
| `IncludeVectorImpl.Swizzle.AssignVectorIntended` | include/Mathter/Vector/VectorImpl.hpp:55-61 | `rhs[k]` lands on parent position `Indices[k]`, as documented |
| `IncludeVectorImpl.Swizzle.AssignSwizzle` | include/Mathter/Vector/VectorImpl.hpp:44-101 | with `rhs` of the same type (same `Dim`, `Packed` and indices), the implicit copy assignment leaves the parent unchanged for any indices, even ones past the index table; otherwise the parent becomes the as-written scatter of the values `rhs` showed before the call |
| `IncludeVectorImpl.Swizzle.AssignSwizzleIntended` | include/Mathter/Vector/VectorImpl.hpp:63-72 | for every `rhs`, element k of `rhs` lands on parent position `Indices[k]`, as documented |
| `IncludeVectorImpl.SameTypeSwizzleAssign` | include/Mathter/Vector/VectorImpl.hpp:44-101 | `a.xyz = b.xyz` on two unpacked 3-element vectors leaves `a = {1,2,3}`, where the documented behaviour gives `{4,5,6}` |
| `IncludeVectorImpl.SameTypeSwizzleAssignPastTable` | include/Mathter/Vector/VectorImpl.hpp:44-101 | `a.zw = b.zw` on two unpacked 4-element vectors `{1,2,3,4}` and `{5,6,7,8}` is accepted and leaves `a = {1,2,3,4}`, although `z` and `w` index past the two-entry table; as documented `a` would become `{1,2,7,8}` |
| `IncludeVectorImpl.TableLookups` | include/Mathter/Vector/VectorImpl.hpp:466-469 | the positions written are all drawn from the index table |
| `IncludeVectorImpl.AsWrittenAgreesOnFixedPoints` | include/Mathter/Vector/VectorImpl.hpp:466-469 | when `Indices[Indices[k]] == Indices[k]` for every k (as for `xyz`), the written positions are the documented ones |
| `IncludeVectorImpl.YxzAssignmentAsWritten` | include/Mathter/Vector/VectorImpl.hpp:466-469 | `b = {1,2,3}; a.yxz = b` writes positions 0, 1, 2 and leaves `a = {1,2,3}` |
| `IncludeVectorImpl.YxzAssignmentIntended` | include/Mathter/Vector/VectorImpl.hpp:55-58 | the documented behaviour leaves `a = {2,1,3}` |
| `IncludeVectorImpl.AccessorChecks` | include/Mathter/Vector/VectorImpl.hpp:75-78 | the accessors' `assert(idx < Dim)` against the parent's dimension; no contract of its own, the two lemmas below state what it admits and refuses |
| `IncludeVectorImpl.AccessorCheckAdmitsOutOfTable` | include/Mathter/Vector/VectorImpl.hpp:75-78 | for any swizzle, the check admits an index past the swizzle's table if and only if the swizzle is shorter than its parent |
| `IncludeVectorImpl.AccessorCheckRejectsInTable` | include/Mathter/Vector/VectorImpl.hpp:75-78 | for any swizzle, the check refuses an index inside the swizzle's table if and only if the swizzle is longer than its parent |
| `IncludeVectorImpl.AsTuple` | include/Mathter/Vector/VectorImpl.hpp:258-281 | a vector gives its `Dim` elements, a swizzle one element per index, any other value one element |
| `IncludeVectorImpl.Flatten` | include/Mathter/Vector/VectorImpl.hpp:384 | the concatenated tuple has as many elements as all arguments together |
| `IncludeVectorImpl.FlattenAppend` | include/Mathter/Vector/VectorImpl.hpp:384 | flattening two argument lists one after the other is flattening their concatenation |
| `IncludeVectorImpl.FlattenSlot` | include/Mathter/Vector/VectorImpl.hpp:379-387 | component i of argument j sits right after the components of arguments 0 to j - 1 |
| `IncludeVectorImpl.TotalWidthScalars` | include/Mathter/Vector/VectorImpl.hpp:460 | n scalars supply n components |
| `IncludeVectorImpl.FlattenScalars` | include/Mathter/Vector/VectorImpl.hpp:460 | passing values as scalars lays them out unchanged |

## Left out

- The floating-point `AlmostEqual` (`pow`, `log10`, `round` and fixed thresholds) is left out, because the model has no floating point.
- `Normalize`, `Normalized`, `IsNormalized`, `SafeNormalize`, `SafeNormalized`, `IsNullvector`, `Length` and `LengthPrecise` are left out. They rely on floating-point `sqrt` and `numeric_limits` tolerances.
- SIMD storage is left out: the `Simd` vector data, `IsBatched`, `Batch`, `Alignment` and `Vector(ArgBatchT)`. These wrap an external batch library. For the fill constructor only the element-level result is modelled.
- The union layout is left out: the `x`/`y`/`z`/`w` members, the `data`/`extended` overlay and `Swizzle::data()`. A swizzle is its parent's array plus an index sequence. A member such as `v.x`, passed to `Set` or a constructor, is a `ScalarRef` to the element of `data` it overlays.
- `BasePtrEquals` and `MatMulElemT` are left out. One is a compiler-specific pointer-identity check and the other is `decltype` deduction, so neither has behaviour to state.
- `Mathter/MatrixModules/MatrixModule.hpp` is not part of this model. It only selects an optional module type.
- The swizzle `.inc` files, `Traits.hpp` and `Definitions.hpp` are not part of this model. `MATHTER_VECTOR_INITIALIZER` is left out with them, so the default constructor's uninitialised storage is left out too.
- Element types other than `int` are not modelled. Element casts `(T)x` are identity. Integer overflow in `Dot` and `LengthSquared` is not modelled, because integers are unbounded here.
- The element accessors, iterators and `Data()` of `Vector` are represented only by the `data` array.
- The `Packed = true` overloads of the older swizzle conversion and `operator=` are not modelled separately. They behave like the unpacked ones, which are modelled.
- The newer `Swizzle<T, Dim, Packed, Indices...>` does not match the `Swizzle<T, Indices...>` that `Mathter/DefinitionsUtil.hpp` declares. So the newer module does not use the trait layer, and its mixed constructor's only admission condition is that the components fit.
- `VectorImpl.ConcatAdmitted` sums dimensions with `SumDimensionsPropagating` rather than the literal `SumDimensions`. It therefore refuses argument lists that `enable_if` and `static_assert` accept but that would write past `Dim` (see "## Findings").
- `VectorImpl.Swizzle.Assign` requires `rhs` to be an array other than the parent. Its only caller, `operator=`, checks exactly this before calling it.
- `IncludeVectorImpl.Swizzle.AssignVector` requires every index to be below the number of indices. Otherwise `IndexTable[Indices[k]]` reads past the table, and the behaviour is undefined.
- `IncludeVectorImpl.Swizzle.AssignSwizzle` requires, for an `rhs` of another type only, every index to be below the number of indices, because that case goes through `AssignVector`. An `rhs` of the same type needs no such condition.
- `IncludeVectorImpl.Swizzle.Get` and `IncludeVectorImpl.Swizzle.SetAt` require the index to be below the number of indices. The source's `assert(idx < Dim)` compares with the parent's dimension instead. That is laxer for a swizzle shorter than its parent and stricter for one longer than its parent; see "## Findings".
- `IncludeVectorImpl.Swizzle.Get`, `IncludeVectorImpl.Swizzle.SetAt` and `IncludeVectorImpl.AsTuple` do not model the debug assertion failing for a swizzle longer than its parent (an index at or past the parent's `Dim`). `AsTuple` and so the mixed constructor read every index through `operator[]`, so with assertions on they stop there; the model returns the elements the table names.
- `VectorImpl` takes `traits::SumDimensions`, `traits::All` and `traits::Any` (used at `Mathter/Vector/VectorImpl.hpp:459`, `:467`, `:475-477` and `:485-487`) to be the `impl::` definitions of `Mathter/DefinitionsUtil.hpp`, because `Traits.hpp` is not part of this model.
- `IncludeVectorImpl.Swizzle.ToVector` is modelled only where the swizzle has as many indices as its parent has elements. Elsewhere `Vector<T, Dim, Packed>(*this)` names the parent's dimension and does not compile.

## Findings

| source | as written | input that shows it | evidently intended | confidence | as-written member | corrected member |
|---|---|---|---|---|---|---|
| include/Mathter/Vector/VectorImpl.hpp:466-469 | `std::tie((*this)[Indices]...)` goes through `operator[]`, so `rhs[k]` is written to `parent[IndexTable[Indices[k]]]`; for swizzles such as `v.yz`, `v.zw` or `v.yzw`, some `Indices[k]` is at or past the number of indices, so `IndexTable[Indices[k]]` reads past the table, which is undefined behaviour | `b = {1,2,3}; a.yxz = b;` leaves `a = {1,2,3}` | `parent[Indices[k]] = rhs[k]`, giving `{2,1,3}` as the comment at line 57 says | high, not executed | `IncludeVectorImpl.Swizzle.AssignVector`, `IncludeVectorImpl.YxzAssignmentAsWritten` | `IncludeVectorImpl.Swizzle.AssignVectorIntended`, `IncludeVectorImpl.YxzAssignmentIntended` |
| include/Mathter/Vector/VectorImpl.hpp:75-78 | the accessors check `idx < Dim` against the parent's dimension, then index `IndexTable[idx]` | `v.xy[3]` on a 4-element vector passes the check and reads entry 3 of a two-entry table; `v.xxyy[3]` on a 2-element vector fails the check although entry 3 of the table is 1 | check `idx < sizeof...(Indices)` | high, not executed | `IncludeVectorImpl.AccessorChecks`, `IncludeVectorImpl.AccessorCheckAdmitsOutOfTable`, `IncludeVectorImpl.AccessorCheckRejectsInTable` | `IncludeVectorImpl.Swizzle.Get` |
| Mathter/DefinitionsUtil.hpp:175-178 | `std::conditional` is given `RepeatType<T, N - 1>::type` as an argument, so it is instantiated whatever N is | `RepeatType<int, 0>` (every N) recurses without end | stop the recursion at N <= 0 | high, not executed | `DefinitionsUtil.RepeatTypeAsWritten`, `DefinitionsUtil.RepeatTypeNeverInstantiates` | `DefinitionsUtil.RepeatType` |
| Mathter/DefinitionsUtil.hpp:276-279 | a DYNAMIC (-1) sum returned by the tail is added to the head's dimension | `SumDimensions<Vector<float, 3>, Vector<float, DYNAMIC>>` is 2 | DYNAMIC as soon as any argument's dimension is non-positive, as the head's guard at line 278 suggests | medium, not executed | `DefinitionsUtil.SumDimensions`, `DefinitionsUtil.SumDimensionsDynamicTail` | `DefinitionsUtil.SumDimensionsPropagating` |
| Mathter/Vector/VectorImpl.hpp:693-699 | `Set` reads each argument's component at the moment it writes `data[idx]`, so a swizzle of the same vector, or a scalar passed by reference into it, sees elements already overwritten | `v = {1,2,3}; v.Set(v.zyx);` leaves `{3,2,3}`; `v.Set(v.yz, v.x)` leaves `{2,3,2}` | read all arguments first, giving `{3,2,1}` and `{2,3,1}` | medium, not executed | `VectorImpl.Vector.Set`, `VectorImpl.SetThroughOwnSwizzle`, `VectorImpl.SetThroughOwnScalar` | `VectorImpl.Vector.SetIntended` |
| Mathter/Vector/VectorImpl.hpp:65-69 | no copy assignment is declared, so for a right side of the same `Swizzle<T, Indices...>` type the implicit one, which copies nothing, is chosen over this template | `a = {1,2,3}; b = {4,5,6}; a.xyz = b.xyz;` leaves `a = {1,2,3}` | go through the template, giving `{4,5,6}` | high, not executed | `VectorImpl.Swizzle.AssignSwizzle`, `VectorImpl.SameTypeSwizzleAssign` | `VectorImpl.Swizzle.AssignSwizzleIntended` |
| include/Mathter/Vector/VectorImpl.hpp:68-72 | no copy assignment is declared, so for a right side of the same `Swizzle<T, Dim, Packed, Indices...>` type the implicit one, which copies nothing, is chosen over this template | `a.xyz = b.xyz;` on two unpacked 3-element vectors `{1,2,3}` and `{4,5,6}` leaves `a = {1,2,3}` | write `rhs[k]` to `parent[Indices[k]]`, giving `{4,5,6}` | high, not executed | `IncludeVectorImpl.Swizzle.AssignSwizzle`, `IncludeVectorImpl.SameTypeSwizzleAssign` | `IncludeVectorImpl.Swizzle.AssignSwizzleIntended` |
