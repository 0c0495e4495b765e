/**
 The Tensor struct: a handle whose buffer lives on the heap and is written in place. Copying a tensor
 copies the buffer.
 */
module Tensors {
  import opened MachineInts
  import opened Results
  import opened Sums
  import opened Linear
  import opened TensorIndex
  import opened Kernels
  import opened Reductions
  import opened ThreadPools
  import opened ParallelLoops

  datatype Tensor = Tensor(dims: nat, shape: seq<int>, strides: seq<int>, data: array<real>, pool: ThreadPool?) {

    ghost predicate Valid() {
      && dims == |shape| >= 1
      && IntExtents(shape)
      && strides == IntStrides(shape)
      && data.Length == Product(shape) < TWO_64
    }

    function Get(): TensorValue
      reads data
    {
      TensorValue(shape, data[..])
    }
  }

  lemma {:induction false} MatrixLengthFits(r: nat, c: nat)
    requires r < TWO_31 && c < TWO_31
    ensures 0 <= r * c < TWO_64
  {
    Times(0, r, c);
    Times(r, TWO_31, c);
    assert TWO_31 * c < TWO_31 * TWO_31;
    assert TWO_31 * TWO_31 < TWO_64;
  }

  lemma {:induction false} ModMultiply(a: int, b: int, m: int)
    requires m > 0
    ensures ((a % m) * b) % m == (a * b) % m
  {
    var k := a / m;
    assert a == k * m + a % m;
    assert a * b == (k * b) * m + (a % m) * b;
    ModAddMultiple(k * b, (a % m) * b, m);
  }

  lemma {:induction false} ProductSplit(s: seq<int>, i: nat)
    requires i < |s|
    ensures Product(s[..i + 1]) == Product(s[..i]) * s[i]
  {
    if i == 0 {
      assert s[..1][1..] == [] && s[..0] == [];
    } else {
      ProductSplit(s[1..], i - 1);
      assert s[..i + 1][1..] == s[1..][..i];
      assert s[..i][1..] == s[1..][..i - 1];
      var a := Product(s[1..][..i - 1]);
      assert s[0] * (a * s[i]) == (s[0] * a) * s[i];
    }
  }

  /** length(): the product of the extents, in 64-bit unsigned arithmetic. */
  method Length(shape: seq<int>) returns (length: nat)
    ensures length == Product(shape) % TWO_64
  {
    length := 1;
    for i := 0 to |shape|
      invariant length == Product(shape[..i]) % TWO_64
    {
      ProductSplit(shape, i);
      ModMultiply(Product(shape[..i]), shape[i], TWO_64);
      length := (length * shape[i]) % TWO_64;
    }
    assert shape[..|shape|] == shape;
  }

  lemma {:induction false} StrideStep(s: seq<int>, i: nat)
    requires i + 1 < |s|
    ensures IntStrides(s)[i] == ToInt32(IntStrides(s)[i + 1] * s[i + 1])
  {
    hide ToInt32, IntStrides;
    IntStridesAt(s, i);
    IntStridesAt(s, i + 1);
    assert s[i + 1..][1..] == s[i + 2..];
    var p, e := Product(s[i + 2..]), s[i + 1];
    assert Product(s[i + 1..]) == e * p;
    ToInt32OfProduct(p, e);
    assert p * e == e * p;
  }

  lemma LastStride(s: seq<int>)
    requires s != []
    ensures IntStrides(s)[|s| - 1] == 1
  {
    IntStridesAt(s, |s| - 1);
    assert s[|s|..] == [];
  }

  /** The strides loop of the constructors: from the last dimension back to the first, in int. */
  method ComputeStrides(shape: array<int>) returns (strides: array<int>)
    requires shape.Length >= 1
    ensures fresh(strides) && strides[..] == IntStrides(shape[..])
  {
    hide IntStrides, Product;
    ghost var extents := shape[..];
    strides := new int[shape.Length](_ => 0);
    var last := shape.Length - 1;
    strides[last] := 1;
    LastStride(extents);
    var i := last - 1;
    while i >= 0
      modifies strides
      invariant -1 <= i < last
      invariant forall j :: i < j < shape.Length ==> strides[j] == IntStrides(extents)[j]
    {
      StrideStep(extents, i);
      strides[i] := ToInt32(strides[i + 1] * shape[i + 1]);
      i := i - 1;
    }
  }

  /** The constructors, from the number of dimensions, the pool and the extents. */
  method Create(dims: nat, pool: ThreadPool?, extents: seq<int>) returns (t: Tensor)
    requires dims == |extents| >= 1 && IntExtents(extents) && Product(extents) < TWO_64
    ensures t.Valid() && t.dims == dims && t.shape == extents && t.pool == pool && fresh(t.data)
    ensures forall q :: 0 <= q < t.data.Length ==> t.data[q] == 0.0
  {
    var shape := new int[dims](i requires 0 <= i < |extents| => extents[i]);
    assert shape[..] == extents;
    ProductNonNegative(extents);
    var length := Length(extents);
    var data := new real[length](_ => 0.0);
    var strides := ComputeStrides(shape);
    t := Tensor(dims, shape[..], strides[..], data, pool);
  }

  /** The initializer-list constructor also checks the number of extents. */
  method CreateFromList(dims: nat, pool: ThreadPool?, extents: seq<int>) returns (r: Result<Tensor>)
    requires |extents| == dims ==> dims >= 1 && IntExtents(extents) && Product(extents) < TWO_64
    ensures r.Ok? <==> |extents| == dims
    ensures r.Err? ==> r.error == InvalidArgument
    ensures r.Ok? ==> r.value.Valid() && r.value.shape == extents && r.value.pool == pool && fresh(r.value.data)
    ensures r.Ok? ==> forall q :: 0 <= q < r.value.data.Length ==> r.value.data[q] == 0.0
  {
    if |extents| != dims {
      return Err(InvalidArgument);
    }
    var t := Create(dims, pool, extents);
    r := Ok(t);
  }

  /** The copy constructor. */
  method Copy(t: Tensor) returns (u: Tensor)
    requires t.Valid()
    ensures u.Valid() && u.Get() == t.Get() && u.pool == t.pool && u.strides == t.strides && fresh(u.data)
  {
    var data := new real[t.data.Length](q requires 0 <= q < t.data.Length reads t.data => t.data[q]);
    assert data[..] == t.data[..];
    u := Tensor(t.dims, t.shape, t.strides, data, t.pool);
  }

  /** One more term, in the arithmetic of the code. */
  function Moved(index: int, coordinate: int, stride: int): int {
    (index + ToInt32(coordinate * stride)) % TWO_64
  }

  /** What the loop has established when it has come down to dimension i. */
  predicate InShapeFrom(c: seq<int>, s: seq<int>, i: nat)
    requires i <= |c| == |s|
  {
    InShape(c[i..], s[i..])
  }

  function IndexFrom(c: seq<int>, s: seq<int>, i: nat): int
    requires i <= |c| == |s|
  {
    IntIndex(c[i..], s[i..])
  }

  lemma NothingIndexed(c: seq<int>, s: seq<int>)
    requires |c| == |s|
    ensures InShapeFrom(c, s, |s|) && IndexFrom(c, s, |s|) == 0
  {
  }

  lemma AllIndexed(c: seq<int>, s: seq<int>)
    requires |c| == |s|
    ensures InShapeFrom(c, s, 0) == InShape(c, s) && IndexFrom(c, s, 0) == IntIndex(c, s)
  {
    assert c[0..] == c && s[0..] == s;
  }

  /** One more coordinate at the front. */
  lemma {:induction false} IndexStep(c: seq<int>, s: seq<int>, i: nat)
    requires |c| == |s| && i < |s|
    ensures IndexFrom(c, s, i) == Moved(IndexFrom(c, s, i + 1), c[i], IntStrides(s)[i])
  {
    IntStridesAt(s, i);
    assert c[i..][1..] == c[i + 1..] && s[i..][1..] == s[i + 1..];
  }

  lemma {:induction false} InShapeStep(c: seq<int>, s: seq<int>, i: nat)
    requires |c| == |s| && i < |s|
    ensures InShapeFrom(c, s, i) <==> 0 <= c[i] < s[i] && InShapeFrom(c, s, i + 1)
  {
    assert c[i..][1..] == c[i + 1..] && s[i..][1..] == s[i + 1..];
    assert forall j {:trigger c[i..][j + 1]} :: 0 <= j < |s| - i - 1 ==>
      c[i..][j + 1] == c[i + 1..][j] && s[i..][j + 1] == s[i + 1..][j];
  }

  lemma OutOfShape(c: seq<int>, s: seq<int>, i: nat)
    requires |c| == |s| && i < |s| && !(0 <= c[i] < s[i])
    ensures !InShape(c, s)
  {
  }

  /** The loop of toLinearIndex. */
  method IndexLoop(coordinates: seq<int>, shape: seq<int>, strides: seq<int>) returns (r: Result<int>)
    requires |coordinates| == |shape| && strides == IntStrides(shape)
    ensures r.Ok? <==> InShape(coordinates, shape)
    ensures r.Err? ==> r.error == OutOfRange
    ensures r.Ok? ==> r.value == IntIndex(coordinates, shape)
  {
    hide IntStrides, Moved, InShape, IntIndex, InShapeFrom, IndexFrom;
    var index := 0;
    var i := |shape| - 1;
    NothingIndexed(coordinates, shape);
    while i >= 0
      invariant -1 <= i < |shape|
      invariant InShapeFrom(coordinates, shape, i + 1) && index == IndexFrom(coordinates, shape, i + 1)
    {
      if !(coordinates[i] >= 0 && coordinates[i] < shape[i]) {
        OutOfShape(coordinates, shape, i);
        return Err(OutOfRange);
      }
      InShapeStep(coordinates, shape, i);
      IndexStep(coordinates, shape, i);
      index := Moved(index, coordinates[i], strides[i]);
      i := i - 1;
    }
    AllIndexed(coordinates, shape);
    r := Ok(index);
  }

  lemma {:induction false} ExactIndexInside(t: Tensor, c: seq<int>)
    requires t.Valid() && InShape(c, t.shape) && TermsFit(t.shape)
    ensures IntIndex(c, t.shape) == LinearIndex(c, t.shape) && 0 <= LinearIndex(c, t.shape) < t.data.Length
  {
    UnravelOfIndex(c, t.shape);
    IntIndexIsExact(c, t.shape);
  }

  /**
   The position of an element; throws exactly if some coordinate is out of range. The position is the
   row-major index, inside the buffer, if the products fit an int (see IntIndexIsExactIff).
   */
  method ToLinearIndex(t: Tensor, coordinates: seq<int>) returns (r: Result<int>)
    requires t.Valid() && |coordinates| == t.dims
    ensures r.Ok? <==> InShape(coordinates, t.shape)
    ensures r.Err? ==> r.error == OutOfRange
    ensures r.Ok? ==> r.value == IntIndex(coordinates, t.shape)
    ensures r.Ok? && TermsFit(t.shape) ==>
              r.value == LinearIndex(coordinates, t.shape) && 0 <= r.value < t.data.Length
  {
    hide LinearIndex, IntStrides, Product, InShape, IntIndex, TermsFit;
    r := IndexLoop(coordinates, t.shape, t.strides);
    if r.Ok? && TermsFit(t.shape) {
      ExactIndexInside(t, coordinates);
    }
  }

  // ----- dot -----

  const REALS := Arith(0.0, (x: real, y: real) => x + y, (x: real, y: real) => x * y)

  /** Whether dot is defined for these operands. */
  predicate DotAccepts(a: seq<int>, b: seq<int>) {
    (|a| == 1 && |b| == 1 && a == b) || (|a| == 2 && |b| == 2 && a[1] == b[0])
  }

  function DotValue(a: TensorValue, b: TensorValue): TensorValue
    requires DotAccepts(a.shape, b.shape) && (|a.shape| == 2 ==> a.shape[0] >= 0 && b.shape[1] >= 0)
  {
    if |a.shape| == 1 then TensorValue([1], [Inner(a.data, b.data)]) else MatMul(a, b)
  }

  lemma CellIsEntry(how: Addressing, a: TensorValue, r: nat, n: nat, i: int, k: int)
    requires IsMatrix(a, r, n) && n < TWO_31 && Addressable(how, r, n) && 0 <= i < r && 0 <= k < n
    ensures 0 <= Offset(how, i, k, n, 1) < |a.data|
    ensures a.data[Offset(how, i, k, n, 1)] == At(a, i, k)
  {
    OffsetIsElement(how, i, k, r, n);
    JoinIndex(i, k, r, n);
  }

  lemma {:induction false} RowDotIsSum(a: TensorValue, b: TensorValue, r: nat, n: nat, c: nat, i: int, j: int, m: nat)
    requires IsMatrix(a, r, n) && IsMatrix(b, n, c) && 0 <= i < r && 0 <= j < c < TWO_31 && m <= n < TWO_31
    requires Addressable(RowPointer, r, n) && Addressable(Index, n, c)
    requires InBuffer(RowPointer, r, n, n, 1, |a.data|) && InBuffer(Index, n, c, c, 1, |b.data|)
    ensures RowDot(REALS, a.data, n, 1, b.data, c, 1, i, j, m) == Sum(0, m, RowByColumn(Cells(a), Cells(b), i, j))
  {
    hide Offset, Element, At, Addressable;
    if m > 0 {
      RowDotIsSum(a, b, r, n, c, i, j, m - 1);
      CellIsEntry(RowPointer, a, r, n, i, m - 1);
      CellIsEntry(Index, b, n, c, m - 1, j);
    }
  }

  /** What matmul_rows leaves in a row-major buffer is the matrix product. */
  lemma {:induction false} MatmulRowsIsMatMul(a: TensorValue, b: TensorValue, r: nat, n: nat, c: nat, p: TensorValue)
    requires IsMatrix(a, r, n) && IsMatrix(b, n, c) && IsMatrix(p, r, c) && n < TWO_31 && c < TWO_31
    requires Addressable(RowPointer, r, n) && Addressable(Index, n, c) && Addressable(Index, r, c)
    requires InBuffer(RowPointer, r, n, n, 1, |a.data|) && InBuffer(Index, n, c, c, 1, |b.data|)
    requires InBuffer(Index, r, c, c, 1, |p.data|)
    requires forall i, j :: 0 <= i < r && 0 <= j < c ==>
               p.data[Offset(Index, i, j, c, 1)] == RowDot(REALS, a.data, n, 1, b.data, c, 1, i, j, n)
    ensures p == MatMul(a, b)
  {
    hide Offset, Addressable;
    forall i, j | 0 <= i < r && 0 <= j < c
      ensures At(p, i, j) == At(MatMul(a, b), i, j)
    {
      CellIsEntry(Index, p, r, c, i, j);
      RowDotIsSum(a, b, r, n, c, i, j, n);
      MatMulAt(a, b, i, j);
    }
    SameCells(p, MatMul(a, b), r, c);
  }

  lemma MatrixShape(t: Tensor)
    requires t.Valid() && t.dims == 2
    ensures IsMatrix(t.Get(), t.shape[0], t.shape[1]) && t.strides == [t.shape[1], 1]
    ensures 0 <= t.shape[0] < TWO_31 && 0 <= t.shape[1] < TWO_31 && t.data.Length == t.shape[0] * t.shape[1]
  {
    assert t.shape == [t.shape[0], t.shape[1]];
    StridesOfMatrix(t.shape[0], t.shape[1]);
  }

  /** A matrix that the code can address: every offset is in the buffer, and no two cells share one. */
  lemma MatrixIsSafe(t: Tensor, how: Addressing)
    requires t.Valid() && t.dims == 2 && t.shape[0] >= 0 && t.shape[1] >= 0
    requires Addressable(how, t.shape[0], t.shape[1])
    ensures InBuffer(how, t.shape[0], t.shape[1], t.shape[1], 1, t.data.Length)
    ensures NoOverlap(how, t.shape[0], t.shape[1], t.shape[1], 1)
  {
    MatrixShape(t);
    RowMajorIsSafe(how, t.shape[0], t.shape[1]);
  }

  /** The sizes for which dot of two matrices finds all their cells, and those of the result. */
  ghost predicate DotFits(a: seq<int>, b: seq<int>) {
    |a| == 2 && |b| == 2 && a[1] == b[0] && a[0] >= 0 && a[1] >= 0 && b[1] >= 0 ==>
      Addressable(RowPointer, a[0], a[1]) && Addressable(Index, b[0], b[1]) && Addressable(Index, a[0], b[1])
  }

  lemma SmallDotFits(a: Tensor, b: Tensor)
    requires a.Valid() && b.Valid()
    requires a.dims == 2 && b.dims == 2 && a.shape[1] == b.shape[0] ==>
               a.data.Length <= TWO_31 && b.data.Length <= TWO_31 && a.shape[0] * b.shape[1] <= TWO_31
    ensures DotFits(a.shape, b.shape)
  {
    if a.dims == 2 && b.dims == 2 && a.shape[1] == b.shape[0] {
      MatrixShape(a);
      MatrixShape(b);
      SmallIsAddressable(RowPointer, a.shape[0], a.shape[1]);
      SmallIsAddressable(Index, b.shape[0], b.shape[1]);
      SmallIsAddressable(Index, a.shape[0], b.shape[1]);
    }
  }

  /** A matrix with at most 2^31 elements can be addressed either way. */
  lemma SmallMatrixIsSafe(t: Tensor, how: Addressing)
    requires t.Valid() && t.dims == 2 && t.data.Length <= TWO_31
    ensures t.shape[0] >= 0 && t.shape[1] >= 0 && Addressable(how, t.shape[0], t.shape[1])
    ensures InBuffer(how, t.shape[0], t.shape[1], t.shape[1], 1, t.data.Length)
    ensures NoOverlap(how, t.shape[0], t.shape[1], t.shape[1], 1)
  {
    MatrixShape(t);
    SmallIsAddressable(how, t.shape[0], t.shape[1]);
    MatrixIsSafe(t, how);
  }

  /** The 2-D branch of dot, after its check. */
  method DotMatrices(a: Tensor, b: Tensor) returns (res: Tensor)
    requires a.Valid() && b.Valid() && a.dims == 2 && b.dims == 2 && a.shape[1] == b.shape[0]
    requires Usable(a.pool) && DotFits(a.shape, b.shape)
    modifies a.pool
    ensures Usable(a.pool)
    ensures res.Valid() && res.pool == a.pool && fresh(res.data)
    ensures res.Get() == MatMul(a.Get(), b.Get())
  {
    MatrixShape(a);
    MatrixShape(b);
    var r, n, c := a.shape[0], a.shape[1], b.shape[1];
    StridesOfMatrix(r, c);
    MatrixLengthFits(r, c);
    res := Create(2, a.pool, [r, c]);
    MatrixShape(res);
    MatrixIsSafe(a, RowPointer);
    MatrixIsSafe(b, Index);
    MatrixIsSafe(res, Index);
    MatmulRows(res.pool, REALS, a.data, r, n, a.strides[0], a.strides[1],
               b.data, c, b.strides[0], b.strides[1], res.data, res.strides[0], res.strides[1]);
    MatmulRowsIsMatMul(a.Get(), b.Get(), r, n, c, res.Get());
  }

  /** The 1-D branch of dot, after its check. */
  method DotOfVectors(a: Tensor, b: Tensor) returns (res: Tensor)
    requires a.Valid() && b.Valid() && a.dims == 1 && b.dims == 1 && a.data.Length == b.data.Length
    requires Usable(a.pool) && Usable(b.pool)
    modifies a.pool, b.pool
    ensures Usable(a.pool) && Usable(b.pool)
    ensures res.Valid() && res.pool == (if a.pool == null then b.pool else a.pool) && fresh(res.data)
    ensures res.Get() == TensorValue([1], [Inner(a.data[..], b.data[..])])
  {
    assert Product([1]) == 1 by {
      assert [1][1..] == [];
    }
    res := Create(1, if a.pool != null then a.pool else b.pool, [1]);
    var sum := DotVectors(res.pool, a.data, b.data, a.data.Length);
    res.data[0] := sum;
    assert res.data[..] == [sum];
  }

  method Dot(a: Tensor, b: Tensor) returns (res: Result<Tensor>)
    requires a.Valid() && b.Valid() && Usable(a.pool) && Usable(b.pool)
    requires DotFits(a.shape, b.shape)
    modifies a.pool, b.pool
    ensures Usable(a.pool) && Usable(b.pool)
    ensures res.Ok? <==> DotAccepts(a.shape, b.shape)
    ensures res.Err? ==> res.error == OutOfRange
    ensures res.Ok? ==> res.value.Valid() && fresh(res.value.data) && res.value.Get() == DotValue(a.Get(), b.Get())
    ensures res.Ok? ==> res.value.pool == if a.dims == 1 && a.pool == null then b.pool else a.pool
  {
    hide Usable;
    if a.dims == 1 && b.dims == 1 {
      assert a.shape == [a.shape[0]] && b.shape == [b.shape[0]];
      assert a.shape[1..] == [] && b.shape[1..] == [];
      if a.data.Length != b.data.Length {
        return Err(OutOfRange);
      }
      var t := DotOfVectors(a, b);
      return Ok(t);
    } else if a.dims == 2 && b.dims == 2 {
      if a.shape[1] != b.shape[0] {
        return Err(OutOfRange);
      }
      var t := DotMatrices(a, b);
      return Ok(t);
    } else {
      return Err(OutOfRange);
    }
  }

  /** Dense::transpose. */
  method TransposeTensor(t: Tensor, pool: ThreadPool?) returns (r: Result<Tensor>)
    requires t.Valid()
    requires t.dims == 2 && t.shape[0] >= 0 && t.shape[1] >= 0 ==> Addressable(Index, t.shape[0], t.shape[1])
    ensures r.Ok? <==> t.dims == 2
    ensures r.Err? ==> r.error == RuntimeError
    ensures r.Ok? ==> r.value.Valid() && r.value.pool == pool && fresh(r.value.data)
    ensures r.Ok? ==> r.value.dims == 2 && r.value.Get() == Transpose(t.Get())
  {
    if t.dims != 2 {
      return Err(RuntimeError);
    }
    hide Offset, Addressable;
    MatrixShape(t);
    var rows, cols := t.shape[0], t.shape[1];
    StridesOfMatrix(cols, rows);
    MatrixLengthFits(cols, rows);
    var result := Create(2, pool, [cols, rows]);
    MatrixShape(result);
    AddressableTransposed(rows, cols);
    MatrixIsSafe(t, Index);
    MatrixIsSafe(result, Index);
    for i := 0 to rows
      modifies result.data
      invariant forall i', j :: 0 <= i' < i && 0 <= j < cols ==>
                  result.data[Offset(Index, j, i', rows, 1)] == t.data[Offset(Index, i', j, cols, 1)]
    {
      for j := 0 to cols
        modifies result.data
        invariant forall i', j' :: 0 <= i' <= i && 0 <= j' < cols && (i' == i ==> j' < j) ==>
                    result.data[Offset(Index, j', i', rows, 1)] == t.data[Offset(Index, i', j', cols, 1)]
      {
        result.data[Offset(Index, j, i, result.strides[0], result.strides[1])] :=
          t.data[Offset(Index, i, j, t.strides[0], t.strides[1])];
      }
    }
    TransposedCells(t.Get(), result.Get(), rows, cols);
    r := Ok(result);
  }

  lemma AddressableTransposed(r: nat, c: nat)
    requires Addressable(Index, r, c)
    ensures Addressable(Index, c, r)
  {
    assert r * c == c * r;
  }

  lemma {:induction false} TransposedCells(t: TensorValue, u: TensorValue, r: nat, c: nat)
    requires IsMatrix(t, r, c) && IsMatrix(u, c, r) && r < TWO_31 && c < TWO_31
    requires Addressable(Index, r, c) && Addressable(Index, c, r)
    requires InBuffer(Index, r, c, c, 1, |t.data|) && InBuffer(Index, c, r, r, 1, |u.data|)
    requires forall i, j :: 0 <= i < r && 0 <= j < c ==>
               u.data[Offset(Index, j, i, r, 1)] == t.data[Offset(Index, i, j, c, 1)]
    ensures u == Transpose(t)
  {
    hide Offset, Addressable;
    forall j, i | 0 <= j < c && 0 <= i < r
      ensures At(u, j, i) == At(Transpose(t), j, i)
    {
      CellIsEntry(Index, u, c, r, j, i);
      CellIsEntry(Index, t, r, c, i, j);
      TransposeAt(t, i, j);
    }
    SameCells(u, Transpose(t), c, r);
  }
}
