/** Tensors as values, the matrix operations of the layers, and their adjoints. */
module Linear {
  import opened Sums
  import opened Kernels

  datatype TensorValue = TensorValue(shape: seq<int>, data: seq<real>)

  /** An r by c matrix in row-major order. */
  predicate IsMatrix(t: TensorValue, r: int, c: int) {
    0 <= r && 0 <= c && t.shape == [r, c] && |t.data| == r * c
  }

  /** The number at row i and column j. */
  function At(t: TensorValue, i: int, j: int): real {
    if |t.shape| == 2 then Entry(t.data, Element(i, j, t.shape[1])) else 0.0
  }

  function FromCells(r: nat, c: nat, f: (int, int) -> real): (t: TensorValue)
    ensures IsMatrix(t, r, c)
  {
    TensorValue([r, c], seq(r * c, q requires 0 <= q => if c == 0 then 0.0 else f(q / c, q % c)))
  }

  lemma {:induction false} FromCellsAt(r: nat, c: nat, f: (int, int) -> real, i: int, j: int)
    requires 0 <= i < r && 0 <= j < c
    ensures At(FromCells(r, c, f), i, j) == f(i, j)
  {
    JoinIndex(i, j, r, c);
  }

  /** Matrices of one shape with equal cells are equal. */
  lemma {:induction false} SameCells(t: TensorValue, u: TensorValue, r: nat, c: nat)
    requires IsMatrix(t, r, c) && IsMatrix(u, r, c)
    requires forall i, j :: 0 <= i < r && 0 <= j < c ==> At(t, i, j) == At(u, i, j)
    ensures t == u
  {
    forall q | 0 <= q < r * c
      ensures t.data[q] == u.data[q]
    {
      SplitIndex(q, r, c);
      assert At(t, q / c, q % c) == At(u, q / c, q % c);
    }
  }

  /** The cells of a matrix as a table. */
  function Cells(t: TensorValue): (int, int) -> real {
    (i, j) => At(t, i, j)
  }

  /** The inner product of two matrices, cell by cell. */
  lemma {:induction false} InnerOfMatrices(t: TensorValue, u: TensorValue, r: nat, c: nat)
    requires IsMatrix(t, r, c) && IsMatrix(u, r, c)
    ensures Inner(t.data, u.data) == Sum2(r, c, Pair(Cells(t), Cells(u)))
  {
    SumBlocks(r, c, Products(t.data, u.data), Pair(Cells(t), Cells(u)));
  }

  // ----- Operations -----

  function ProductCell(a: TensorValue, b: TensorValue, n: int, i: int, j: int): real {
    Sum(0, n, RowByColumn(Cells(a), Cells(b), i, j))
  }

  /** The matrix product of an r by n and an n by c matrix. */
  function MatMul(a: TensorValue, b: TensorValue): (t: TensorValue)
    requires |a.shape| == 2 && |b.shape| == 2 && a.shape[0] >= 0 && b.shape[1] >= 0
    ensures IsMatrix(t, a.shape[0], b.shape[1])
  {
    FromCells(a.shape[0], b.shape[1], (i, j) => ProductCell(a, b, a.shape[1], i, j))
  }

  lemma MatMulAt(a: TensorValue, b: TensorValue, i: int, j: int)
    requires |a.shape| == 2 && |b.shape| == 2 && 0 <= i < a.shape[0] && 0 <= j < b.shape[1]
    ensures At(MatMul(a, b), i, j) == Sum(0, a.shape[1], RowByColumn(Cells(a), Cells(b), i, j))
  {
    FromCellsAt(a.shape[0], b.shape[1], (i, j) => ProductCell(a, b, a.shape[1], i, j), i, j);
  }

  function Transpose(t: TensorValue): (u: TensorValue)
    requires |t.shape| == 2 && t.shape[0] >= 0 && t.shape[1] >= 0
    ensures IsMatrix(u, t.shape[1], t.shape[0])
  {
    FromCells(t.shape[1], t.shape[0], (j, i) => At(t, i, j))
  }

  lemma TransposeAt(t: TensorValue, i: int, j: int)
    requires |t.shape| == 2 && 0 <= i < t.shape[0] && 0 <= j < t.shape[1]
    ensures At(Transpose(t), j, i) == At(t, i, j)
  {
    FromCellsAt(t.shape[1], t.shape[0], (j, i) => At(t, i, j), j, i);
  }

  function ColumnTotal(t: TensorValue, r: int, j: int): real { Sum(0, r, Second(Cells(t), j)) }

  /** The sum of each column. */
  function ColumnSums(t: TensorValue): (s: seq<real>)
    requires |t.shape| == 2 && t.shape[1] >= 0
    ensures |s| == t.shape[1]
  {
    seq(t.shape[1], j requires 0 <= j => ColumnTotal(t, t.shape[0], j))
  }

  /** Every row equal to b. */
  function Broadcast(b: seq<real>, r: nat): (t: TensorValue)
    ensures IsMatrix(t, r, |b|)
  {
    FromCells(r, |b|, (i, j) => Entry(b, j))
  }

  // ----- Adjoints -----

  lemma {:induction false} MatMulIsProduct(a: TensorValue, b: TensorValue, r: nat, n: nat, c: nat)
    requires IsMatrix(a, r, n) && IsMatrix(b, n, c)
    ensures IsProduct(Cells(MatMul(a, b)), Cells(a), Cells(b), r, n, c)
  {
    forall i, j | 0 <= i < r && 0 <= j < c
      ensures Cells(MatMul(a, b))(i, j) == Sum(0, n, RowByColumn(Cells(a), Cells(b), i, j))
    {
      MatMulAt(a, b, i, j);
    }
  }

  lemma {:induction false} InnerWithProduct(g: TensorValue, h: TensorValue, w: TensorValue, r: nat, n: nat, c: nat)
    requires IsMatrix(g, r, c) && IsMatrix(h, r, n) && IsMatrix(w, n, c)
    ensures Inner(g.data, MatMul(h, w).data) == Sum3(r, c, n, Triple(Cells(g), Cells(h), Cells(w)))
  {
    InnerOfMatrices(g, MatMul(h, w), r, c);
    MatMulIsProduct(h, w, r, n, c);
    PairWithProduct(Cells(g), Cells(MatMul(h, w)), Cells(h), Cells(w), r, n, c);
  }

  lemma TermOfInput(g: TensorValue, h: TensorValue, w: TensorValue, i: int, j: int, k: int)
    requires |w.shape| == 2 && 0 <= k < w.shape[0] && 0 <= j < w.shape[1]
    ensures SwapLast(Triple(Cells(g), Cells(h), Cells(w)))(i, k, j)
         == Triple(Cells(h), Cells(g), Cells(Transpose(w)))(i, k, j)
  {
    TransposeAt(w, k, j);
    Commute(At(g, i, j), At(h, i, k), At(w, k, j));
  }

  lemma Commute(x: real, y: real, z: real)
    ensures x * (y * z) == y * (x * z) == z * (y * x)
  {
  }

  /** <G, H W> = <G W^T, H>: the input gradient of a product. */
  lemma {:induction false} AdjointOfInput(g: TensorValue, h: TensorValue, w: TensorValue, r: nat, n: nat, c: nat)
    requires IsMatrix(g, r, c) && IsMatrix(h, r, n) && IsMatrix(w, n, c)
    ensures Inner(g.data, MatMul(h, w).data) == Inner(MatMul(g, Transpose(w)).data, h.data)
  {
    var wt := Transpose(w);
    var p := MatMul(g, wt);
    InnerWithProduct(g, h, w, r, n, c);
    InnerWithProduct(h, g, wt, r, c, n);
    var t := Triple(Cells(g), Cells(h), Cells(w));
    var u := Triple(Cells(h), Cells(g), Cells(wt));
    Sum3SwapLast(r, c, n, t);
    forall i, k, j | 0 <= i < r && 0 <= k < n && 0 <= j < c
      ensures SwapLast(t)(i, k, j) == u(i, k, j)
    {
      TermOfInput(g, h, w, i, j, k);
    }
    Sum3Cong(r, n, c, SwapLast(t), u);
    InnerSymmetric(h.data, p.data);
  }

  lemma TermOfWeights(g: TensorValue, x: TensorValue, v: TensorValue, i: int, j: int, k: int)
    requires |x.shape| == 2 && 0 <= i < x.shape[0] && 0 <= k < x.shape[1]
    ensures Triple(Cells(g), Cells(x), Cells(v))(i, j, k)
         == Triple(Cells(v), Cells(Transpose(x)), Cells(g))(k, j, i)
  {
    TransposeAt(x, i, k);
    Commute(At(g, i, j), At(x, i, k), At(v, k, j));
  }

  /** <G, X V> = <X^T G, V>: the weight gradient of a product. */
  lemma {:induction false} AdjointOfWeights(g: TensorValue, x: TensorValue, v: TensorValue, r: nat, n: nat, c: nat)
    requires IsMatrix(g, r, c) && IsMatrix(x, r, n) && IsMatrix(v, n, c)
    ensures Inner(g.data, MatMul(x, v).data) == Inner(MatMul(Transpose(x), g).data, v.data)
  {
    var xt := Transpose(x);
    var p := MatMul(xt, g);
    var t := Triple(Cells(g), Cells(x), Cells(v));
    var u := Triple(Cells(v), Cells(xt), Cells(g));
    InnerWithProduct(g, x, v, r, n, c);
    InnerWithProduct(v, xt, g, n, r, c);
    Sum3SwapLast(r, c, n, t);
    Sum3SwapFirst(r, n, c, SwapLast(t));
    Sum3SwapLast(n, r, c, SwapFirst(SwapLast(t)));
    forall k, j, i | 0 <= k < n && 0 <= j < c && 0 <= i < r
      ensures SwapLast(SwapFirst(SwapLast(t)))(k, j, i) == u(k, j, i)
    {
      TermOfWeights(g, x, v, i, j, k);
    }
    Sum3Cong(n, c, r, SwapLast(SwapFirst(SwapLast(t))), u);
    InnerSymmetric(v.data, p.data);
  }

  /** <G, broadcast v> = <column sums of G, v>: the bias gradient. */
  lemma {:induction false} AdjointOfBias(g: TensorValue, v: seq<real>, r: nat, c: nat)
    requires IsMatrix(g, r, c) && |v| == c
    ensures Inner(g.data, Broadcast(v, r).data) == Inner(ColumnSums(g), v)
  {
    var b := Broadcast(v, r);
    InnerOfMatrices(g, b, r, c);
    forall i, j | 0 <= i < r && 0 <= j < c
      ensures Cells(b)(i, j) == v[j]
    {
      FromCellsAt(r, c, (i, j) => Entry(v, j), i, j);
    }
    PairWithBroadcast(Cells(g), Cells(b), r, c, j => Entry(v, j), Products(ColumnSums(g), v));
  }
}
