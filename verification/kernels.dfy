/**
 The strided kernels of the tensor runtime. Each works on its buffers in place, element by element,
 in whatever order the pool's schedule produced; each contract fixes the whole final buffer, so the
 schedule and the pool size cannot show. Arithmetic is uninterpreted: no law of + or * is used.
 */
module Kernels {
  import opened MachineInts
  import opened ThreadPools
  import opened ParallelLoops

  /** How the code finds a cell: base[i * str0 + j * str1], or a row pointer base + i * str0 and then row[j * str1]. */
  datatype Addressing = Index | RowPointer

  /**
   The position of cell (i, j) in a strided buffer, as computed: products in int, and their sum in int
   for an index, in pointer arithmetic for a row pointer.
   */
  function Offset(how: Addressing, i: int, j: int, str0: int, str1: int): int {
    match how
    case Index => ToInt32(ToInt32(i * str0) + ToInt32(j * str1))
    case RowPointer => ToInt32(i * str0) + ToInt32(j * str1)
  }

  /** All cells of an r by c view are found inside a buffer of this length. */
  ghost predicate InBuffer(how: Addressing, r: nat, c: nat, str0: int, str1: int, length: int) {
    forall i, j :: 0 <= i < r && 0 <= j < c ==> 0 <= Offset(how, i, j, str0, str1) < length
  }

  /** Different cells of an r by c view are found at different positions. */
  ghost predicate NoOverlap(how: Addressing, r: nat, c: nat, str0: int, str1: int) {
    forall i, j, i', j' ::
      (0 <= i < r && 0 <= j < c && 0 <= i' < r && 0 <= j' < c &&
       Offset(how, i, j, str0, str1) == Offset(how, i', j', str0, str1)) ==> i == i' && j == j'
  }

  ghost predicate IsCell(how: Addressing, x: int, r: nat, c: nat, str0: int, str1: int) {
    exists i, j :: 0 <= i < r && 0 <= j < c && Offset(how, i, j, str0, str1) == x
  }

  /** The number of cell (i, j) in an iteration space with c columns. */
  function Element(i: int, j: int, c: int): int {
    i * c + j
  }

  lemma Times(a: int, b: int, c: nat)
    requires a <= b
    ensures a * c <= b * c
  {
  }

  /** Element q of an r by c iteration space is cell (q / c, q % c). */
  lemma {:induction false} SplitIndex(q: int, r: nat, c: nat)
    requires 0 <= q < r * c
    ensures c > 0 && 0 <= q / c < r && 0 <= q % c < c && q == Element(q / c, q % c, c)
  {
    if q / c >= r {
      Times(r, q / c, c);
      assert false;
    }
  }

  lemma {:induction false} JoinIndex(i: int, j: int, r: nat, c: nat)
    requires 0 <= i < r && 0 <= j < c
    ensures 0 <= Element(i, j, c) < r * c
    ensures Element(i, j, c) / c == i && Element(i, j, c) % c == j
  {
    Times(i + 1, r, c);
    var q := Element(i, j, c);
    if q / c < i {
      Times(q / c + 1, i, c);
      assert false;
    } else if q / c > i {
      Times(i + 1, q / c, c);
      assert false;
    }
  }

  /** Element numbers identify cells. */
  lemma {:induction false} SameElement(i: int, j: int, i': int, j': int, r: nat, c: nat)
    requires 0 <= i < r && 0 <= j < c && 0 <= i' < r && 0 <= j' < c
    requires Element(i, j, c) == Element(i', j', c)
    ensures i == i' && j == j'
  {
    JoinIndex(i, j, r, c);
    JoinIndex(i', j', r, c);
  }

  // ----- Maps -----

  method UnaryMap<T>(pool: ThreadPool?, dest: array<T>, src: array<T>, num: int, fn: T -> T)
    requires Usable(pool) && num <= dest.Length && num <= src.Length
    modifies pool, dest
    ensures Usable(pool)
    ensures forall i :: 0 <= i < dest.Length ==> dest[i] == if i < num then fn(old(src[i])) else old(dest[i])
  {
    var order := ForEachBlock(pool, num, 1);
    for k := 0 to |order|
      modifies dest
      invariant forall i :: 0 <= i < dest.Length && (i in order[..k] ==> i < num) ==>
                  dest[i] == if i in order[..k] then fn(old(src[i])) else old(dest[i])
      invariant forall i :: 0 <= i < src.Length && i !in order[..k] ==> src[i] == old(src[i])
    {
      var i := order[k];
      assert order[..k + 1] == order[..k] + [i];
      dest[i] := fn(src[i]);
    }
    assert order[..|order|] == order;
  }

  /** `dst` may be the same buffer as either input: no element reads a cell another one writes. */
  method BinaryMap<T>(pool: ThreadPool?, dst: array<T>, a: array<T>, b: array<T>, n: int, f: (T, T) -> T)
    requires Usable(pool) && n <= dst.Length && n <= a.Length && n <= b.Length
    modifies pool, dst
    ensures Usable(pool)
    ensures forall i :: 0 <= i < dst.Length ==> dst[i] == if i < n then f(old(a[i]), old(b[i])) else old(dst[i])
  {
    var order := ForEachBlock(pool, n, 1);
    for k := 0 to |order|
      modifies dst
      invariant forall i :: 0 <= i < dst.Length && (i in order[..k] ==> i < n) ==>
                  dst[i] == if i in order[..k] then f(old(a[i]), old(b[i])) else old(dst[i])
      invariant forall i :: 0 <= i < a.Length && i !in order[..k] ==> a[i] == old(a[i])
      invariant forall i :: 0 <= i < b.Length && i !in order[..k] ==> b[i] == old(b[i])
    {
      var i := order[k];
      assert order[..k + 1] == order[..k] + [i];
      dst[i] := f(a[i], b[i]);
    }
    assert order[..|order|] == order;
  }

  // ----- Matrix product -----

  datatype Arith<!T> = Arith(zero: T, add: (T, T) -> T, mul: (T, T) -> T)

  /** The left-to-right sum of the first n products of row i of A with column j of B. */
  ghost function RowDot<T>(ar: Arith<T>, A: seq<T>, aStr0: int, aStr1: int, B: seq<T>, bStr0: int, bStr1: int,
                           i: int, j: int, n: nat): T
    requires forall k :: 0 <= k < n ==> 0 <= Offset(RowPointer, i, k, aStr0, aStr1) < |A|
    requires forall k :: 0 <= k < n ==> 0 <= Offset(Index, k, j, bStr0, bStr1) < |B|
  {
    if n == 0 then ar.zero
    else
      ar.add(RowDot(ar, A, aStr0, aStr1, B, bStr0, bStr1, i, j, n - 1),
             ar.mul(A[Offset(RowPointer, i, n - 1, aStr0, aStr1)], B[Offset(Index, n - 1, j, bStr0, bStr1)]))
  }

  /** One element of the product: the innermost loop of matmul_rows. */
  method DotRow<T>(ar: Arith<T>, A: array<T>, aStr0: int, aStr1: int, B: array<T>, bStr0: int, bStr1: int,
                   i: int, j: int, n: nat) returns (sum: T)
    requires forall k :: 0 <= k < n ==> 0 <= Offset(RowPointer, i, k, aStr0, aStr1) < A.Length
    requires forall k :: 0 <= k < n ==> 0 <= Offset(Index, k, j, bStr0, bStr1) < B.Length
    ensures sum == RowDot(ar, A[..], aStr0, aStr1, B[..], bStr0, bStr1, i, j, n)
  {
    sum := ar.zero;
    for k := 0 to n
      invariant sum == RowDot(ar, A[..], aStr0, aStr1, B[..], bStr0, bStr1, i, j, k)
    {
      sum := ar.add(sum, ar.mul(A[Offset(RowPointer, i, k, aStr0, aStr1)], B[Offset(Index, k, j, bStr0, bStr1)]));
    }
  }

  method MatmulRows<T>(pool: ThreadPool?, ar: Arith<T>,
                       A: array<T>, aRows: nat, aCols: nat, aStr0: int, aStr1: int,
                       B: array<T>, bCols: nat, bStr0: int, bStr1: int,
                       C: array<T>, cStr0: int, cStr1: int)
    requires Usable(pool) && C != A && C != B
    requires InBuffer(RowPointer, aRows, aCols, aStr0, aStr1, A.Length)
    requires InBuffer(Index, aCols, bCols, bStr0, bStr1, B.Length)
    requires InBuffer(Index, aRows, bCols, cStr0, cStr1, C.Length) && NoOverlap(Index, aRows, bCols, cStr0, cStr1)
    modifies pool, C
    ensures Usable(pool)
    ensures forall i, j :: 0 <= i < aRows && 0 <= j < bCols ==>
              C[Offset(Index, i, j, cStr0, cStr1)] == RowDot(ar, A[..], aStr0, aStr1, B[..], bStr0, bStr1, i, j, aCols)
    ensures forall x :: 0 <= x < C.Length && !IsCell(Index, x, aRows, bCols, cStr0, cStr1) ==> C[x] == old(C[x])
  {
    var order := ForEachBlock(pool, aRows, bCols);
    for k := 0 to |order|
      modifies C
      invariant forall i, j :: 0 <= i < aRows && 0 <= j < bCols && Element(i, j, bCols) in order[..k] ==>
                  C[Offset(Index, i, j, cStr0, cStr1)] ==
                  RowDot(ar, A[..], aStr0, aStr1, B[..], bStr0, bStr1, i, j, aCols)
      invariant forall x :: 0 <= x < C.Length && !IsCell(Index, x, aRows, bCols, cStr0, cStr1) ==> C[x] == old(C[x])
    {
      var q := order[k];
      assert order[..k + 1] == order[..k] + [q];
      SplitIndex(q, aRows, bCols);
      var i, j := q / bCols, q % bCols;
      forall i', j' | 0 <= i' < aRows && 0 <= j' < bCols && Element(i', j', bCols) == q
        ensures i' == i && j' == j
      {
        SameElement(i, j, i', j', aRows, bCols);
      }
      var sum := DotRow(ar, A, aStr0, aStr1, B, bStr0, bStr1, i, j, aCols);
      C[Offset(Index, i, j, cStr0, cStr1)] := sum;
    }
    forall i, j | 0 <= i < aRows && 0 <= j < bCols
      ensures Element(i, j, bCols) in order[..|order|]
    {
      assert order[..|order|] == order;
      JoinIndex(i, j, aRows, bCols);
    }
  }

  // ----- Bias -----

  method AddBiasBroadcast<T>(pool: ThreadPool?, add: (T, T) -> T, Y: array<T>, b: array<T>,
                             rows: nat, cols: nat, yStr0: int, yStr1: int)
    requires Usable(pool) && Y != b && cols <= b.Length
    requires InBuffer(RowPointer, rows, cols, yStr0, yStr1, Y.Length) && NoOverlap(RowPointer, rows, cols, yStr0, yStr1)
    modifies pool, Y
    ensures Usable(pool)
    ensures forall i, j :: 0 <= i < rows && 0 <= j < cols ==>
              Y[Offset(RowPointer, i, j, yStr0, yStr1)] == add(old(Y[Offset(RowPointer, i, j, yStr0, yStr1)]), b[j])
    ensures forall x :: 0 <= x < Y.Length && !IsCell(RowPointer, x, rows, cols, yStr0, yStr1) ==> Y[x] == old(Y[x])
  {
    var order := ForEachBlock(pool, rows, cols);
    for k := 0 to |order|
      modifies Y
      invariant forall i, j :: 0 <= i < rows && 0 <= j < cols ==>
                  Y[Offset(RowPointer, i, j, yStr0, yStr1)] ==
                  if Element(i, j, cols) in order[..k] then add(old(Y[Offset(RowPointer, i, j, yStr0, yStr1)]), b[j])
                  else old(Y[Offset(RowPointer, i, j, yStr0, yStr1)])
      invariant forall x :: 0 <= x < Y.Length && !IsCell(RowPointer, x, rows, cols, yStr0, yStr1) ==> Y[x] == old(Y[x])
    {
      var q := order[k];
      assert order[..k + 1] == order[..k] + [q];
      SplitIndex(q, rows, cols);
      var i, j := q / cols, q % cols;
      forall i', j' | 0 <= i' < rows && 0 <= j' < cols && Element(i', j', cols) == q
        ensures i' == i && j' == j
      {
        SameElement(i, j, i', j', rows, cols);
      }
      var x := Offset(RowPointer, i, j, yStr0, yStr1);
      assert IsCell(RowPointer, x, rows, cols, yStr0, yStr1);
      Y[x] := add(Y[x], b[j]);
    }
    forall i, j | 0 <= i < rows && 0 <= j < cols
      ensures Element(i, j, cols) in order[..|order|]
    {
      assert order[..|order|] == order;
      JoinIndex(i, j, rows, cols);
    }
  }
}
