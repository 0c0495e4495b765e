/**
 Schedule independence: every kernel leaves the same buffer with any two pools, or with one and without
 any, in whatever order their schedules took the elements.
 */
module Schedules {
  import opened Kernels
  import opened ThreadPools
  import opened ParallelLoops

  method UnaryMapAgrees<T>(pool: ThreadPool?, other: ThreadPool?, dest: array<T>, src: array<T>,
                           dest': array<T>, src': array<T>, num: int, fn: T -> T)
    requires Usable(pool) && Usable(other) && dest != dest' && dest != src'
    requires num <= dest.Length && num <= src.Length && dest[..] == dest'[..] && src[..] == src'[..]
    modifies pool, other, dest, dest'
    ensures dest[..] == dest'[..]
  {
    ghost var before, input := dest[..], src[..];
    UnaryMap(pool, dest, src, num, fn);
    UnaryMap(other, dest', src', num, fn);
    assert forall i :: 0 <= i < |before| ==> dest[i] == if i < num then fn(input[i]) else before[i];
    assert forall i :: 0 <= i < |before| ==> dest'[i] == if i < num then fn(input[i]) else before[i];
  }

  /** In each of the two runs the destination may be the same buffer as either input. */
  method BinaryMapAgrees<T>(pool: ThreadPool?, other: ThreadPool?, dst: array<T>, a: array<T>, b: array<T>,
                            dst': array<T>, a': array<T>, b': array<T>, n: int, f: (T, T) -> T)
    requires Usable(pool) && Usable(other) && dst !in [dst', a', b']
    requires n <= dst.Length && n <= a.Length && n <= b.Length
    requires dst[..] == dst'[..] && a[..] == a'[..] && b[..] == b'[..]
    modifies pool, other, dst, dst'
    ensures dst[..] == dst'[..]
  {
    ghost var before, left, right := dst[..], a[..], b[..];
    BinaryMap(pool, dst, a, b, n, f);
    BinaryMap(other, dst', a', b', n, f);
    assert forall i :: 0 <= i < |before| ==> dst[i] == if i < n then f(left[i], right[i]) else before[i];
    assert forall i :: 0 <= i < |before| ==> dst'[i] == if i < n then f(left[i], right[i]) else before[i];
  }

  method MatmulRowsAgrees<T>(pool: ThreadPool?, other: ThreadPool?, ar: Arith<T>,
                             A: array<T>, aRows: nat, aCols: nat, aStr0: int, aStr1: int,
                             B: array<T>, bCols: nat, bStr0: int, bStr1: int,
                             C: array<T>, C': array<T>, cStr0: int, cStr1: int)
    requires Usable(pool) && Usable(other) && C !in [A, B, C'] && C' !in [A, B] && C[..] == C'[..]
    requires InBuffer(RowPointer, aRows, aCols, aStr0, aStr1, A.Length)
    requires InBuffer(Index, aCols, bCols, bStr0, bStr1, B.Length)
    requires InBuffer(Index, aRows, bCols, cStr0, cStr1, C.Length) && NoOverlap(Index, aRows, bCols, cStr0, cStr1)
    modifies pool, other, C, C'
    ensures C[..] == C'[..]
  {
    assert C'.Length == |C'[..]| == C.Length;
    ghost var left, right := A[..], B[..];
    MatmulRows(pool, ar, A, aRows, aCols, aStr0, aStr1, B, bCols, bStr0, bStr1, C, cStr0, cStr1);
    MatmulRows(other, ar, A, aRows, aCols, aStr0, aStr1, B, bCols, bStr0, bStr1, C', cStr0, cStr1);
    forall x | 0 <= x < C.Length
      ensures C[x] == C'[x]
    {
      if IsCell(Index, x, aRows, bCols, cStr0, cStr1) {
        var i, j :| 0 <= i < aRows && 0 <= j < bCols && Offset(Index, i, j, cStr0, cStr1) == x;
        assert C[Offset(Index, i, j, cStr0, cStr1)] == RowDot(ar, left, aStr0, aStr1, right, bStr0, bStr1, i, j, aCols);
        assert C'[Offset(Index, i, j, cStr0, cStr1)] ==
               RowDot(ar, left, aStr0, aStr1, right, bStr0, bStr1, i, j, aCols);
      }
    }
  }

  method AddBiasBroadcastAgrees<T>(pool: ThreadPool?, other: ThreadPool?, add: (T, T) -> T,
                                   Y: array<T>, Y': array<T>, b: array<T>,
                                   rows: nat, cols: nat, yStr0: int, yStr1: int)
    requires Usable(pool) && Usable(other) && Y !in [Y', b] && Y' != b && cols <= b.Length && Y[..] == Y'[..]
    requires InBuffer(RowPointer, rows, cols, yStr0, yStr1, Y.Length)
    requires NoOverlap(RowPointer, rows, cols, yStr0, yStr1)
    modifies pool, other, Y, Y'
    ensures Y[..] == Y'[..]
  {
    assert Y'.Length == |Y'[..]| == Y.Length;
    ghost var before := Y[..];
    assert forall x :: 0 <= x < Y.Length ==> before[x] == Y[x] == Y'[..][x];
    AddBiasBroadcast(pool, add, Y, b, rows, cols, yStr0, yStr1);
    AddBiasBroadcast(other, add, Y', b, rows, cols, yStr0, yStr1);
    forall x | 0 <= x < Y.Length
      ensures Y[x] == Y'[x]
    {
      if IsCell(RowPointer, x, rows, cols, yStr0, yStr1) {
        var i, j :| 0 <= i < rows && 0 <= j < cols && Offset(RowPointer, i, j, yStr0, yStr1) == x;
        assert Y[Offset(RowPointer, i, j, yStr0, yStr1)] == add(before[x], b[j]);
        assert Y'[Offset(RowPointer, i, j, yStr0, yStr1)] == add(before[x], b[j]);
      }
    }
  }
}
