/**
 The two kernels that add up across iterations. Each iteration accumulates its own slice, one element
 at a time and interleaved with the others in any order, and the partial results are added afterwards;
 over the reals that equals the plain sum for every pool size and schedule.
 */
module Reductions {
  import opened MachineInts
  import opened Sums
  import opened Chunking
  import opened Kernels
  import opened ThreadPools
  import opened ParallelLoops

  /** Where slice t of n iterations starts. */
  function Cut(n: nat, t: nat, tasks: nat): (i: nat)
    requires tasks > 0
  {
    n * t / tasks
  }

  lemma {:induction false} DivideShifted(a: nat, n: nat, k: nat)
    requires k > 0
    ensures (a + n) / k - a / k == n / k || (a + n) / k - a / k == (n + k - 1) / k
  {
    QuotientOfSum(a, n, k, a / k, a % k, n / k, n % k);
    RoundedUp(n, k, n / k, n % k);
  }

  lemma {:induction false} QuotientOfSum(a: nat, n: nat, k: nat, qa: nat, ra: nat, qn: nat, rn: nat)
    requires k > 0 && ra < k && rn < k && a == qa * k + ra && n == qn * k + rn
    ensures (a + n) / k == qa + qn + if ra + rn < k then 0 else 1
  {
    assert (qa + qn) * k == qa * k + qn * k;
    QuotientOf(a + n, qa + qn, ra + rn, k);
  }

  lemma {:induction false} RoundedUp(n: nat, k: nat, q: nat, r: nat)
    requires k > 0 && r < k && n == q * k + r
    ensures (n + k - 1) / k == q + if r == 0 then 0 else 1
  {
    QuotientOf(n + k - 1, q, r + k - 1, k);
  }

  lemma {:induction false} QuotientOf(x: nat, q: nat, r: nat, k: nat)
    requires k > 0 && r < 2 * k && x == q * k + r
    ensures x / k == q + if r < k then 0 else 1
  {
    DivideSum(q, r, k);
  }

  lemma {:induction false} InQuotient(x: nat, n: nat, t: nat)
    requires n > 0
    ensures t == x / n <==> n * t <= x < n * t + n
  {
    var q, r := x / n, x % n;
    assert x == q * n + r;
    if t < q {
      Times(t + 1, q, n);
    } else if t > q {
      Times(q + 1, t, n);
    }
  }

  lemma {:induction false} DivideSum(q: nat, r: nat, k: nat)
    requires k > 0 && r < 2 * k
    ensures (q * k + r) / k == q + if r < k then 0 else 1
  {
    assert k * q == q * k && k * (q + 1) == q * k + k;
    InQuotient(q * k + r, k, q);
    InQuotient(q * k + r, k, q + 1);
  }

  lemma {:induction false} DivideMonotone(a: nat, b: nat, k: nat)
    requires a <= b && k > 0
    ensures a / k <= b / k
  {
    if a / k > b / k {
      Times(b / k + 1, a / k, k);
      assert false;
    }
  }

  lemma {:induction false} CutBounds(n: nat, tasks: nat)
    requires tasks > 0
    ensures Cut(n, 0, tasks) == 0 && Cut(n, tasks, tasks) == n
  {
    DivideSum(n, 0, tasks);
  }

  lemma {:induction false} CutMonotone(n: nat, t: nat, u: nat, tasks: nat)
    requires tasks > 0 && t <= u
    ensures Cut(n, t, tasks) <= Cut(n, u, tasks)
  {
    Times(t, u, n);
    DivideMonotone(n * t, n * u, tasks);
  }

  lemma {:induction false} SliceSize(n: nat, t: nat, tasks: nat)
    requires tasks > 0
    ensures Cut(n, t + 1, tasks) - Cut(n, t, tasks) == n / tasks
         || Cut(n, t + 1, tasks) - Cut(n, t, tasks) == (n + tasks - 1) / tasks
  {
    assert n * (t + 1) == n * t + n;
    DivideShifted(n * t, n, tasks);
  }

  /** The slices tile [0, n), each of size n / tasks rounded down or up, even when tasks > n. */
  lemma {:induction false} SlicesTile(n: nat, t: nat, tasks: nat)
    requires t < tasks
    ensures Cut(n, 0, tasks) == 0 && Cut(n, tasks, tasks) == n
    ensures Cut(n, t + 1, tasks) - Cut(n, t, tasks) == n / tasks
         || Cut(n, t + 1, tasks) - Cut(n, t, tasks) == (n + tasks - 1) / tasks
    ensures 0 <= Cut(n, t, tasks) <= Cut(n, t + 1, tasks) <= n
  {
    hide Cut;
    CutBounds(n, tasks);
    SliceSize(n, t, tasks);
    CutMonotone(n, t, t + 1, tasks);
    CutMonotone(n, t + 1, tasks, tasks);
  }

  function Piece(cut: int -> int, f: int -> real, t: int): real {
    Sum(cut(t), cut(t + 1), f)
  }

  /** The sum over each piece between consecutive cuts. */
  function Pieces(cut: int -> int, f: int -> real): int -> real {
    t => Piece(cut, f, t)
  }

  lemma {:induction false} PiecesAddUp(m: nat, cut: int -> int, f: int -> real)
    requires cut(0) == 0 && Ascending(cut, 0, m)
    ensures Sum(0, m, Pieces(cut, f)) == Sum(0, cut(m), f)
  {
    if m > 0 {
      PiecesAddUp(m - 1, cut, f);
      SumConcat(0, cut(m - 1), cut(m), f);
    }
  }

  function Cuts(n: nat, tasks: nat): int -> int
    requires tasks > 0
  {
    t => if t < 0 then 0 else Cut(n, t, tasks)
  }

  /** The partial result of each slice. */
  function SliceSum(n: nat, tasks: nat, f: int -> real): int -> real
    requires tasks > 0
  {
    Pieces(Cuts(n, tasks), f)
  }

  lemma {:induction false} CutsAscend(n: nat, tasks: nat)
    requires tasks > 0
    ensures Ascending(Cuts(n, tasks), 0, tasks)
  {
    forall t, u | 0 <= t <= u <= tasks
      ensures Cuts(n, tasks)(t) <= Cuts(n, tasks)(u)
    {
      CutMonotone(n, t, u, tasks);
    }
  }

  lemma CutEnds(n: nat, tasks: nat)
    requires tasks > 0
    ensures Cuts(n, tasks)(0) == 0 && Cuts(n, tasks)(tasks) == n
  {
    CutBounds(n, tasks);
  }

  /** Adding the slices gives the whole sum. */
  lemma {:induction false} SlicesAddUp(n: nat, tasks: nat, f: int -> real)
    requires tasks > 0
    ensures Sum(0, tasks, SliceSum(n, tasks, f)) == Sum(0, n, f)
  {
    CutsAscend(n, tasks);
    CutEnds(n, tasks);
    PiecesAddUp(tasks, Cuts(n, tasks), f);
  }

  /** The number of partial results: four per thread of the pool. */
  function SliceCount(poolSize: nat): (tasks: nat)
    ensures tasks >= 1
    ensures 0 < poolSize < 0x2000_0000 ==> tasks == 4 * poolSize
  {
    Max(1, ToInt32(poolSize) * 4)
  }

  /** Column j of a strided buffer. */
  function Column(x: seq<real>, j: int, str0: int, str1: int): int -> real {
    i => Entry(x, Offset(RowPointer, i, j, str0, str1))
  }

  // ----- Column sums -----

  /** The null-pool path: add every row into `out`. */
  method AddRowsDirectly(X: array<real>, rows: nat, cols: nat, xStr0: int, xStr1: int, out: array<real>)
    requires InBuffer(RowPointer, rows, cols, xStr0, xStr1, X.Length) && cols <= out.Length && out != X
    modifies out
    ensures forall j :: 0 <= j < out.Length ==>
              out[j] == old(out[j]) + if j < cols then Sum(0, rows, Column(X[..], j, xStr0, xStr1)) else 0.0
  {
    for i := 0 to rows
      invariant forall j :: 0 <= j < out.Length ==>
                  out[j] == old(out[j]) + if j < cols then Sum(0, i, Column(X[..], j, xStr0, xStr1)) else 0.0
    {
      for j := 0 to cols
        invariant forall j' :: 0 <= j' < out.Length ==>
                    out[j'] == old(out[j']) +
                      if j' < cols then Sum(0, if j' < j then i + 1 else i, Column(X[..], j', xStr0, xStr1)) else 0.0
      {
        out[j] := out[j] + X[Offset(RowPointer, i, j, xStr0, xStr1)];
      }
    }
  }

  /** The closing loops: add the partial results of all tasks into `out`. */
  method AddPartials(partials: array2<real>, cols: nat, ghost pieces: (int, int) -> real, out: array<real>)
    requires partials.Length1 == cols <= out.Length
    requires forall t, j :: 0 <= t < partials.Length0 && 0 <= j < cols ==> partials[t, j] == pieces(t, j)
    modifies out
    ensures forall j :: 0 <= j < out.Length ==>
              out[j] == old(out[j]) + if j < cols then Sum(0, partials.Length0, Second(pieces, j)) else 0.0
  {
    for t := 0 to partials.Length0
      invariant forall j :: 0 <= j < out.Length ==>
                  out[j] == old(out[j]) + if j < cols then Sum(0, t, Second(pieces, j)) else 0.0
    {
      for j := 0 to cols
        invariant forall j' :: 0 <= j' < out.Length ==>
                    out[j'] == old(out[j']) +
                      if j' < cols then Sum(0, if j' < j then t + 1 else t, Second(pieces, j')) else 0.0
      {
        out[j] := out[j] + partials[t, j];
      }
    }
  }

  /** What the task for slice t puts into column j of the partial results. */
  function SliceColumn(x: seq<real>, rows: nat, xStr0: int, xStr1: int, tasks: nat, t: int, j: int): real
    requires tasks > 0
  {
    Piece(Cuts(rows, tasks), Column(x, j, xStr0, xStr1), t)
  }

  function SliceColumns(x: seq<real>, rows: nat, xStr0: int, xStr1: int, tasks: nat): (int, int) -> real
    requires tasks > 0
  {
    (t, j) => SliceColumn(x, rows, xStr0, xStr1, tasks, t, j)
  }

  lemma {:induction false} SliceColumnsAddUp(x: seq<real>, rows: nat, cols: nat, xStr0: int, xStr1: int, tasks: nat)
    requires tasks > 0
    ensures forall j :: 0 <= j < cols ==>
              Sum(0, tasks, Second(SliceColumns(x, rows, xStr0, xStr1, tasks), j))
              == Sum(0, rows, Column(x, j, xStr0, xStr1))
  {
    forall j | 0 <= j < cols
      ensures Sum(0, tasks, Second(SliceColumns(x, rows, xStr0, xStr1, tasks), j))
           == Sum(0, rows, Column(x, j, xStr0, xStr1))
    {
      var column := Column(x, j, xStr0, xStr1);
      SumCong(0, tasks, Second(SliceColumns(x, rows, xStr0, xStr1, tasks), j), SliceSum(rows, tasks, column));
      SlicesAddUp(rows, tasks, column);
    }
  }

  // ----- One element at a time -----

  /** The slice to which iteration i of n belongs. */
  function Owner(n: nat, i: nat, tasks: nat): (t: nat)
    requires i < n && tasks > 0
  {
    ((i + 1) * tasks - 1) / n
  }

  /** Every iteration belongs to exactly one slice. */
  lemma {:induction false} OwnerIsUnique(n: nat, i: nat, tasks: nat, t: nat)
    requires i < n && tasks > 0 && t < tasks
    ensures Owner(n, i, tasks) < tasks
    ensures Cut(n, t, tasks) <= i < Cut(n, t + 1, tasks) <==> t == Owner(n, i, tasks)
  {
    var x := (i + 1) * tasks - 1;
    QuotientBelow(x, n, tasks, i);
    AboveCut(n, t, tasks, i);
    AboveCut(n, t + 1, tasks, i);
    InQuotient(x, n, t);
    assert n * (t + 1) == n * t + n;
  }

  lemma OwnerInRange(n: nat, i: nat, tasks: nat)
    requires i < n && tasks > 0
    ensures Owner(n, i, tasks) < tasks
  {
    OwnerIsUnique(n, i, tasks, 0);
  }

  lemma {:induction false} QuotientBelow(x: nat, n: nat, tasks: nat, i: nat)
    requires i < n && tasks > 0 && x == (i + 1) * tasks - 1
    ensures x / n < tasks
  {
    Times(i + 1, n, tasks);
    assert x == x / n * n + x % n;
    if x / n >= tasks {
      Times(tasks, x / n, n);
      assert false;
    }
  }

  /** n * t / tasks <= i exactly if n * t < (i + 1) * tasks. */
  lemma {:induction false} AboveCut(n: nat, t: nat, tasks: nat, i: nat)
    requires tasks > 0
    ensures Cut(n, t, tasks) <= i <==> n * t <= (i + 1) * tasks - 1
  {
    FloorAtMost(n * t, tasks, i);
  }

  lemma {:induction false} FloorAtMost(a: nat, k: nat, i: nat)
    requires k > 0
    ensures a / k <= i <==> a <= (i + 1) * k - 1
  {
    var q, r := a / k, a % k;
    assert a == q * k + r;
    if q <= i {
      Times(q + 1, i + 1, k);
    } else {
      Times(i + 1, q, k);
    }
  }

  /** f(i) once element (i, j) has been processed, and nothing before. */
  function GatheredAt(done: set<int>, cols: nat, f: int -> real, j: int, i: int): real {
    if Element(i, j, cols) in done then f(i) else 0.0
  }

  function Gathered(done: set<int>, cols: nat, f: int -> real, j: int): int -> real {
    i => GatheredAt(done, cols, f, j, i)
  }

  /** What slice t has accumulated in column j when the elements `done` have been processed. */
  function SoFar(done: set<int>, n: nat, cols: nat, tasks: nat, f: int -> real, t: int, j: int): real
    requires tasks > 0
  {
    Piece(Cuts(n, tasks), Gathered(done, cols, f, j), t)
  }

  /** Changing one term from zero changes a sum by that term, if it is in range. */
  lemma {:induction false} SumOneMore(lo: int, hi: int, f: int -> real, g: int -> real, at: int)
    requires forall i :: lo <= i < hi && i != at ==> f(i) == g(i)
    requires f(at) == 0.0
    ensures Sum(lo, hi, g) == Sum(lo, hi, f) + if lo <= at < hi then g(at) else 0.0
    decreases hi - lo
  {
    if lo < hi {
      SumOneMore(lo, hi - 1, f, g, at);
    }
  }

  /** Processing element (i, c) adds to column c of the slice that owns i, and to nothing else. */
  lemma {:induction false} GatherOne(done: set<int>, n: nat, cols: nat, tasks: nat, f: int -> real,
                                     i: nat, c: nat, t: nat, j: nat)
    requires i < n && c < cols && j < cols && t < tasks && Element(i, c, cols) !in done
    ensures SoFar(done + {Element(i, c, cols)}, n, cols, tasks, f, t, j)
         == SoFar(done, n, cols, tasks, f, t, j) + if t == Owner(n, i, tasks) && j == c then f(i) else 0.0
  {
    var more := done + {Element(i, c, cols)};
    SlicesTile(n, t, tasks);
    OwnerIsUnique(n, i, tasks, t);
    var lo, hi := Cut(n, t, tasks), Cut(n, t + 1, tasks);
    hide Cut, Owner, Element;
    forall k | lo <= k < hi && (k != i || j != c)
      ensures Gathered(done, cols, f, j)(k) == Gathered(more, cols, f, j)(k)
    {
      if Element(k, j, cols) == Element(i, c, cols) {
        SameElement(k, j, i, c, n, cols);
        assert false;
      }
    }
    if j == c {
      SumOneMore(lo, hi, Gathered(done, cols, f, j), Gathered(more, cols, f, j), i);
    } else {
      SumCong(lo, hi, Gathered(done, cols, f, j), Gathered(more, cols, f, j));
    }
  }

  lemma {:induction false} NothingGathered(n: nat, cols: nat, tasks: nat, f: int -> real, t: nat, j: nat)
    requires t < tasks
    ensures SoFar({}, n, cols, tasks, f, t, j) == 0.0
  {
    SumZero(Cut(n, t, tasks), Cut(n, t + 1, tasks), Gathered({}, cols, f, j));
  }

  lemma {:induction false} AllGathered(done: set<int>, n: nat, cols: nat, tasks: nat, f: int -> real, t: nat, j: nat)
    requires t < tasks && j < cols && forall q :: 0 <= q < n * cols ==> q in done
    ensures SoFar(done, n, cols, tasks, f, t, j) == Piece(Cuts(n, tasks), f, t)
  {
    SlicesTile(n, t, tasks);
    forall i | Cut(n, t, tasks) <= i < Cut(n, t + 1, tasks)
      ensures Gathered(done, cols, f, j)(i) == f(i)
    {
      JoinIndex(i, j, n, cols);
    }
    SumCong(Cut(n, t, tasks), Cut(n, t + 1, tasks), Gathered(done, cols, f, j), f);
  }

  /** The first element of each slice. */
  function SliceStarts(n: nat, cols: nat, tasks: nat): int -> int
    requires tasks > 0
  {
    t => Cuts(n, tasks)(t) * cols
  }

  lemma {:induction false} SliceStartsAscend(n: nat, cols: nat, tasks: nat)
    requires tasks > 0
    ensures Ascending(SliceStarts(n, cols, tasks), 0, tasks)
    ensures SliceStarts(n, cols, tasks)(0) == 0 && SliceStarts(n, cols, tasks)(tasks) == n * cols
  {
    CutEnds(n, tasks);
    CutsAscend(n, tasks);
    forall t, u | 0 <= t <= u <= tasks
      ensures SliceStarts(n, cols, tasks)(t) <= SliceStarts(n, cols, tasks)(u)
    {
      Times(Cuts(n, tasks)(t), Cuts(n, tasks)(u), cols);
    }
  }

  /** The accumulation of all slices, in the order of the schedule. */
  method AddElements(X: array<real>, rows: nat, cols: nat, xStr0: int, xStr1: int, partials: array2<real>,
                     order: seq<int>)
    requires InBuffer(RowPointer, rows, cols, xStr0, xStr1, X.Length)
    requires partials.Length0 > 0 && partials.Length1 == cols && EachOnce(order, 0, rows * cols)
    requires forall t, j :: 0 <= t < partials.Length0 && 0 <= j < cols ==> partials[t, j] == 0.0
    modifies partials
    ensures forall t, j :: 0 <= t < partials.Length0 && 0 <= j < cols ==>
              partials[t, j] == SliceColumns(X[..], rows, xStr0, xStr1, partials.Length0)(t, j)
  {
    var tasks := partials.Length0;
    ghost var done: set<int> := {};
    ghost var x := X[..];
    forall t, j | 0 <= t < tasks && 0 <= j < cols
      ensures partials[t, j] == SoFar(done, rows, cols, tasks, Column(x, j, xStr0, xStr1), t, j)
    {
      NothingGathered(rows, cols, tasks, Column(x, j, xStr0, xStr1), t, j);
    }
    hide SoFar, Owner;
    for k := 0 to |order|
      invariant forall q :: q in done <==> q in order[..k]
      invariant forall t, j :: 0 <= t < tasks && 0 <= j < cols ==>
                  partials[t, j] == SoFar(done, rows, cols, tasks, Column(x, j, xStr0, xStr1), t, j)
    {
      var q := order[k];
      assert order[..k + 1] == order[..k] + [q];
      assert q !in done;
      SplitIndex(q, rows, cols);
      var i, c := q / cols, q % cols;
      var t := Owner(rows, i, tasks);
      OwnerInRange(rows, i, tasks);
      forall t', j | 0 <= t' < tasks && 0 <= j < cols
        ensures SoFar(done + {q}, rows, cols, tasks, Column(x, j, xStr0, xStr1), t', j)
             == partials[t', j] + if t' == t && j == c then Column(x, j, xStr0, xStr1)(i) else 0.0
      {
        GatherOne(done, rows, cols, tasks, Column(x, j, xStr0, xStr1), i, c, t', j);
      }
      partials[t, c] := partials[t, c] + X[Offset(RowPointer, i, c, xStr0, xStr1)];
      done := done + {q};
    }
    assert order[..|order|] == order;
    forall t, j | 0 <= t < tasks && 0 <= j < cols
      ensures partials[t, j] == SliceColumns(x, rows, xStr0, xStr1, tasks)(t, j)
    {
      AllGathered(done, rows, cols, tasks, Column(x, j, xStr0, xStr1), t, j);
    }
  }

  method ReduceSumRows(pool: ThreadPool?, X: array<real>, rows: nat, cols: nat, xStr0: int, xStr1: int,
                       out: array<real>)
    requires Usable(pool)
    requires InBuffer(RowPointer, rows, cols, xStr0, xStr1, X.Length) && cols <= out.Length && out != X
    modifies pool, out
    ensures Usable(pool)
    ensures forall j :: 0 <= j < out.Length ==>
              out[j] == old(out[j]) + if j < cols then Sum(0, rows, Column(X[..], j, xStr0, xStr1)) else 0.0
  {
    if pool == null {
      AddRowsDirectly(X, rows, cols, xStr0, xStr1, out);
      return;
    }
    var tasks := SliceCount(pool.Size());
    var partials := new real[tasks, cols]((t, j) => 0.0);
    ghost var pieces := SliceColumns(X[..], rows, xStr0, xStr1, tasks);
    SliceStartsAscend(rows, cols, tasks);
    var order := ForEachRange(pool, 0, tasks, SliceStarts(rows, cols, tasks));
    AddElements(X, rows, cols, xStr0, xStr1, partials, order);
    AddPartials(partials, cols, pieces, out);
    SliceColumnsAddUp(X[..], rows, cols, xStr0, xStr1, tasks);
  }

  // ----- Inner product -----

  /** One accumulation loop of the 1-D dot product. */
  method Accumulate(a: array<real>, b: array<real>, i0: nat, i1: nat) returns (acc: real)
    requires i0 <= i1 <= a.Length && i1 <= b.Length
    ensures acc == Sum(i0, i1, Products(a[..], b[..]))
  {
    acc := 0.0;
    for i := i0 to i1
      invariant acc == Sum(i0, i, Products(a[..], b[..]))
    {
      acc := acc + a[i] * b[i];
    }
  }

  /** The accumulation of all slices of the inner product, in the order of the schedule. */
  method AddProducts(a: array<real>, b: array<real>, n: nat, partials: array<real>, order: seq<int>,
                     ghost f: int -> real)
    requires n <= a.Length && n <= b.Length && partials !in [a, b]
    requires forall i :: 0 <= i < n ==> f(i) == a[i] * b[i]
    requires partials.Length > 0 && EachOnce(order, 0, n)
    requires forall t :: 0 <= t < partials.Length ==> partials[t] == 0.0
    modifies partials
    ensures forall t :: 0 <= t < partials.Length ==> partials[t] == Piece(Cuts(n, partials.Length), f, t)
  {
    hide SoFar, Owner, Piece, Element;
    var tasks := partials.Length;
    ghost var done: set<int> := {};
    forall t | 0 <= t < tasks
      ensures partials[t] == SoFar(done, n, 1, tasks, f, t, 0)
    {
      NothingGathered(n, 1, tasks, f, t, 0);
    }
    for k := 0 to |order|
      invariant forall q :: q in done <==> q in order[..k]
      invariant forall t :: 0 <= t < tasks ==> partials[t] == SoFar(done, n, 1, tasks, f, t, 0)
    {
      var i := order[k];
      assert order[..k + 1] == order[..k] + [i];
      assert i !in done;
      var t := Owner(n, i, tasks);
      OwnerInRange(n, i, tasks);
      GatherEach(done, n, tasks, f, i);
      partials[t] := partials[t] + a[i] * b[i];
      done := done + {i};
    }
    assert order[..|order|] == order;
    forall t | 0 <= t < tasks
      ensures partials[t] == Piece(Cuts(n, tasks), f, t)
    {
      AllGathered(done, n, 1, tasks, f, t, 0);
    }
  }

  /** GatherOne for all slices of a single column. */
  lemma {:induction false} GatherEach(done: set<int>, n: nat, tasks: nat, f: int -> real, i: nat)
    requires i < n && tasks > 0 && i !in done
    ensures forall t :: 0 <= t < tasks ==>
              SoFar(done + {i}, n, 1, tasks, f, t, 0)
              == SoFar(done, n, 1, tasks, f, t, 0) + if t == Owner(n, i, tasks) then f(i) else 0.0
  {
    hide SoFar, Owner;
    assert Element(i, 0, 1) == i;
    forall t: nat | t < tasks
      ensures SoFar(done + {i}, n, 1, tasks, f, t, 0)
           == SoFar(done, n, 1, tasks, f, t, 0) + if t == Owner(n, i, tasks) then f(i) else 0.0
    {
      GatherOne(done, n, 1, tasks, f, i, 0, t, 0);
    }
  }

  /** The partial results of the inner product. */
  method DotSlices(pool: ThreadPool, a: array<real>, b: array<real>, n: nat) returns (partials: array<real>)
    requires Usable(pool) && n <= a.Length && n <= b.Length
    modifies pool
    ensures Usable(pool) && fresh(partials) && partials.Length == SliceCount(old(pool.Size()))
    ensures forall t :: 0 <= t < partials.Length ==>
              partials[t] == SliceSum(n, partials.Length, Products(a[..], b[..]))(t)
  {
    hide Usable, SliceStarts, Cuts;
    var tasks := SliceCount(pool.Size());
    partials := new real[tasks](t => 0.0);
    SliceStartsAscend(n, 1, tasks);
    var order := ForEachRange(pool, 0, tasks, SliceStarts(n, 1, tasks));
    AddProducts(a, b, n, partials, order, Products(a[..], b[..]));
  }

  method DotVectors(pool: ThreadPool?, a: array<real>, b: array<real>, n: nat) returns (sum: real)
    requires Usable(pool) && n <= a.Length && n <= b.Length
    modifies pool
    ensures Usable(pool)
    ensures sum == Sum(0, n, Products(a[..], b[..]))
  {
    if pool == null || pool.Size() <= 1 {
      sum := Accumulate(a, b, 0, n);
      return;
    }
    var partials := DotSlices(pool, a, b, n);
    ghost var slices := SliceSum(n, partials.Length, Products(a[..], b[..]));
    sum := 0.0;
    for t := 0 to partials.Length
      invariant sum == Sum(0, t, slices)
    {
      sum := sum + partials[t];
    }
    SlicesAddUp(n, partials.Length, Products(a[..], b[..]));
  }
}
