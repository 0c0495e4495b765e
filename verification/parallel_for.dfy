/**
 ParallelFor over the pool. The result `order` lists the elements in the order in which the tasks of
 the call processed them. Iteration i of [begin, end) stands for the elements cut(i) up to cut(i + 1),
 which the loop body processes one after the other.
 */
module ParallelLoops {
  import opened MachineInts
  import opened Totals
  import opened PoolModel
  import opened PoolNesting
  import opened PoolProgress
  import opened ThreadPools
  import opened Chunking

  /** lo, lo + 1, ..., hi - 1 */
  function Span(lo: int, hi: int): seq<int>
    requires lo <= hi
  {
    seq(hi - lo, i requires 0 <= i => lo + i)
  }

  /** A task that processes lo, lo + 1, ..., hi - 1. */
  function SpanProgram(lo: int, hi: int): Program
    requires lo <= hi
    decreases hi - lo
  {
    if lo == hi then Done else Touch(lo, SpanProgram(lo + 1, hi))
  }

  lemma {:induction false} SpanProgramTouches(lo: int, hi: int)
    requires lo <= hi
    ensures Touches(SpanProgram(lo, hi)) == Span(lo, hi)
    decreases hi - lo
  {
    if lo < hi {
      SpanProgramTouches(lo + 1, hi);
      assert Span(lo, hi) == [lo] + Span(lo + 1, hi);
    }
  }

  /** Every element of [lo, hi) occurs in `order` exactly once, and nothing else does. */
  ghost predicate EachOnce(order: seq<int>, lo: int, hi: int) {
    && (forall k :: 0 <= k < |order| ==> lo <= order[k] < hi)
    && (forall q :: lo <= q < hi ==> q in order)
    && (forall i, j :: 0 <= i < j < |order| ==> order[i] != order[j])
  }

  lemma {:induction false} SpanIsEachOnce(lo: int, hi: int)
    requires lo <= hi
    ensures EachOnce(Span(lo, hi), lo, hi)
  {
    forall q | lo <= q < hi
      ensures q in Span(lo, hi)
    {
      assert Span(lo, hi)[q - lo] == q;
    }
  }

  lemma {:induction false} CountAtMostOne(order: seq<int>)
    requires forall i, j :: 0 <= i < j < |order| ==> order[i] != order[j]
    ensures forall q :: multiset(order)[q] <= 1
  {
    if order != [] {
      var n := |order| - 1;
      CountAtMostOne(order[..n]);
      assert order == order[..n] + [order[n]];
      assert order[n] !in multiset(order[..n]);
    }
  }

  lemma {:induction false} TwiceCountsTwo(order: seq<int>, i: nat, j: nat)
    requires i < j < |order| && order[i] == order[j]
    ensures multiset(order)[order[i]] >= 2
  {
    assert order == order[..j] + [order[j]] + order[j + 1..];
    assert order[..j] == order[..i] + [order[i]] + order[i + 1..j];
    assert multiset(order) == multiset(order[..i]) + multiset{order[i]} + multiset(order[i + 1..j])
                              + multiset{order[j]} + multiset(order[j + 1..]);
  }

  /** A permutation of a duplicate-free sequence hits the same elements, once each. */
  lemma {:induction false} PermutationIsEachOnce(order: seq<int>, lo: int, hi: int)
    requires lo <= hi && multiset(order) == multiset(Span(lo, hi))
    ensures EachOnce(order, lo, hi)
  {
    SpanIsEachOnce(lo, hi);
    CountAtMostOne(Span(lo, hi));
    forall k | 0 <= k < |order|
      ensures lo <= order[k] < hi
    {
      assert order[k] in multiset(order);
      assert order[k] in Span(lo, hi);
    }
    forall q | lo <= q < hi
      ensures q in order
    {
      assert q in Span(lo, hi);
      assert q in multiset(order);
    }
    forall i, j | 0 <= i < j < |order|
      ensures order[i] != order[j]
    {
      if order[i] == order[j] {
        TwiceCountsTwo(order, i, j);
        assert false;
      }
    }
  }

  /** The cuts between iterations are in order. */
  ghost predicate Ascending(cut: int -> int, begin: int, end: int) {
    forall t, u :: begin <= t <= u <= end ==> cut(t) <= cut(u)
  }

  /** Iterations of `width` elements each. */
  function Blocks(width: nat): int -> int {
    i => i * width
  }

  lemma ScaleOrdered(a: int, b: int, width: nat)
    requires a <= b
    ensures a * width <= b * width
  {
  }

  lemma {:induction false} BlocksAscend(width: nat, begin: int, end: int)
    ensures Ascending(Blocks(width), begin, end)
  {
    forall t, u | begin <= t <= u <= end
      ensures Blocks(width)(t) <= Blocks(width)(u)
    {
      ScaleOrdered(t, u, width);
    }
  }

  /** programs[k] processes the elements of ranges[k]. */
  ghost predicate ProgramsOf(programs: seq<Program>, ranges: seq<Range>, cut: int -> int) {
    && |programs| == |ranges|
    && forall k :: 0 <= k < |ranges| ==>
         cut(ranges[k].start) <= cut(ranges[k].end) &&
         programs[k] == SpanProgram(cut(ranges[k].start), cut(ranges[k].end))
  }

  lemma EmptySpan(lo: int)
    ensures Span(lo, lo) == []
  {
  }

  lemma SpanConcat(lo: int, mid: int, hi: int)
    requires lo <= mid <= hi
    ensures multiset(Span(lo, hi)) == multiset(Span(lo, mid)) + multiset(Span(mid, hi))
  {
    assert Span(lo, hi) == Span(lo, mid) + Span(mid, hi);
  }

  /** The tasks of tiling ranges together process every element of the whole range once. */
  lemma {:induction false} TilesBodies(ranges: seq<Range>, programs: seq<Program>, lo: int, hi: int, cut: int -> int)
    requires Tiles(ranges, lo, hi) && ProgramsOf(programs, ranges, cut)
    ensures cut(lo) <= cut(hi)
    ensures Bodies(programs) == multiset(Span(cut(lo), cut(hi)))
    decreases |ranges|
  {
    hide Span;
    if ranges == [] {
      EmptySpan(cut(lo));
    } else {
      var n := |ranges| - 1;
      var mid := ranges[n].start;
      TilesBodies(ranges[..n], programs[..n], lo, mid, cut);
      SpanProgramTouches(cut(mid), cut(hi));
      SpanConcat(cut(lo), cut(mid), cut(hi));
    }
  }

  lemma {:induction false} SpanLoad(lo: int, hi: int)
    requires lo <= hi
    ensures ProgramLoad(SpanProgram(lo, hi)) == 0
    decreases hi - lo
  {
    if lo < hi {
      SpanLoad(lo + 1, hi);
    }
  }

  /** The tasks of a loop never block. */
  lemma {:induction false} LoopLoad(programs: seq<Program>, ranges: seq<Range>, cut: int -> int)
    requires ProgramsOf(programs, ranges, cut)
    ensures Total(programs, ProgramLoad) == 0
    decreases |ranges|
  {
    if ranges != [] {
      SpanLoad(cut(ranges[0].start), cut(ranges[0].end));
      LoopLoad(programs[1..], ranges[1..], cut);
    }
  }

  /** The task bodies for the ranges, in the order in which the loop enqueues them. */
  method LoopBodies(ranges: seq<Range>, begin: int, end: int, cut: int -> int) returns (programs: seq<Program>)
    requires Tiles(ranges, begin, end) && Ascending(cut, begin, end)
    ensures ProgramsOf(programs, ranges, cut)
  {
    programs := [];
    for k := 0 to |ranges|
      invariant |programs| == k
      invariant forall i :: 0 <= i < k ==>
                  cut(ranges[i].start) <= cut(ranges[i].end) &&
                  programs[i] == SpanProgram(cut(ranges[i].start), cut(ranges[i].end))
    {
      TileInside(ranges, begin, end, k);
      programs := programs + [SpanProgram(cut(ranges[k].start), cut(ranges[k].end))];
    }
  }

  lemma {:induction false} TileInside(ranges: seq<Range>, lo: int, hi: int, k: nat)
    requires Tiles(ranges, lo, hi) && k < |ranges|
    ensures lo <= ranges[k].start < ranges[k].end <= hi
    decreases |ranges|
  {
    TilesStart(ranges[..|ranges| - 1], lo, ranges[|ranges| - 1].start);
    if k < |ranges| - 1 {
      TileInside(ranges[..|ranges| - 1], lo, ranges[|ranges| - 1].start, k);
    }
  }

  lemma {:induction false} TilesStart(ranges: seq<Range>, lo: int, hi: int)
    requires Tiles(ranges, lo, hi)
    ensures lo <= hi
    decreases |ranges|
  {
    if ranges != [] {
      TilesStart(ranges[..|ranges| - 1], lo, ranges[|ranges| - 1].start);
    }
  }

  /** The tasks are those of the planned ranges. */
  ghost predicate PlannedTasks(programs: seq<Program>, poolSize: nat, begin: int, end: int, desiredTasks: int,
                               cut: int -> int) {
    exists ranges :: Planned(ranges, poolSize, begin, end, desiredTasks) && ProgramsOf(programs, ranges, cut)
  }

  method ParallelFor(pool: ThreadPool, begin: int, end: int, cut: int -> int, desiredTasks: int := -1)
    returns (order: seq<int>)
    requires pool.Ready() && Ascending(cut, begin, end)
    requires desiredTasks < TWO_31
    requires desiredTasks <= 0 ==> FourfoldFits(pool.Size())
    modifies pool
    ensures pool.Ready() && pool.Size() == old(pool.Size())
    ensures EachOnce(order, cut(begin), if begin < end then cut(end) else cut(begin))
    ensures end <= begin ==> pool.View() == old(pool.View())
    ensures begin < end ==>
              && |pool.clients| == |old(pool.clients)| + 1
              && PlannedTasks(pool.clients[|old(pool.clients)|].programs, pool.Size(), begin, end, desiredTasks, cut)
  {
    order := [];
    if end <= begin {
      return;
    }
    var ranges := PlanRanges(pool.Size(), begin, end, desiredTasks);
    var programs := LoopBodies(ranges, begin, end, cut);
    LoopLoad(programs, ranges, cut);
    order := pool.CallAndWait(programs);
    TilesBodies(ranges, programs, begin, end, cut);
    PermutationIsEachOnce(order, cut(begin), cut(end));
  }

  /** The pool a kernel may use. */
  ghost predicate Usable(pool: ThreadPool?)
    reads pool
  {
    pool != null ==> pool.Ready() && FourfoldFits(pool.Size())
  }

  /** ForEachRange: the whole range at once without a pool, ParallelFor with one. */
  method ForEachRange(pool: ThreadPool?, begin: int, end: int, cut: int -> int) returns (order: seq<int>)
    requires Usable(pool) && Ascending(cut, begin, end)
    modifies pool
    ensures Usable(pool)
    ensures pool == null && begin < end ==> cut(begin) <= cut(end) && order == Span(cut(begin), cut(end))
    ensures pool != null && begin < end ==>
              && |pool.clients| == |old(pool.clients)| + 1
              && PlannedTasks(pool.clients[|pool.clients| - 1].programs, pool.Size(), begin, end, -1, cut)
    ensures EachOnce(order, cut(begin), if begin < end then cut(end) else cut(begin))
  {
    order := [];
    if end <= begin {
      return;
    }
    if pool == null {
      order := Span(cut(begin), cut(end));
      SpanIsEachOnce(cut(begin), cut(end));
      return;
    }
    order := ParallelFor(pool, begin, end, cut);
  }

  /** A loop from 0 whose iterations are blocks of `width` elements. */
  method ForEachBlock(pool: ThreadPool?, end: int, width: nat) returns (order: seq<int>)
    requires Usable(pool)
    modifies pool
    ensures Usable(pool)
    ensures EachOnce(order, 0, if end > 0 then end * width else 0)
  {
    BlocksAscend(width, 0, end);
    order := ForEachRange(pool, 0, end, Blocks(width));
  }
}
