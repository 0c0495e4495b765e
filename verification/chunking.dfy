/** How ParallelFor cuts a range into chunks. Conversions to `int` that can lose bits are written out. */
module Chunking {
  import opened MachineInts

  const MIN_CHUNK := 8192

  function Min(a: int, b: int): int { if a <= b then a else b }
  function Max(a: int, b: int): int { if a >= b then a else b }

  /** A half-open piece of the iteration space. */
  datatype Range = Range(start: int, end: int)

  /** Contiguous non-empty ranges that cover [lo, hi) without gap or overlap. */
  ghost predicate Tiles(ranges: seq<Range>, lo: int, hi: int) {
    if ranges == [] then lo == hi
    else
      var last := ranges[|ranges| - 1];
      last.start < last.end && last.end == hi && Tiles(ranges[..|ranges| - 1], lo, last.start)
  }

  /** Dividing rounded up: enough pieces of size (n + k - 1) / k, and no more than k of them. */
  lemma {:induction false} CeilingDivision(n: int, k: int)
    requires n > 0 && k > 0
    ensures (n + k - 1) / k >= 1
    ensures (n + k - 1) / k * k >= n
    ensures ((n + k - 1) / k - 1) * k < n
  {
    var c := (n + k - 1) / k;
    assert n + k - 1 == c * k + (n + k - 1) % k;
    assert (c - 1) * k == c * k - k;
  }

  /** The conversion to int may wrap, but never to a positive value above the real one. */
  lemma GrainClamp(grain: int, tasks: int)
    requires grain >= 1 && tasks < TWO_31
    requires ToInt32(grain) > 0 ==> tasks <= ToInt32(grain)
    ensures tasks <= grain
  {
    if grain >= TWO_31 {
      assert grain > tasks;
    }
  }

  /** The grain clamp keeps chunks large even if the conversion to int wrapped around. */
  lemma {:induction false} GrainKeepsChunksLarge(n: int, tasks: int, chunk: int)
    requires n > 0 && 1 < tasks < TWO_31
    requires ToInt32((n + MIN_CHUNK - 1) / MIN_CHUNK) > 0 ==>
               tasks <= ToInt32((n + MIN_CHUNK - 1) / MIN_CHUNK)
    requires n <= chunk * tasks
    ensures chunk > 4096
  {
    var grain := (n + MIN_CHUNK - 1) / MIN_CHUNK;
    assert (grain - 1) * MIN_CHUNK < n <= grain * MIN_CHUNK;
    GrainClamp(grain, tasks);
    if chunk <= 4096 {
      MulMonotone(chunk, 4096, tasks);
      assert false;
    }
  }

  lemma MulMonotone(a: int, b: int, k: int)
    requires a <= b && k >= 0
    ensures a * k <= b * k
  {
  }

  /** The product `threads * 4` does not overflow an int. */
  predicate FourfoldFits(poolSize: nat) {
    -TWO_31 <= ToInt32(Max(1, poolSize)) * 4 < TWO_31
  }

  /**
   A number of tasks ParallelFor may use for n iterations: one, or no more than the caller wants (or four
   for each thread), than there are iterations, and than there are grains of 8192, if that fits an int.
   */
  predicate Allowed(k: int, poolSize: nat, n: int, desiredTasks: int) {
    k == 1 ||
    (&& 1 <= k <= n
     && k <= (if desiredTasks > 0 then desiredTasks else 4 * ToInt32(if poolSize == 0 then 1 else poolSize))
     && (ToInt32((n + 8191) / 8192) > 0 ==> k <= ToInt32((n + 8191) / 8192)))
  }

  /** k is the greatest of these numbers. */
  ghost predicate Greatest(k: int, poolSize: nat, n: int, desiredTasks: int) {
    Allowed(k, poolSize, n, desiredTasks) && forall j :: Allowed(j, poolSize, n, desiredTasks) ==> j <= k
  }

  /** Where no conversion loses bits, it is the least of the three bounds. */
  lemma {:induction false} GreatestIsLeastBound(k: int, poolSize: nat, n: int, desiredTasks: int)
    requires n > 0 && Greatest(k, poolSize, n, desiredTasks)
    requires 0 < poolSize < 0x2000_0000 && n <= 0x7fff_ffff * 8192
    ensures var wanted := if desiredTasks > 0 then desiredTasks else 4 * poolSize;
            var grains := (n + 8191) / 8192;
            k <= wanted && k <= n && k <= grains && (k == wanted || k == n || k == grains)
  {
    assert !Allowed(k + 1, poolSize, n, desiredTasks);
  }

  /** The number of tasks ParallelFor settles on, for n > 0 iterations. */
  method TaskCount(poolSize: nat, n: int, desiredTasks: int) returns (numTasks: int)
    requires n > 0
    requires desiredTasks < TWO_31
    requires desiredTasks <= 0 ==> FourfoldFits(poolSize)
    ensures Greatest(numTasks, poolSize, n, desiredTasks)
    ensures 1 <= numTasks <= n && numTasks < TWO_31
    ensures desiredTasks > 0 ==> numTasks <= desiredTasks
    ensures desiredTasks <= 0 && poolSize < TWO_31 ==> numTasks <= Max(1, poolSize) * 4
    ensures numTasks > 1 ==> (n + numTasks - 1) / numTasks > 4096
  {
    var threads := ToInt32(Max(1, poolSize));
    numTasks := if desiredTasks > 0 then desiredTasks else threads * 4;
    numTasks := Max(1, Min(numTasks, n));
    var maxTasksByGrain := ToInt32((n + MIN_CHUNK - 1) / MIN_CHUNK);
    if maxTasksByGrain > 0 {
      numTasks := Min(numTasks, maxTasksByGrain);
    }
    if numTasks > 1 {
      CeilingDivision(n, numTasks);
      GrainKeepsChunksLarge(n, numTasks, (n + numTasks - 1) / numTasks);
    }
  }

  /** Where chunk t starts. */
  function ChunkStart(begin: int, chunk: int, t: int): int {
    begin + t * chunk
  }

  lemma {:induction false} ChunkStarts(begin: int, end: int, chunk: int, numTasks: int, t: int)
    requires end - begin <= chunk * numTasks
    ensures ChunkStart(begin, chunk, 0) == begin && ChunkStart(begin, chunk, numTasks) >= end
    ensures ChunkStart(begin, chunk, t + 1) == ChunkStart(begin, chunk, t) + chunk
  {
    assert chunk * numTasks == numTasks * chunk;
    assert (t + 1) * chunk == t * chunk + chunk;
  }

  /** The chunk loop: equal chunks from `begin` on, the last one cut off at `end`. */
  method CutRanges(begin: int, end: int, numTasks: int, chunk: int) returns (ranges: seq<Range>)
    requires begin < end && numTasks >= 1 && chunk >= 1
    requires end - begin <= chunk * numTasks
    ensures Tiles(ranges, begin, end)
    ensures |ranges| <= numTasks
    ensures (|ranges| - 1) * chunk < end - begin <= |ranges| * chunk
    ensures forall k :: 0 <= k < |ranges| - 1 ==> ranges[k].end - ranges[k].start == chunk
    ensures forall k :: 0 <= k < |ranges| ==> begin <= ranges[k].start && ranges[k].end - ranges[k].start <= chunk
  {
    hide ChunkStart;
    ranges := [];
    ChunkStarts(begin, end, chunk, numTasks, 0);
    for t := 0 to numTasks
      invariant |ranges| == t && begin <= ChunkStart(begin, chunk, t)
      invariant Tiles(ranges, begin, Min(ChunkStart(begin, chunk, t), end))
      invariant forall k :: 0 <= k < t - 1 ==> ranges[k].end - ranges[k].start == chunk
      invariant t > 0 ==> var s := ChunkStart(begin, chunk, t - 1);
                          ranges[t - 1] == Range(s, Min(s + chunk, end)) && ChunkStart(begin, chunk, t) == s + chunk
      invariant forall k :: 0 <= k < t ==> begin <= ranges[k].start
      invariant t > 0 ==> ranges[t - 1].start < end
    {
      var s := ChunkStart(begin, chunk, t);
      var e := Min(s + chunk, end);
      if s >= e {
        break;
      }
      ChunkStarts(begin, end, chunk, numTasks, t);
      ranges := ranges + [Range(s, e)];
      assert ranges[..t] == ranges[..|ranges| - 1];
    }
    JustEnough(begin, end, chunk, |ranges|);
  }

  lemma JustEnough(begin: int, end: int, chunk: int, count: int)
    requires ChunkStart(begin, chunk, count - 1) < end <= ChunkStart(begin, chunk, count)
    ensures (count - 1) * chunk < end - begin <= count * chunk
  {
  }

  /**
   The 64-bit arithmetic of the loop: no number computed for chunk t passes `end` by as much as the
   number of tasks, so ranges that end below 2^63 - 2^31 never overflow.
   */
  lemma {:induction false} ChunksFitInt64(begin: int, end: int, numTasks: int, t: int)
    requires 0 <= begin < end && 1 <= numTasks < TWO_31 && 0 <= t < numTasks
    ensures var chunk := (end - begin + numTasks - 1) / numTasks;
            && 0 <= t * chunk && begin <= begin + t * chunk
            && begin + t * chunk + chunk < end + numTasks
            && (end <= TWO_63 - TWO_31 ==>
                  begin + t * chunk + chunk < TWO_63 && end - begin + numTasks < TWO_63 &&
                  end - begin + MIN_CHUNK < TWO_63)
  {
    var n := end - begin;
    var chunk := (n + numTasks - 1) / numTasks;
    CeilingDivision(n, numTasks);
    ChunkBound(n, chunk, numTasks, t);
  }

  lemma {:induction false} ChunkBound(n: int, chunk: int, numTasks: int, t: int)
    requires chunk >= 1 && (chunk - 1) * numTasks < n && 0 <= t < numTasks
    ensures 0 <= t * chunk && t * chunk + chunk < n + numTasks
  {
    assert (chunk - 1) * numTasks == chunk * numTasks - numTasks;
    MulMonotone(t + 1, numTasks, chunk);
    assert (t + 1) * chunk == t * chunk + chunk && numTasks * chunk == chunk * numTasks;
  }

  /** The ranges are pieces of `chunk` elements, the last one possibly shorter, and no more than needed. */
  ghost predicate EvenlyCut(ranges: seq<Range>, begin: int, end: int, chunk: int) {
    && Tiles(ranges, begin, end)
    && (|ranges| - 1) * chunk < end - begin <= |ranges| * chunk
    && forall k :: 0 <= k < |ranges| - 1 ==> ranges[k].end - ranges[k].start == chunk
  }

  ghost predicate PlannedFor(k: int, ranges: seq<Range>, poolSize: nat, begin: int, end: int, desiredTasks: int) {
    && k >= 1 && Greatest(k, poolSize, end - begin, desiredTasks)
    && EvenlyCut(ranges, begin, end, (end - begin + k - 1) / k)
  }

  /** The ranges are those of the greatest number of tasks that is allowed. */
  ghost predicate Planned(ranges: seq<Range>, poolSize: nat, begin: int, end: int, desiredTasks: int) {
    exists k :: PlannedFor(k, ranges, poolSize, begin, end, desiredTasks)
  }

  /** The ranges for which ParallelFor enqueues a task. */
  method PlanRanges(poolSize: nat, begin: int, end: int, desiredTasks: int) returns (ranges: seq<Range>)
    requires desiredTasks < TWO_31
    requires desiredTasks <= 0 ==> FourfoldFits(poolSize)
    ensures end <= begin ==> ranges == []
    ensures begin < end ==> Tiles(ranges, begin, end) && Planned(ranges, poolSize, begin, end, desiredTasks)
    ensures desiredTasks > 0 ==> |ranges| <= desiredTasks
    ensures desiredTasks <= 0 && poolSize < TWO_31 ==> |ranges| <= Max(1, poolSize) * 4
    ensures forall k :: 0 <= k < |ranges| - 1 ==>
              ranges[k].end - ranges[k].start > 4096 &&
              ranges[k].end - ranges[k].start == ranges[0].end - ranges[0].start
    ensures forall k :: 0 <= k < |ranges| ==>
              ranges[k].end - ranges[k].start <= ranges[0].end - ranges[0].start
  {
    ranges := [];
    var n := end - begin;
    if n <= 0 {
      return;
    }
    var numTasks := TaskCount(poolSize, n, desiredTasks);
    var chunk := (n + numTasks - 1) / numTasks;
    CeilingDivision(n, numTasks);
    ranges := CutRanges(begin, end, numTasks, chunk);
    assert PlannedFor(numTasks, ranges, poolSize, begin, end, desiredTasks);
  }
}
