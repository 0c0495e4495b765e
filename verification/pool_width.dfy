/**
 Calls side by side: the tasks of one call are all queued before any task that they enqueue, so as many
 of them as there are workers block the pool if each waits for a task of its own.
 */
module PoolWidth {
  import opened Totals
  import opened PoolModel
  import opened PoolInvariant
  import opened PoolNesting
  import opened PoolProgress
  import opened PoolHangs
  import opened PoolBodies

  // ----- The call pushes all its tasks -----

  function Tickets(n: nat): (t: seq<nat>)
    ensures |t| == n && forall i :: 0 <= i < n ==> t[i] == i
  {
    seq(n, i requires 0 <= i => i)
  }

  /** The first i tasks are queued, no worker has looked, and the caller has notified for each of them. */
  ghost predicate Pushing(s: State, threads: nat, programs: seq<Program>, i: nat) {
    && Inv(s) && !s.stopping && |s.workers| == threads && i <= |programs|
    && (forall w :: 0 <= w < threads ==> s.workers[w].Checking?)
    && s.clients == [Client(programs, true, Tickets(i), false, 0)]
    && s.pushed == programs[..i] && Head(s) == 0
  }

  lemma {:induction false} StartsPushing(threads: nat, programs: seq<Program>)
    ensures Pushing(Called(threads, programs), threads, programs, 0)
  {
    CalledInv(threads, programs);
    assert Called(threads, programs).clients == [Client(programs, true, Tickets(0), false, 0)] by {
      assert Tickets(0) == [];
    }
  }

  /** Push and notify. */
  lemma {:induction false} PushesNext(s: State, threads: nat, programs: seq<Program>, i: nat)
    requires Pushing(s, threads, programs, i) && i < |programs|
    ensures Enabled(s, Proceed(0, 0)) && Enabled(Apply(s, Proceed(0, 0)), Proceed(0, 0))
    ensures Pushing(Apply(Apply(s, Proceed(0, 0)), Proceed(0, 0)), threads, programs, i + 1)
  {
    var t := Apply(s, Proceed(0, 0));
    assert Sleeping !in s.workers && t.workers == s.workers;
    var u := Apply(t, Proceed(0, 0));
    StepKeepsInv(s, Proceed(0, 0));
    StepKeepsInv(t, Proceed(0, 0));
    hide Inv;
    assert Tickets(i) + [i] == Tickets(i + 1);
    assert programs[..i] + [programs[i]] == programs[..i + 1];
    assert u.clients == [Client(programs, true, Tickets(i + 1), false, 0)];
  }

  lemma {:induction false} PushAll(s: State, threads: nat, programs: seq<Program>, i: nat) returns (steps: seq<Step>)
    requires Pushing(s, threads, programs, i)
    ensures RunsFrom(s, steps) && AllInternal(steps)
    ensures Pushing(After(s, steps), threads, programs, |programs|)
    decreases |programs| - i
  {
    hide Pushing, Apply, Enabled;
    if i >= |programs| {
      PushingBound(s, threads, programs, i);
      steps := [];
    } else {
      PushesNext(s, threads, programs, i);
      var t := Apply(s, Proceed(0, 0));
      OneStep(s, Proceed(0, 0));
      OneStep(t, Proceed(0, 0));
      RunsTogether(s, [Proceed(0, 0)], [Proceed(0, 0)]);
      var two := [Proceed(0, 0)] + [Proceed(0, 0)];
      var more := PushAll(After(s, two), threads, programs, i + 1);
      RunsTogether(s, two, more);
      steps := two + more;
    }
  }

  lemma PushingBound(s: State, threads: nat, programs: seq<Program>, i: nat)
    requires Pushing(s, threads, programs, i)
    ensures i <= |programs|
  {
  }

  // ----- Worker after worker blocks -----

  /** A worker blocked in one of the call's tasks, on a task that is pushed after all of them. */
  ghost predicate BlockedAt(k: Worker, calls: nat) {
    AtGet(k) && k.job.ticket < calls && k.kept[0] >= calls
  }

  /** The first k workers are blocked, the others idle, and enough waiting tasks are left for those. */
  ghost predicate Lined(s: State, programs: seq<Program>, k: nat) {
    && Inv(s) && k <= |s.workers|
    && (forall w :: 0 <= w < k ==> BlockedAt(s.workers[w], |programs|))
    && (forall w :: k <= w < |s.workers| ==> s.workers[w].Checking?)
    && programs <= s.pushed && Head(s) <= |programs|
    && |s.workers| <= k + Total(programs[Head(s)..], WaitWeight)
    && s.clients == [Client(programs, true, Tickets(|programs|), false, 0)]
  }

  lemma {:induction false} LinesUp(s: State, threads: nat, programs: seq<Program>)
    requires Pushing(s, threads, programs, |programs|) && threads <= Total(programs, WaitWeight)
    ensures Lined(s, programs, 0)
  {
    assert programs[..|programs|] == programs && programs[0..] == programs;
  }

  /** Worker k takes the next task of the call. */
  lemma {:induction false} TakesNext(s: State, programs: seq<Program>, k: nat)
    requires Lined(s, programs, k) && k < |s.workers|
    ensures Head(s) < |programs| && Enabled(s, Look(k))
    ensures var t := Apply(s, Look(k));
            && Inv(t) && Sleeping !in t.workers && Head(t) == Head(s) + 1
            && t.workers == s.workers[k := Running(Job(Head(s) as nat, programs[Head(s)]), false, [])]
            && t.pushed == s.pushed && t.clients == s.clients
  {
    StepKeepsInv(s, Look(k));
    assert s.pushed[Head(s)] == programs[Head(s)];
    assert s.queue[0] == Job(Head(s) as nat, s.pushed[Head(s)]);
    var t := Apply(s, Look(k));
    assert forall w :: 0 <= w < |s.workers| ==> !t.workers[w].Sleeping?;
  }

  lemma {:induction false} WaitsLeft(programs: seq<Program>, h: nat)
    requires h < |programs|
    ensures Total(programs[h..], WaitWeight) == WaitWeight(programs[h]) + Total(programs[h + 1..], WaitWeight)
  {
    assert programs[h..][1..] == programs[h + 1..];
  }

  /** It runs it to the end, or blocks in it. */
  lemma {:induction false} LinedAfterBody(s: State, t: State, u: State, programs: seq<Program>, k: nat)
    requires Lined(s, programs, k) && k < |s.workers| && Head(s) < |programs|
    requires t.workers == s.workers[k := Running(Job(Head(s) as nat, programs[Head(s)]), false, [])]
    requires t.pushed == s.pushed && t.clients == s.clients && Head(t) == Head(s) + 1 && RanBody(t, u, k)
    ensures Lined(u, programs, if WillWait(programs[Head(s)], 0) then k + 1 else k) && Head(u) == Head(s) + 1
  {
    hide Inv;
    WaitsLeft(programs, Head(s));
    assert forall w :: 0 <= w < |s.workers| && w != k ==> u.workers[w] == s.workers[w];
    if WillWait(programs[Head(s)], 0) {
      assert u.workers[k].kept[0] >= |t.pushed|;
    }
  }

  lemma {:induction false} AllBlock(s: State, programs: seq<Program>, k: nat) returns (steps: seq<Step>)
    requires Lined(s, programs, k)
    ensures RunsFrom(s, steps) && AllInternal(steps)
    ensures Lined(After(s, steps), programs, |s.workers|) && |After(s, steps).workers| == |s.workers|
    decreases |programs| - Head(s)
  {
    hide Lined, Apply, Enabled, RanBody, Inv;
    LinedBound(s, programs, k);
    if k == |s.workers| {
      steps := [];
    } else {
      TakesNext(s, programs, k);
      var t := Apply(s, Look(k));
      OneStep(s, Look(k));
      var body := RunBody(t, k);
      var u := After(t, body);
      LinedAfterBody(s, t, u, programs, k);
      WorkersStay(t, body);
      var more := AllBlock(u, programs, if WillWait(programs[Head(s)], 0) then k + 1 else k);
      RunsTogether(t, body, more);
      RunsTogether(s, [Look(k)], body + more);
      steps := [Look(k)] + (body + more);
    }
  }

  lemma LinedBound(s: State, programs: seq<Program>, k: nat)
    requires Lined(s, programs, k)
    ensures k <= |s.workers| && Head(s) <= |programs|
  {
  }

  /** When all are blocked, they are blocked for good: what they wait for is queued. */
  lemma {:induction false} LinedDeadlocks(s: State, programs: seq<Program>)
    requires Lined(s, programs, |s.workers|) && s.workers != []
    ensures Deadlocked(s)
  {
    forall w | 0 <= w < |s.workers|
      ensures Awaiting(s, w)
    {
      assert BlockedAt(s.workers[w], |programs|);
    }
    assert !s.workers[0].Exited?;
  }

  lemma {:induction false} UnfinishedCall(s: State, programs: seq<Program>, t: State)
    requires Lined(s, programs, |s.workers|) && s.workers != []
    requires Inv(t) && t.finished == s.finished && |t.clients| > 0 && t.clients[0].programs == programs
    requires t.clients[0].waits && Tickets(|programs|) <= t.clients[0].futures
    ensures !ClientDone(t.clients[0])
  {
    var ticket := s.workers[0].job.ticket;
    assert BlockedAt(s.workers[0], |programs|);
    assert ticket !in s.finished && ticket < |programs|;
    assert Tickets(|programs|)[ticket] == ticket;
    assert ClientOk(t, t.clients[0]);
    assert t.clients[0].futures[ticket] == ticket;
  }

  lemma {:induction false} FuturesGrow(s: State, steps: seq<Step>)
    requires RunsFrom(s, steps) && |s.clients| > 0
    ensures |After(s, steps).clients| > 0 && s.clients[0].futures <= After(s, steps).clients[0].futures
    decreases |steps|
  {
    if steps != [] {
      FuturesGrow(Apply(s, steps[0]), steps[1..]);
    }
  }

  /** Any call with as many waiting tasks as the pool has workers can hang, whatever its tasks enqueue. */
  lemma {:induction false} WideCallHangs(threads: nat, programs: seq<Program>) returns (steps: seq<Step>)
    requires 0 < threads <= Total(programs, WaitWeight)
    ensures Complete(Called(threads, programs), steps)
    ensures var s := After(Called(threads, programs), steps);
            Deadlocked(s) && |s.clients| > 0 && !ClientDone(s.clients[0])
  {
    hide Inv, Lined, Pushing, Deadlocked, Stuck;
    var start := Called(threads, programs);
    StartsPushing(threads, programs);
    var push := PushAll(start, threads, programs, 0);
    var pushed := After(start, push);
    LinesUp(pushed, threads, programs);
    var block := AllBlock(pushed, programs, 0);
    var blocked := After(pushed, block);
    LinedFacts(blocked, programs);
    WorkersStay(start, push);
    LinedDeadlocks(blocked, programs);
    var rest := SomeScheduleEnds(blocked);
    DeadlockIsForever(blocked, rest);
    RunKeepsInv(blocked, rest);
    ClientRunFrame(blocked, rest, 0);
    FuturesGrow(blocked, rest);
    UnfinishedCall(blocked, programs, After(blocked, rest));
    RunsTogether(pushed, block, rest);
    RunsTogether(start, push, block + rest);
    steps := push + (block + rest);
  }

  lemma LinedFacts(s: State, programs: seq<Program>)
    requires Lined(s, programs, |s.workers|)
    ensures Inv(s) && s.clients == [Client(programs, true, Tickets(|programs|), false, 0)]
  {
  }

  // ----- The exact condition -----

  lemma {:induction false} LoadOfFlat(programs: seq<Program>)
    requires forall i :: 0 <= i < |programs| ==> ChildLoad(programs[i]) == 0
    ensures Total(programs, ProgramLoad) == Total(programs, WaitWeight)
  {
    if programs != [] {
      LoadOfFlat(programs[1..]);
    }
  }

  /**
   Tasks that wait only for tasks that do not wait, as in a parallel loop inside the bodies of a parallel
   loop: the call returns under every schedule if and only if fewer of its tasks wait than there are
   workers, or there is nothing to wait for.
   */
  lemma {:induction false} CallReturnsIff(threads: nat, programs: seq<Program>)
    requires forall i :: 0 <= i < |programs| ==> ChildLoad(programs[i]) == 0
    ensures Returns(Called(threads, programs), 0) <==> Total(programs, WaitWeight) < threads || programs == []
  {
    hide Inv, Load, Complete, Deadlocked;
    var s := Called(threads, programs);
    CalledInv(threads, programs);
    LoadOfFlat(programs);
    if programs == [] {
      EmptyCallReturns(s);
    } else if Total(programs, WaitWeight) < threads {
      LightCallsReturn(s, 0);
    } else if threads == 0 {
      NobodyServes(programs);
    } else {
      var steps := WideCallHangs(threads, programs);
    }
  }
}
