/**
 When calls return and when they hang: a pool without workers serves nobody, and calls nested as deep
 as the pool has workers block all of them. Both conditions are exact.
 */
module PoolHangs {
  import opened Options
  import opened Totals
  import opened PoolModel
  import opened PoolInvariant
  import opened PoolNesting
  import opened PoolProgress

  // ----- Runs -----

  lemma {:induction false} RunsTogether(s: State, first: seq<Step>, second: seq<Step>)
    requires RunsFrom(s, first) && RunsFrom(After(s, first), second)
    ensures RunsFrom(s, first + second)
    ensures After(s, first + second) == After(After(s, first), second)
    decreases |first|
  {
    if first == [] {
      assert first + second == second;
    } else {
      RunsTogether(Apply(s, first[0]), first[1..], second);
      assert (first + second)[1..] == first[1..] + second;
    }
  }

  lemma {:induction false} ThreeSteps(s: State, a: Step, b: Step, c: Step)
    requires Enabled(s, a) && Enabled(Apply(s, a), b) && Enabled(Apply(Apply(s, a), b), c)
    ensures RunsFrom(s, [a, b, c]) && After(s, [a, b, c]) == Apply(Apply(Apply(s, a), b), c)
  {
    OneStep(Apply(Apply(s, a), b), c);
    OneStep(Apply(s, a), b);
    OneStep(s, a);
    RunsTogether(s, [a], [b]);
    RunsTogether(s, [a] + [b], [c]);
    assert [a, b, c] == [a] + [b] + [c];
  }

  lemma OneStep(s: State, a: Step)
    requires Enabled(s, a)
    ensures RunsFrom(s, [a]) && After(s, [a]) == Apply(s, a)
  {
    assert [a][1..] == [];
    assert After(Apply(s, a), [a][1..]) == Apply(s, a);
  }

  ghost predicate AllInternal(steps: seq<Step>) {
    forall k :: 0 <= k < |steps| ==> Internal(steps[k])
  }

  /** A schedule of the pool and its present callers that has come to its end. */
  ghost predicate Complete(s: State, steps: seq<Step>) {
    RunsFrom(s, steps) && AllInternal(steps) && Stuck(After(s, steps))
  }

  /** Every schedule that has come to its end has let client c return. By SchedulesAreBounded all do come to an end. */
  ghost predicate Returns(s: State, c: nat) {
    forall steps :: Complete(s, steps) ==>
      c < |After(s, steps).clients| && ClientDone(After(s, steps).clients[c])
  }

  lemma {:induction false} SomeScheduleEnds(s: State) returns (steps: seq<Step>)
    requires Inv(s)
    ensures Complete(s, steps)
    decreases Measure(s)
  {
    if Stuck(s) {
      steps := [];
    } else {
      var step :| Internal(step) && Enabled(s, step);
      StepKeepsInv(s, step);
      InternalStepDecreases(s, step);
      hide Inv, Apply, Enabled, Measure;
      var more := SomeScheduleEnds(Apply(s, step));
      OneStep(s, step);
      RunsTogether(s, [step], more);
      steps := [step] + more;
    }
  }

  // ----- Calls that return -----

  lemma {:induction false} InternalRunFrame(s: State, steps: seq<Step>)
    requires Inv(s) && RunsFrom(s, steps) && AllInternal(steps)
    ensures var t := After(s, steps);
            && Inv(t) && t.stopping == s.stopping && |t.workers| == |s.workers| && |t.clients| == |s.clients|
            && Load(t) <= Load(s)
    decreases |steps|
  {
    if steps != [] {
      StepKeepsInv(s, steps[0]);
      InternalStepFrame(s, steps[0]);
      LoadAfterStep(s, steps[0]);
      InternalRunFrame(Apply(s, steps[0]), steps[1..]);
    }
  }

  /** With a worker to spare for every task that waits, every caller returns under every schedule. */
  lemma {:induction false} LightCallsReturn(s: State, c: nat)
    requires Inv(s) && !s.stopping && Load(s) < |s.workers| && c < |s.clients|
    ensures Returns(s, c)
  {
    forall steps | Complete(s, steps)
      ensures c < |After(s, steps).clients| && ClientDone(After(s, steps).clients[c])
    {
      InternalRunFrame(s, steps);
      if !ClientDone(After(s, steps).clients[c]) {
        WaitingIsNotStuck(After(s, steps), c);
        assert false;
      }
    }
  }

  /** A thread calls a new pool with these tasks and waits for them. */
  function Called(threads: nat, programs: seq<Program>): State {
    Apply(Initial(threads), Call(programs, true))
  }

  lemma {:induction false} CalledInv(threads: nat, programs: seq<Program>)
    ensures Inv(Called(threads, programs)) && Load(Called(threads, programs)) <= Total(programs, ProgramLoad)
  {
    InitialInv(threads);
    NoLoadInitially(threads);
    StepKeepsInv(Initial(threads), Call(programs, true));
    LoadAfterStep(Initial(threads), Call(programs, true));
  }

  // ----- A pool without workers -----

  lemma {:induction false} ClientStepFrame(s: State, step: Step, c: nat)
    requires Enabled(s, step) && c < |s.clients|
    ensures c < |Apply(s, step).clients|
    ensures Apply(s, step).clients[c].programs == s.clients[c].programs
    ensures Apply(s, step).clients[c].waits == s.clients[c].waits
  {
  }

  lemma {:induction false} ClientRunFrame(s: State, steps: seq<Step>, c: nat)
    requires RunsFrom(s, steps) && c < |s.clients|
    ensures c < |After(s, steps).clients|
    ensures After(s, steps).clients[c].programs == s.clients[c].programs
    ensures After(s, steps).clients[c].waits == s.clients[c].waits
    decreases |steps|
  {
    if steps != [] {
      ClientStepFrame(s, steps[0], c);
      ClientRunFrame(Apply(s, steps[0]), steps[1..], c);
    }
  }

  /** Without workers nothing that is pushed ever runs, and nobody who waits for anything returns, in any run. */
  lemma {:induction false} NoWorkersNoReturn(steps: seq<Step>)
    requires RunsFrom(Initial(0), steps)
    ensures var s := After(Initial(0), steps);
            && s.workers == [] && s.finished == {}
            && forall c :: 0 <= c < |s.clients| && s.clients[c].waits && s.clients[c].programs != [] ==>
                 !ClientDone(s.clients[c])
  {
    InitialInv(0);
    LatePushesAreLost(Initial(0), steps);
    RunKeepsInv(Initial(0), steps);
    WorkersStay(Initial(0), steps);
    var s := After(Initial(0), steps);
    forall c | 0 <= c < |s.clients| && s.clients[c].waits && s.clients[c].programs != []
      ensures !ClientDone(s.clients[c])
    {
      if s.clients[c].got > 0 {
        GotMeansFinished(s, c);
        assert false;
      }
    }
  }

  lemma GotMeansFinished(s: State, c: nat)
    requires Inv(s) && c < |s.clients| && s.clients[c].got > 0
    ensures s.finished != {}
  {
    assert ClientOk(s, s.clients[c]);
    assert s.clients[c].futures[0] in s.finished;
  }

  lemma {:induction false} WorkersStay(s: State, steps: seq<Step>)
    requires RunsFrom(s, steps)
    ensures |After(s, steps).workers| == |s.workers|
    decreases |steps|
  {
    if steps != [] {
      SameThreads(s, steps[0]);
      WorkersStay(Apply(s, steps[0]), steps[1..]);
    }
  }

  /** A call of fewer waiting tasks than workers returns, and without workers none does that waits for anything. */
  lemma {:induction false} LightCallReturnsIff(threads: nat, programs: seq<Program>)
    requires threads > 0 ==> Total(programs, ProgramLoad) < threads
    ensures Returns(Called(threads, programs), 0) <==> threads > 0 || programs == []
  {
    hide Inv, Load, Returns;
    var s := Called(threads, programs);
    CalledInv(threads, programs);
    if threads > 0 {
      LightCallsReturn(s, 0);
    } else if programs == [] {
      EmptyCallReturns(s);
    } else {
      NobodyServes(programs);
    }
  }

  lemma {:induction false} NobodyServes(programs: seq<Program>)
    requires programs != []
    ensures !Returns(Called(0, programs), 0)
  {
    var s := Called(0, programs);
    CalledInv(0, programs);
    var steps := SomeScheduleEnds(s);
    OneStep(Initial(0), Call(programs, true));
    RunsTogether(Initial(0), [Call(programs, true)], steps);
    NoWorkersNoReturn([Call(programs, true)] + steps);
    ClientRunFrame(s, steps, 0);
  }

  lemma {:induction false} EmptyCallReturns(s: State)
    requires |s.clients| > 0 && s.clients[0].programs == [] && s.clients[0].futures == []
    requires !s.clients[0].owes && s.clients[0].got == 0
    ensures Returns(s, 0)
  {
    forall steps | Complete(s, steps)
      ensures 0 < |After(s, steps).clients| && ClientDone(After(s, steps).clients[0])
    {
      EmptyCallIsDone(s, steps);
    }
  }

  lemma {:induction false} EmptyCallIsDone(s: State, steps: seq<Step>)
    requires |s.clients| > 0 && RunsFrom(s, steps)
    requires s.clients[0].programs == [] && s.clients[0].futures == [] && !s.clients[0].owes && s.clients[0].got == 0
    ensures |After(s, steps).clients| > 0 && ClientDone(After(s, steps).clients[0])
    decreases |steps|
  {
    if steps != [] {
      EmptyCallIsDone(Apply(s, steps[0]), steps[1..]);
    }
  }

  // ----- Nested calls -----

  /** A task that enqueues a task of its own kind and waits for it, `depth` levels deep. */
  function Nested(depth: nat): Program {
    if depth == 0 then Done else Submit(Nested(depth - 1), true, Await(Done))
  }

  lemma {:induction false} NestedLoad(depth: nat)
    ensures ProgramLoad(Nested(depth)) == depth
  {
    if depth > 0 {
      NestedLoad(depth - 1);
      assert WillWait(Await(Done), 1) && ChildLoad(Await(Done)) == ChildLoad(Done) == 0;
      assert ChildLoad(Nested(depth)) == ProgramLoad(Nested(depth - 1)) + ChildLoad(Await(Done));
    }
  }

  /** The first k workers run the first k levels, each blocked on the next level, which is queued. */
  function Blocked(threads: nat, depth: nat, k: nat): State
    requires k <= depth && k <= threads
  {
    State([Job(k, Nested(depth - k))], false, false,
          seq(threads, i requires 0 <= i => if i < k then Running(Job(i, Await(Done)), false, [i + 1]) else Checking),
          [Client([Nested(depth)], true, [0], false, 0)],
          seq(k + 1, i requires 0 <= i <= k => Nested(depth - i)),
          {}, [], if threads == 0 then Some(0) else None)
  }

  /** The outermost task is queued, and its caller is about to notify. */
  function Starting(threads: nat, depth: nat): State {
    State([Job(0, Nested(depth))], false, false, seq(threads, _ => Checking),
          [Client([Nested(depth)], true, [0], true, 0)], [Nested(depth)], {}, [],
          if threads == 0 then Some(0) else None)
  }

  lemma {:induction false} NestedCallPushes(threads: nat, depth: nat)
    ensures Enabled(Called(threads, [Nested(depth)]), Proceed(0, 0))
    ensures Apply(Called(threads, [Nested(depth)]), Proceed(0, 0)) == Starting(threads, depth)
  {
    hide Nested;
    var s := Called(threads, [Nested(depth)]);
    assert s.clients == [Client([Nested(depth)], true, [], false, 0)];
    var t := Apply(s, Proceed(0, 0));
    assert t.queue == [Job(0, Nested(depth))] && t.pushed == [Nested(depth)];
    assert s.clients[0].futures + [0] == [0];
    assert t.clients == [Client([Nested(depth)], true, [0], true, 0)];
  }

  lemma {:induction false} NestedCallNotifies(threads: nat, depth: nat)
    ensures Enabled(Starting(threads, depth), Proceed(0, 0))
    ensures Apply(Starting(threads, depth), Proceed(0, 0)) == Blocked(threads, depth, 0)
  {
    hide Nested;
    var t := Starting(threads, depth);
    assert NotifyPicks(t.workers, 0);
    var u, goal := Apply(t, Proceed(0, 0)), Blocked(threads, depth, 0);
    assert u.clients == goal.clients && u.workers == goal.workers && u.pushed == goal.pushed;
  }

  lemma {:induction false} NestedCallStarts(threads: nat, depth: nat)
    ensures RunsFrom(Called(threads, [Nested(depth)]), [Proceed(0, 0), Proceed(0, 0)])
    ensures After(Called(threads, [Nested(depth)]), [Proceed(0, 0), Proceed(0, 0)]) == Blocked(threads, depth, 0)
  {
    hide Called, Starting, Blocked, Apply, Enabled;
    var s := Called(threads, [Nested(depth)]);
    NestedCallPushes(threads, depth);
    NestedCallNotifies(threads, depth);
    OneStep(s, Proceed(0, 0));
    OneStep(Starting(threads, depth), Proceed(0, 0));
    RunsTogether(s, [Proceed(0, 0)], [Proceed(0, 0)]);
    assert [Proceed(0, 0), Proceed(0, 0)] == [Proceed(0, 0)] + [Proceed(0, 0)];
  }

  /** The next worker takes the next level, enqueues the one after it, and blocks. */
  lemma {:induction false} NextWorkerBlocks(threads: nat, depth: nat, k: nat)
    requires k < depth && k < threads
    ensures RunsFrom(Blocked(threads, depth, k), [Look(k), Advance(k, 0), Advance(k, 0)])
    ensures After(Blocked(threads, depth, k), [Look(k), Advance(k, 0), Advance(k, 0)]) == Blocked(threads, depth, k + 1)
  {
    NextWorkerSteps(threads, depth, k);
    hide Blocked, Apply, Enabled;
    ThreeSteps(Blocked(threads, depth, k), Look(k), Advance(k, 0), Advance(k, 0));
  }

  lemma {:induction false} NextWorkerSteps(threads: nat, depth: nat, k: nat)
    requires k < depth && k < threads
    ensures var s := Blocked(threads, depth, k);
            && Enabled(s, Look(k)) && Enabled(Apply(s, Look(k)), Advance(k, 0))
            && Enabled(Apply(Apply(s, Look(k)), Advance(k, 0)), Advance(k, 0))
            && Apply(Apply(Apply(s, Look(k)), Advance(k, 0)), Advance(k, 0)) == Blocked(threads, depth, k + 1)
  {
    var s := Blocked(threads, depth, k);
    var t := Apply(s, Look(k));
    assert t.workers[k] == Running(Job(k, Nested(depth - k)), false, []) && t.queue == [];
    var u := Apply(t, Advance(k, 0));
    assert u.workers[k] == Running(Job(k, Await(Done)), true, [k + 1]);
    assert NotifyPicks(u.workers, 0);
    var v := Apply(u, Advance(k, 0));
    var goal := Blocked(threads, depth, k + 1);
    assert v.workers == goal.workers && v.pushed == goal.pushed && v.queue == goal.queue;
  }

  lemma {:induction false} WorkersBlockInTurn(threads: nat, depth: nat, k: nat) returns (steps: seq<Step>)
    requires k <= depth && k <= threads
    ensures RunsFrom(Called(threads, [Nested(depth)]), steps) && AllInternal(steps)
    ensures After(Called(threads, [Nested(depth)]), steps) == Blocked(threads, depth, k)
  {
    if k == 0 {
      NestedCallStarts(threads, depth);
      steps := [Proceed(0, 0), Proceed(0, 0)];
    } else {
      var before := WorkersBlockInTurn(threads, depth, k - 1);
      NextWorkerBlocks(threads, depth, k - 1);
      var next := [Look(k - 1), Advance(k - 1, 0), Advance(k - 1, 0)];
      RunsTogether(Called(threads, [Nested(depth)]), before, next);
      steps := before + next;
    }
  }

  /** A call nested n levels deep reaches a deadlock in a pool of n workers, for every n: the bound is sharp. */
  lemma {:induction false} NestedCallDeadlocks(threads: nat, depth: nat) returns (steps: seq<Step>)
    requires 0 < threads <= depth
    ensures RunsFrom(Called(threads, [Nested(depth)]), steps) && AllInternal(steps)
    ensures After(Called(threads, [Nested(depth)]), steps) == Blocked(threads, depth, threads)
    ensures Deadlocked(Blocked(threads, depth, threads)) && Stuck(Blocked(threads, depth, threads))
    ensures !ClientDone(Blocked(threads, depth, threads).clients[0])
  {
    steps := WorkersBlockInTurn(threads, depth, threads);
    var s := Blocked(threads, depth, threads);
    assert forall w :: 0 <= w < threads ==> Awaiting(s, w);
    assert !s.workers[0].Exited?;
    forall step | Internal(step)
      ensures !Enabled(s, step)
    {
      match step
      case Look(w) =>
      case Advance(w, _) => assert w < threads ==> Awaiting(s, w);
      case Proceed(c, _) =>
      case WakeAll =>
    }
  }

  lemma {:induction false} DeepCallHangs(threads: nat, depth: nat)
    requires threads <= depth
    ensures !Returns(Called(threads, [Nested(depth)]), 0)
  {
    hide Blocked;
    if threads == 0 {
      NobodyServes([Nested(depth)]);
    } else {
      var steps := NestedCallDeadlocks(threads, depth);
      assert Complete(Called(threads, [Nested(depth)]), steps);
    }
  }

  /** A call nested `depth` levels deep returns under every schedule if and only if the pool has more workers. */
  lemma {:induction false} NestedCallReturnsIff(threads: nat, depth: nat)
    ensures Returns(Called(threads, [Nested(depth)]), 0) <==> depth < threads
  {
    hide Inv, Load, Returns, Called;
    var programs := [Nested(depth)];
    if depth < threads {
      CalledInv(threads, programs);
      CalledFacts(threads, programs);
      NestedLoad(depth);
      assert programs[1..] == [];
      assert Total(programs, ProgramLoad) == depth;
      LightCallsReturn(Called(threads, programs), 0);
    } else {
      DeepCallHangs(threads, depth);
    }
  }

  lemma CalledFacts(threads: nat, programs: seq<Program>)
    ensures var s := Called(threads, programs);
            !s.stopping && |s.workers| == threads && |s.clients| == 1
  {
  }
}
