/**
 When stop() returns: exactly if no task ever gets a future that it keeps. Otherwise one worker can be
 left with such a task while all others leave because the queue is empty, or block themselves.
 */
module PoolStop {
  import opened Totals
  import opened PoolModel
  import opened PoolInvariant
  import opened PoolNesting
  import opened PoolProgress
  import opened PoolHangs
  import opened PoolBodies
  import opened PoolWidth
  import opened PoolFairness

  /** A schedule of the pool and its present callers in which the pool is stopped, and that has come to its end. */
  ghost predicate StoppedSchedule(s: State, steps: seq<Step>) {
    && RunsFrom(s, steps) && (forall k :: 0 <= k < |steps| ==> Internal(steps[k]) || steps[k].BeginStop?)
    && After(s, steps).stopping && Stuck(After(s, steps))
  }

  /** Every such schedule has let stop() return: all its joins have. */
  ghost predicate StopReturns(s: State) {
    forall steps :: StoppedSchedule(s, steps) ==> AllExited(After(s, steps).workers)
  }

  // ----- It returns if nobody waits -----

  lemma {:induction false} LoadlessRun(s: State, steps: seq<Step>)
    requires Inv(s) && Load(s) == 0 && RunsFrom(s, steps)
    requires forall k :: 0 <= k < |steps| ==> Internal(steps[k]) || steps[k].BeginStop?
    ensures Inv(After(s, steps)) && Load(After(s, steps)) == 0
    decreases |steps|
  {
    if steps != [] {
      assert Internal(steps[0]) || steps[0].BeginStop?;
      StepKeepsInv(s, steps[0]);
      LoadAfterStep(s, steps[0]);
      LoadlessRun(Apply(s, steps[0]), steps[1..]);
    }
  }

  lemma {:induction false} LoadlessStopReturns(s: State)
    requires Inv(s) && Load(s) == 0
    ensures StopReturns(s)
  {
    forall steps | StoppedSchedule(s, steps)
      ensures AllExited(After(s, steps).workers)
    {
      LoadlessRun(s, steps);
      if !AllExited(After(s, steps).workers) {
        StoppingIsNotStuck(After(s, steps));
        assert false;
      }
    }
  }

  // ----- A worker comes to hold a waiting task -----

  /** Everything is pushed, nobody is about to act but the workers, and no worker has a task. */
  ghost predicate Queued(s: State) {
    && Inv(s) && !s.stopping && s.workers != []
    && (forall w :: 0 <= w < |s.workers| ==> s.workers[w].Checking?)
    && Total(s.clients, ClientLoad) == 0 && Load(s) > 0
  }

  /** Worker w has just taken a task that waits. */
  ghost predicate Holds(s: State, w: nat) {
    && w < |s.workers| && s.workers[w].Running? && !s.workers[w].owes && s.workers[w].kept == []
    && WillWait(s.workers[w].job.program, 0)
  }

  lemma {:induction false} QueuedTakes(s: State)
    requires Queued(s)
    ensures s.queue != [] && Enabled(s, Look(0))
    ensures var t := Apply(s, Look(0));
            && Inv(t) && !t.stopping && Sleeping !in t.workers && Load(t) == Load(s) && t.clients == s.clients
            && t.workers == s.workers[0 := Running(s.queue[0], false, [])]
  {
    IdleWorkersLoad(s.workers);
    StepKeepsInv(s, Look(0));
    var t := Apply(s, Look(0));
    TotalUpdate(s.workers, 0, t.workers[0], WorkerLoad);
    assert forall w :: 0 <= w < |s.workers| ==> !t.workers[w].Sleeping?;
  }

  lemma {:induction false} QueuedAgain(s: State, t: State, u: State)
    requires Queued(s) && s.queue != [] && t.workers == s.workers[0 := Running(s.queue[0], false, [])]
    requires t.clients == s.clients && !t.stopping && Load(t) == Load(s)
    requires RanBody(t, u, 0) && !WillWait(s.queue[0].program, 0)
    ensures Queued(u)
  {
    hide Inv, Load;
  }

  lemma {:induction false} SomebodyHolds(s: State) returns (steps: seq<Step>)
    requires Queued(s)
    ensures RunsFrom(s, steps) && AllInternal(steps)
    ensures var t := After(s, steps); Inv(t) && !t.stopping && Holds(t, 0)
    decreases Measure(s)
  {
    hide Inv, Queued, Apply, Enabled, Measure, RanBody;
    QueuedTakes(s);
    QueuedInv(s);
    var t := Apply(s, Look(0));
    OneStep(s, Look(0));
    InternalStepDecreases(s, Look(0));
    if WillWait(s.queue[0].program, 0) {
      steps := [Look(0)];
    } else {
      var body := RunBody(t, 0);
      SchedulesAreBounded(t, body);
      QueuedAgain(s, t, After(t, body));
      var more := SomebodyHolds(After(t, body));
      RunsTogether(t, body, more);
      RunsTogether(s, [Look(0)], body + more);
      steps := [Look(0)] + (body + more);
    }
  }

  lemma QueuedInv(s: State)
    requires Queued(s)
    ensures Inv(s) && s.workers != []
  {
  }

  // ----- The others leave, or block -----

  /** Nobody but worker w can move. */
  ghost predicate OnlyOneMoves(s: State, w: nat) {
    forall step :: Internal(step) && !StepOfWorker(step, w) ==> !Enabled(s, step)
  }

  lemma NoSteps(s: State)
    ensures RunsFrom(s, []) && After(s, []) == s
  {
  }

  lemma {:induction false} OthersStep(s: State, w: nat, step: Step)
    requires Inv(s) && s.stopping && Holds(s, w) && Internal(step) && !StepOfWorker(step, w) && Enabled(s, step)
    ensures var t := Apply(s, step); Inv(t) && t.stopping && Holds(t, w) && Measure(t) < Measure(s)
  {
    hide Inv, Measure;
    StepKeepsInv(s, step);
    InternalStepDecreases(s, step);
    InternalStepFrame(s, step);
    OthersLeaveRunning(s, w, step);
  }

  lemma SomebodyElse(s: State, w: nat) returns (step: Step)
    requires !OnlyOneMoves(s, w)
    ensures Internal(step) && !StepOfWorker(step, w) && Enabled(s, step)
  {
    step :| Internal(step) && !StepOfWorker(step, w) && Enabled(s, step);
  }

  lemma {:induction false} OthersFinish(s: State, w: nat) returns (steps: seq<Step>)
    requires Inv(s) && s.stopping && Holds(s, w)
    ensures RunsFrom(s, steps) && AllInternal(steps)
    ensures var t := After(s, steps); Inv(t) && t.stopping && Holds(t, w) && OnlyOneMoves(t, w)
    decreases Measure(s)
  {
    hide Inv, Measure, Apply, Enabled, RunsFrom, After, Holds, OnlyOneMoves;
    if OnlyOneMoves(s, w) {
      NoSteps(s);
      steps := [];
    } else {
      var step := SomebodyElse(s, w);
      OthersStep(s, w, step);
      var more := OthersFinish(Apply(s, step), w);
      OneStep(s, step);
      RunsTogether(s, [step], more);
      steps := [step] + more;
    }
  }

  lemma {:induction false} OthersAreGone(s: State, w: nat)
    requires Inv(s) && s.stopping && Holds(s, w) && OnlyOneMoves(s, w)
    ensures forall v :: 0 <= v < |s.workers| && v != w ==> s.workers[v].Exited? || Awaiting(s, v)
    ensures Sleeping !in s.workers
  {
    assert !Enabled(s, WakeAll);
    var woken := SomebodyToNotify(s.workers);
    forall v | 0 <= v < |s.workers| && v != w
      ensures s.workers[v].Exited? || Awaiting(s, v)
    {
      assert !Enabled(s, Look(v)) && !Enabled(s, Advance(v, woken));
      assert s.workers[v].Sleeping? ==> Sleeping in s.workers;
    }
  }

  /** Then the task that waits blocks its worker, too. */
  lemma {:induction false} LastOneBlocks(s: State, t: State, w: nat)
    requires Inv(s) && Holds(s, w) && RanBody(s, t, w)
    requires forall v :: 0 <= v < |s.workers| && v != w ==> s.workers[v].Exited? || Awaiting(s, v)
    ensures Deadlocked(t)
  {
    assert t.workers[w].kept[0] >= |s.pushed|;
    assert Awaiting(t, w);
    forall v | 0 <= v < |t.workers| && v != w
      ensures t.workers[v].Exited? || Awaiting(t, v)
    {
      assert t.workers[v] == s.workers[v];
    }
  }

  lemma {:induction false} HolderHangs(s: State, w: nat) returns (steps: seq<Step>)
    requires Inv(s) && !s.stopping && Holds(s, w)
    ensures RunsFrom(s, [BeginStop] + steps) && AllInternal(steps)
    ensures var t := After(s, [BeginStop] + steps);
            t.stopping && Stuck(t) && Deadlocked(t) && !AllExited(t.workers)
  {
    hide Inv, Stuck, OnlyOneMoves, RanBody, Deadlocked;
    StepKeepsInv(s, BeginStop);
    var stopped := Apply(s, BeginStop);
    OneStep(s, BeginStop);
    var others := OthersFinish(stopped, w);
    var alone := After(stopped, others);
    OthersAreGone(alone, w);
    var body := RunBody(alone, w);
    var blocked := After(alone, body);
    LastOneBlocks(alone, blocked, w);
    InternalRunFrame(alone, body);
    var rest := SomeScheduleEnds(blocked);
    DeadlockIsForever(blocked, rest);
    InternalRunFrame(blocked, rest);
    DeadlockMeansNotExited(After(blocked, rest));
    RunsTogether(alone, body, rest);
    RunsTogether(stopped, others, body + rest);
    steps := others + (body + rest);
    RunsTogether(s, [BeginStop], steps);
  }

  lemma DeadlockMeansNotExited(s: State)
    requires Deadlocked(s)
    ensures !AllExited(s.workers)
  {
  }

  // ----- The exact condition -----

  lemma {:induction false} QueueLoad(queue: seq<Job>, programs: seq<Program>)
    requires |queue| == |programs| && forall i :: 0 <= i < |queue| ==> queue[i].program == programs[i]
    ensures Total(queue, JobLoad) == Total(programs, ProgramLoad)
  {
    if queue != [] {
      QueueLoad(queue[1..], programs[1..]);
    }
  }

  lemma {:induction false} PushedIsQueued(s: State, threads: nat, programs: seq<Program>)
    requires Pushing(s, threads, programs, |programs|) && threads > 0 && Total(programs, ProgramLoad) > 0
    ensures Queued(s)
  {
    assert programs[..|programs|] == programs;
    QueueLoad(s.queue, programs);
    IdleWorkersLoad(s.workers);
    assert programs[|Tickets(|programs|)|..] == [];
    assert Total(s.clients, ClientLoad) == ClientLoad(s.clients[0]) + Total(s.clients[1..], ClientLoad);
    assert s.clients[1..] == [];
  }

  /** A schedule in which stop() never returns, for any call in which some task waits. */
  lemma {:induction false} StopCanHang(threads: nat, programs: seq<Program>) returns (steps: seq<Step>)
    requires threads > 0 && Total(programs, ProgramLoad) > 0
    ensures StoppedSchedule(Called(threads, programs), steps)
    ensures !AllExited(After(Called(threads, programs), steps).workers)
  {
    hide Inv, Pushing, Queued, Stuck, Deadlocked, Holds;
    var start := Called(threads, programs);
    StartsPushing(threads, programs);
    var push := PushAll(start, threads, programs, 0);
    var pushed := After(start, push);
    PushedIsQueued(pushed, threads, programs);
    var take := SomebodyHolds(pushed);
    var held := After(pushed, take);
    var hang := HolderHangs(held, 0);
    RunsTogether(pushed, take, [BeginStop] + hang);
    RunsTogether(start, push, take + ([BeginStop] + hang));
    steps := push + (take + ([BeginStop] + hang));
  }


  /**
   stop() returns under every schedule, whenever it is called, if and only if the pool has no workers or
   no task of the call, and no task that these enqueue, ever gets a future that it keeps.
   */
  lemma {:induction false} StopReturnsIff(threads: nat, programs: seq<Program>)
    ensures StopReturns(Called(threads, programs)) <==> threads == 0 || Total(programs, ProgramLoad) == 0
  {
    hide Inv, Load, StoppedSchedule, AllExited;
    var s := Called(threads, programs);
    CalledInv(threads, programs);
    if threads == 0 {
      NobodyToJoin(programs);
    } else if Total(programs, ProgramLoad) == 0 {
      LoadlessStopReturns(s);
    } else {
      var steps := StopCanHang(threads, programs);
    }
  }

  lemma {:induction false} NobodyToJoin(programs: seq<Program>)
    ensures StopReturns(Called(0, programs))
  {
    var s := Called(0, programs);
    forall steps | StoppedSchedule(s, steps)
      ensures AllExited(After(s, steps).workers)
    {
      WorkersStay(s, steps);
    }
  }
}
