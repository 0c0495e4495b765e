/**
 Calls return in bounded time in every fair run, however many new calls, later pushes and spurious
 wake-ups it contains: if every thread that could move all the time moves at least once in every n
 steps, a caller has its results after a number of steps given by n and the work that is due.
 */
module PoolFairRuns {
  import opened Totals
  import opened PoolModel
  import opened PoolInvariant
  import opened PoolFairness

  // ----- Fair runs -----

  /** steps lead from states[0] through all the others. */
  ghost predicate IsRun(states: seq<State>, steps: seq<Step>) {
    && |states| == |steps| + 1
    && forall i :: 0 <= i < |steps| ==> Enabled(states[i], steps[i]) && states[i + 1] == Apply(states[i], steps[i])
  }

  /** The states along a run. */
  function Trace(s: State, steps: seq<Step>): (states: seq<State>)
    requires RunsFrom(s, steps)
    ensures |states| == |steps| + 1 && states[0] == s
    decreases |steps|
  {
    if steps == [] then [s] else [s] + Trace(Apply(s, steps[0]), steps[1..])
  }

  lemma {:induction false} TraceIsRun(s: State, steps: seq<Step>)
    requires RunsFrom(s, steps)
    ensures IsRun(Trace(s, steps), steps) && Trace(s, steps)[|steps|] == After(s, steps)
    decreases |steps|
  {
    if steps != [] {
      TraceIsRun(Apply(s, steps[0]), steps[1..]);
      var rest := Trace(Apply(s, steps[0]), steps[1..]);
      forall i | 0 <= i < |steps|
        ensures Enabled(Trace(s, steps)[i], steps[i])
        ensures Trace(s, steps)[i + 1] == Apply(Trace(s, steps)[i], steps[i])
      {
        if i > 0 {
          assert Trace(s, steps)[i] == rest[i - 1] && steps[i] == steps[1..][i - 1];
        }
      }
    }
  }

  datatype Thread = WorkerThread(w: nat) | ClientThread(c: nat)

  predicate Moves(step: Step, t: Thread) {
    match t
    case WorkerThread(w) => StepOfWorker(step, w)
    case ClientThread(c) => step.Proceed? && step.c == c
  }

  predicate CanMove(s: State, t: Thread) {
    match t
    case WorkerThread(w) =>
      w < |s.workers| && (s.workers[w].Checking? || (s.workers[w].Running? && !Awaiting(s, w)))
    case ClientThread(c) => c < |s.clients| && ClientCanProceed(s, s.clients[c])
  }

  ghost predicate MovesWithin(steps: seq<Step>, t: Thread, i: nat, n: nat)
    requires i + n <= |steps|
  {
    exists j :: i <= j < i + n && Moves(steps[j], t)
  }

  /** Whoever can move in n successive states moves in one of the steps between them. */
  ghost predicate Fair(states: seq<State>, steps: seq<Step>, n: nat)
    requires |states| == |steps| + 1
  {
    forall i: nat, t :: i + n <= |steps| && (forall j :: i <= j < i + n ==> CanMove(states[j], t)) ==>
      MovesWithin(steps, t, i, n)
  }

  lemma FairMove(states: seq<State>, steps: seq<Step>, n: nat, t: Thread, i: nat) returns (m: nat)
    requires |states| == |steps| + 1 && Fair(states, steps, n) && i + n <= |steps|
    requires forall j :: i <= j < i + n ==> CanMove(states[j], t)
    ensures i <= m < i + n && Moves(steps[m], t)
  {
    assert MovesWithin(steps, t, i, n);
    m :| i <= m < i + n && Moves(steps[m], t);
  }

  // ----- What holds along a run -----

  lemma StepAt(states: seq<State>, steps: seq<Step>, i: nat)
    requires IsRun(states, steps) && i < |steps|
    ensures |states| == |steps| + 1 && Enabled(states[i], steps[i]) && states[i + 1] == Apply(states[i], steps[i])
  {
  }

  lemma RunLength(states: seq<State>, steps: seq<Step>)
    requires IsRun(states, steps)
    ensures |states| == |steps| + 1
  {
  }

  lemma {:induction false} AlongRun(states: seq<State>, steps: seq<Step>, due: nat, i: nat)
    requires IsRun(states, steps) && i <= |steps| && Inv(states[0])
    requires due <= |states[0].pushed| && DueNeverBlocks(states[0], due)
    ensures Inv(states[i]) && due <= |states[i].pushed| && DueNeverBlocks(states[i], due)
    ensures |states[i].workers| == |states[0].workers|
  {
    hide Inv, Apply, Enabled, DueNeverBlocks, IsRun;
    RunLength(states, steps);
    if i > 0 {
      AlongRun(states, steps, due, i - 1);
      StepAt(states, steps, i - 1);
      StepKeepsInv(states[i - 1], steps[i - 1]);
      DueNeverGrows(states[i - 1], steps[i - 1], due);
      DueNeverBlocksStep(states[i - 1], steps[i - 1], due);
      SameThreads(states[i - 1], steps[i - 1]);
    }
  }

  lemma {:induction false} DueAlongRun(states: seq<State>, steps: seq<Step>, due: nat, i: nat, j: nat)
    requires IsRun(states, steps) && i <= j <= |steps| && Inv(states[0])
    requires due <= |states[0].pushed| && DueNeverBlocks(states[0], due)
    ensures Due(states[j], due) <= Due(states[i], due)
    decreases j
  {
    hide Inv, Apply, Enabled, DueNeverBlocks, IsRun, Due;
    RunLength(states, steps);
    if i < j {
      DueAlongRun(states, steps, due, i, j - 1);
      AlongRun(states, steps, due, j - 1);
      StepAt(states, steps, j - 1);
      DueNeverGrows(states[j - 1], steps[j - 1], due);
    }
  }

  lemma {:induction false} NeverStopped(states: seq<State>, steps: seq<Step>, i: nat)
    requires IsRun(states, steps) && i <= |steps| && !states[|steps|].stopping
    ensures !states[i].stopping
    decreases |steps| - i
  {
    if i < |steps| {
      NeverStopped(states, steps, i + 1);
      assert Enabled(states[i], steps[i]) && states[i + 1] == Apply(states[i], steps[i]);
    }
  }

  // ----- A worker that can lower the due work does -----

  /** Worker w's next step works on what is due. */
  predicate Useful(s: State, w: nat, due: nat) {
    w < |s.workers| &&
    ((s.workers[w].Checking? && s.queue != [] && s.queue[0].ticket < due) ||
     (s.workers[w].Running? && !Awaiting(s, w) && s.workers[w].job.ticket < due))
  }

  lemma {:induction false} UsefulStep(s: State, w: nat, step: Step, due: nat)
    requires Useful(s, w, due) && Enabled(s, step) && StepOfWorker(step, w)
    ensures Works(s, step, due)
  {
  }

  lemma {:induction false} UsefulStays(s: State, w: nat, step: Step, due: nat)
    requires Inv(s) && Useful(s, w, due) && Enabled(s, step) && !StepOfWorker(step, w)
    ensures Works(s, step, due) || Useful(Apply(s, step), w, due)
  {
    if s.workers[w].Running? {
      hide Inv, Apply;
      OthersLeaveRunning(s, w, step);
    } else {
      LookStays(s, w, step, due);
    }
  }

  lemma {:induction false} LowersOrStays(states: seq<State>, steps: seq<Step>, due: nat, i: nat, j: nat, w: nat)
    requires IsRun(states, steps) && i <= j <= |steps| && Inv(states[0])
    requires due <= |states[0].pushed| && DueNeverBlocks(states[0], due) && Useful(states[i], w, due)
    ensures Due(states[j], due) < Due(states[i], due) ||
            (Useful(states[j], w, due) && forall m :: i <= m < j ==> !StepOfWorker(steps[m], w))
    decreases j
  {
    hide Inv, Apply, Enabled, Due, Useful, DueNeverBlocks, StepOfWorker, IsRun, Works;
    RunLength(states, steps);
    if i < j {
      LowersOrStays(states, steps, due, i, j - 1, w);
      AlongRun(states, steps, due, j - 1);
      StepAt(states, steps, j - 1);
      var s, step := states[j - 1], steps[j - 1];
      DueAlongRun(states, steps, due, i, j - 1);
      DueNeverGrows(s, step, due);
      if Useful(s, w, due) {
        if StepOfWorker(step, w) {
          UsefulStep(s, w, step, due);
        } else {
          UsefulStays(s, w, step, due);
        }
      }
    }
  }

  lemma UsefulCanMove(s: State, w: nat, due: nat)
    requires Useful(s, w, due)
    ensures CanMove(s, WorkerThread(w))
  {
  }

  lemma {:induction false} WorkerLowers(states: seq<State>, steps: seq<Step>, n: nat, due: nat, i: nat, w: nat)
    requires IsRun(states, steps) && i + n <= |steps| && Inv(states[0]) && Fair(states, steps, n)
    requires due <= |states[0].pushed| && DueNeverBlocks(states[0], due) && Useful(states[i], w, due)
    ensures Due(states[i + n], due) < Due(states[i], due)
  {
    hide Inv, Due, Useful, DueNeverBlocks, IsRun, CanMove, Fair, MovesWithin;
    RunLength(states, steps);
    LowersOrStays(states, steps, due, i, i + n, w);
    if Due(states[i + n], due) >= Due(states[i], due) {
      forall j | i <= j < i + n
        ensures CanMove(states[j], WorkerThread(w))
      {
        LowersOrStays(states, steps, due, i, j, w);
        DueAlongRun(states, steps, due, j, i + n);
        UsefulCanMove(states[j], w, due);
      }
      var m := FairMove(states, steps, n, WorkerThread(w), i);
      assert false;
    }
  }

  // ----- A client that owes a notification wakes such a worker -----

  /** Client c is about to notify, somebody sleeps, and what is queued first is due. */
  ghost predicate Wakes(s: State, c: nat, due: nat) {
    && c < |s.clients| && s.clients[c].owes && s.queue != [] && s.queue[0].ticket < due
  }

  /** While something is due in a pool that runs, some worker is useful, or a client is about to wake one. */
  lemma {:induction false} UsefulOrWakes(s: State, due: nat)
    requires Inv(s) && DueNeverBlocks(s, due) && Due(s, due) > 0 && !s.stopping && s.workers != []
    ensures (exists w :: Useful(s, w, due)) || exists c :: Wakes(s, c, due)
  {
    DueWitness(s, due);
    if w :| 0 <= w < |s.workers| && s.workers[w].Running? && s.workers[w].job.ticket < due {
      NotBlocked(s, due, w);
      assert Useful(s, w, due);
    } else {
      var k :| 0 <= k < |s.queue| && s.queue[k].ticket < due;
      DueComesFirst(s, due, k);
      QueuedUsefulOrWakes(s, due);
    }
  }

  lemma NotBlocked(s: State, due: nat, w: nat)
    requires DueNeverBlocks(s, due) && w < |s.workers| && s.workers[w].Running? && s.workers[w].job.ticket < due
    ensures !Awaiting(s, w)
  {
  }

  lemma {:induction false} QueuedUsefulOrWakes(s: State, due: nat)
    requires Inv(s) && DueNeverBlocks(s, due) && s.queue != [] && s.queue[0].ticket < due
    requires !s.stopping && s.workers != []
    ensures (exists w :: Useful(s, w, due)) || exists c :: Wakes(s, c, due)
  {
    assert s.workers[0].Exited? ==> Exited in s.workers;
    if s.workers[0].Checking? {
      assert Useful(s, 0, due);
    } else if s.workers[0].Running? {
      RunningBeforeQueued(s, due, 0);
      NotBlocked(s, due, 0);
      assert Useful(s, 0, due);
    } else {
      assert s.workers[0] == Sleeping && Sleeping in s.workers;
      if Total(s.workers, LooksWeight) > 0 {
        var v := TotalWitness(s.workers, LooksWeight);
        assert Useful(s, v, due);
      } else if Total(s.workers, OwesWeight) > 0 {
        var v := TotalWitness(s.workers, OwesWeight);
        RunningBeforeQueued(s, due, v);
        NotBlocked(s, due, v);
        assert Useful(s, v, due);
      } else {
        var c := TotalWitness(s.clients, ClientOwesWeight);
        assert Wakes(s, c, due);
      }
    }
  }

  /** A client goes on owing until it notifies, and its notification makes a worker useful. */
  lemma {:induction false} WakesStays(s: State, c: nat, step: Step, due: nat)
    requires Inv(s) && DueNeverBlocks(s, due) && Wakes(s, c, due) && Enabled(s, step)
    requires !s.stopping && s.workers != []
    ensures Works(s, step, due) || (exists w :: Useful(Apply(s, step), w, due)) || (exists w :: Useful(s, w, due))
         || (Wakes(Apply(s, step), c, due) && !Moves(step, ClientThread(c)))
  {
    var t := Apply(s, step);
    if step.Proceed? && step.c == c {
      NotificationIsUseful(s, c, step, due);
    } else if !Works(s, step, due) {
      QueueMoves(s, step);
      OtherClientsStay(s, c, step);
      assert t.queue != [] && t.queue[0] == s.queue[0];
    }
  }

  lemma OtherClientsStay(s: State, c: nat, step: Step)
    requires Enabled(s, step) && c < |s.clients| && !Moves(step, ClientThread(c))
    ensures c < |Apply(s, step).clients| && Apply(s, step).clients[c] == s.clients[c]
  {
  }

  lemma {:induction false} NotificationIsUseful(s: State, c: nat, step: Step, due: nat)
    requires Inv(s) && DueNeverBlocks(s, due) && Wakes(s, c, due) && Enabled(s, step) && step.Proceed? && step.c == c
    requires !s.stopping && s.workers != []
    ensures (exists w :: Useful(Apply(s, step), w, due)) || (exists w :: Useful(s, w, due))
  {
    if Sleeping in s.workers {
      var t := Apply(s, step);
      assert t.workers[step.woken].Checking? && t.queue == s.queue;
      assert Useful(t, step.woken, due);
    } else {
      AwakeIsUseful(s, due);
    }
  }

  lemma {:induction false} AwakeIsUseful(s: State, due: nat)
    requires Inv(s) && DueNeverBlocks(s, due) && Sleeping !in s.workers && !s.stopping && s.workers != []
    requires s.queue != [] && s.queue[0].ticket < due
    ensures exists w :: Useful(s, w, due)
  {
    assert s.workers[0].Exited? ==> Exited in s.workers;
    assert s.workers[0].Sleeping? ==> Sleeping in s.workers;
    if s.workers[0].Running? {
      RunningBeforeQueued(s, due, 0);
      NotBlocked(s, due, 0);
    }
    assert Useful(s, 0, due);
  }

  /** Somebody is useful in one of the states from i to j, or the due work has been lowered. */
  ghost predicate UsefulBy(states: seq<State>, due: nat, i: nat, j: nat)
    requires i <= j < |states|
  {
    Due(states[j], due) < Due(states[i], due) || exists m, w :: i <= m <= j && Useful(states[m], w, due)
  }

  /** A pool that runs, and the work that is due in it. */
  ghost predicate RunOf(states: seq<State>, steps: seq<Step>, due: nat) {
    && IsRun(states, steps) && Inv(states[0]) && due <= |states[0].pushed| && DueNeverBlocks(states[0], due)
    && states[0].workers != [] && !states[|steps|].stopping
  }

  lemma {:induction false} RunFacts(states: seq<State>, steps: seq<Step>, due: nat, i: nat)
    requires RunOf(states, steps, due) && i <= |steps|
    ensures |states| == |steps| + 1
    ensures Inv(states[i]) && due <= |states[i].pushed| && DueNeverBlocks(states[i], due)
    ensures states[i].workers != [] && !states[i].stopping
    ensures i < |steps| ==> Enabled(states[i], steps[i]) && states[i + 1] == Apply(states[i], steps[i])
  {
    AlongRun(states, steps, due, i);
    NeverStopped(states, steps, i);
  }

  lemma UsefulAt(states: seq<State>, due: nat, i: nat, j: nat, m: nat, w: nat)
    requires i <= m <= j < |states| && Useful(states[m], w, due)
    ensures UsefulBy(states, due, i, j)
  {
  }

  lemma LoweredBy(states: seq<State>, due: nat, i: nat, j: nat)
    requires i <= j < |states| && Due(states[j], due) < Due(states[i], due)
    ensures UsefulBy(states, due, i, j)
  {
  }

  lemma DueAlong(states: seq<State>, steps: seq<Step>, due: nat, i: nat, j: nat)
    requires RunOf(states, steps, due) && |states| == |steps| + 1 && i <= j <= |steps|
    ensures Due(states[j], due) <= Due(states[i], due)
  {
    DueAlongRun(states, steps, due, i, j);
  }

  lemma {:induction false} UsefulOrOwing(states: seq<State>, steps: seq<Step>, due: nat, i: nat, j: nat, c: nat)
    requires RunOf(states, steps, due) && i <= j <= |steps| && Wakes(states[i], c, due)
    ensures |states| == |steps| + 1
    ensures UsefulBy(states, due, i, j) ||
            (Wakes(states[j], c, due) && forall m :: i <= m < j ==> !Moves(steps[m], ClientThread(c)))
    decreases j
  {
    hide Inv, Apply, Enabled, Due, Useful, Wakes, DueNeverBlocks, Moves, RunOf, IsRun, UsefulBy, Works;
    RunFacts(states, steps, due, j);
    if i < j {
      UsefulOrOwing(states, steps, due, i, j - 1, c);
      RunFacts(states, steps, due, j - 1);
      var s, step := states[j - 1], steps[j - 1];
      if UsefulBy(states, due, i, j - 1) {
        UsefulByLater(states, steps, due, i, j - 1, j);
      } else {
        WakesStays(s, c, step, due);
        DueNeverGrows(s, step, due);
        DueAlong(states, steps, due, i, j - 1);
        if Works(s, step, due) {
          LoweredBy(states, due, i, j);
        } else if w :| Useful(states[j], w, due) {
          UsefulAt(states, due, i, j, j, w);
        } else if w :| Useful(s, w, due) {
          UsefulAt(states, due, i, j, j - 1, w);
        }
      }
    }
  }

  lemma WakesCanMove(s: State, c: nat, due: nat)
    requires Wakes(s, c, due)
    ensures CanMove(s, ClientThread(c))
  {
  }

  lemma {:induction false} OwesThroughout(states: seq<State>, steps: seq<Step>, n: nat, due: nat, i: nat, c: nat)
    requires RunOf(states, steps, due) && i + n <= |steps| && |states| == |steps| + 1
    requires Wakes(states[i], c, due) && !UsefulBy(states, due, i, i + n)
    ensures forall j :: i <= j < i + n ==> CanMove(states[j], ClientThread(c))
    ensures forall m :: i <= m < i + n ==> !Moves(steps[m], ClientThread(c))
  {
    hide Wakes, RunOf, CanMove, Moves, UsefulBy;
    UsefulOrOwing(states, steps, due, i, i + n, c);
    forall j | i <= j < i + n
      ensures CanMove(states[j], ClientThread(c))
    {
      UsefulOrOwing(states, steps, due, i, j, c);
      UsefulByLater(states, steps, due, i, j, i + n);
      WakesCanMove(states[j], c, due);
    }
  }

  lemma {:induction false} SomebodyUseful(states: seq<State>, steps: seq<Step>, n: nat, due: nat, i: nat)
    requires RunOf(states, steps, due) && i + n <= |steps| && |states| == |steps| + 1 && Fair(states, steps, n)
    requires Due(states[i], due) > 0
    ensures UsefulBy(states, due, i, i + n)
  {
    hide Inv, Due, Useful, Wakes, DueNeverBlocks, RunOf, CanMove, Moves, Fair, UsefulBy;
    RunFacts(states, steps, due, i);
    UsefulOrWakes(states[i], due);
    if w :| Useful(states[i], w, due) {
      UsefulAt(states, due, i, i + n, i, w);
    } else {
      var c :| Wakes(states[i], c, due);
      if !UsefulBy(states, due, i, i + n) {
        OwesThroughout(states, steps, n, due, i, c);
        var m := FairMove(states, steps, n, ClientThread(c), i);
        assert false;
      }
    }
  }

  lemma {:induction false} UsefulByLater(states: seq<State>, steps: seq<Step>, due: nat, i: nat, j: nat, k: nat)
    requires RunOf(states, steps, due) && i <= j <= k <= |steps| && |states| == |steps| + 1
    ensures UsefulBy(states, due, i, j) ==> UsefulBy(states, due, i, k)
  {
    DueAlongRun(states, steps, due, j, k);
  }

  // ----- The due work runs out -----

  /** Within 2n steps the due work is lowered. */
  lemma {:induction false} DueFalls(states: seq<State>, steps: seq<Step>, n: nat, due: nat, i: nat)
    requires RunOf(states, steps, due) && i + (n + n) <= |steps| && |states| == |steps| + 1 && Fair(states, steps, n)
    requires Due(states[i], due) > 0
    ensures Due(states[i + (n + n)], due) < Due(states[i], due)
  {
    hide Inv, Due, Useful, DueNeverBlocks, IsRun, Fair;
    SomebodyUseful(states, steps, n, due, i);
    DueAlongRun(states, steps, due, i + n, i + (n + n));
    if Due(states[i + n], due) >= Due(states[i], due) {
      var m, w :| i <= m <= i + n && Useful(states[m], w, due);
      WorkerLowers(states, steps, n, due, m, w);
      DueAlongRun(states, steps, due, i, m);
      DueAlongRun(states, steps, due, m + n, i + (n + n));
    }
  }

  /** The number of steps after which so much due work is done. */
  function Budget(n: nat, work: nat): nat {
    if work == 0 then 0 else (n + n) + Budget(n, work - 1)
  }

  lemma {:induction false} BudgetIsProduct(n: nat, work: nat)
    ensures Budget(n, work) == 2 * n * work
  {
    if work > 0 {
      BudgetIsProduct(n, work - 1);
      assert 2 * n * work == 2 * n * (work - 1) + 2 * n;
    }
  }

  lemma {:induction false} DueRunsOut(states: seq<State>, steps: seq<Step>, n: nat, due: nat, i: nat, work: nat)
    requires RunOf(states, steps, due) && |states| == |steps| + 1 && Fair(states, steps, n)
    requires i + Budget(n, work) <= |steps| && Due(states[i], due) <= work
    ensures Due(states[i + Budget(n, work)], due) == 0
    decreases work
  {
    hide Due, Fair, RunOf;
    if work > 0 {
      if Due(states[i], due) > 0 {
        DueFalls(states, steps, n, due, i);
      } else {
        DueAlong(states, steps, due, i, i + (n + n));
      }
      DueRunsOut(states, steps, n, due, i + (n + n), work - 1);
    }
  }

  // ----- The caller gets its futures -----

  /** The steps that the client has yet to take. */
  function StepsLeft(c: Client): int {
    (if c.owes then 1 else 0) + |c.futures| - c.got
  }

  /** The client has pushed everything, and all that it waits for is due. */
  ghost predicate Pushed(c: Client, due: nat) {
    c.waits && |c.futures| == |c.programs| && forall k :: 0 <= k < |c.futures| ==> c.futures[k] < due
  }

  lemma {:induction false} ClientAfterStep(s: State, step: Step, c: nat, due: nat)
    requires Enabled(s, step) && c < |s.clients| && Pushed(s.clients[c], due)
    ensures var t := Apply(s, step);
            && c < |t.clients| && Pushed(t.clients[c], due) && t.clients[c].programs == s.clients[c].programs
            && StepsLeft(t.clients[c]) == StepsLeft(s.clients[c]) - if Moves(step, ClientThread(c)) then 1 else 0
  {
  }

  lemma {:induction false} ClientAlong(states: seq<State>, steps: seq<Step>, due: nat, c: nat, i: nat, j: nat)
    requires RunOf(states, steps, due) && i <= j <= |steps| && |states| == |steps| + 1
    requires c < |states[i].clients| && Pushed(states[i].clients[c], due)
    ensures c < |states[j].clients| && Pushed(states[j].clients[c], due)
    ensures states[j].clients[c].programs == states[i].clients[c].programs
    ensures StepsLeft(states[j].clients[c]) <= StepsLeft(states[i].clients[c])
    ensures StepsLeft(states[j].clients[c]) == StepsLeft(states[i].clients[c]) ==>
              forall m :: i <= m < j ==> !Moves(steps[m], ClientThread(c))
    decreases j
  {
    hide Apply, Enabled, Inv, RunOf, Pushed, Moves, StepsLeft;
    if i < j {
      ClientAlong(states, steps, due, c, i, j - 1);
      RunFacts(states, steps, due, j - 1);
      ClientAfterStep(states[j - 1], steps[j - 1], c, due);
    }
  }

  lemma {:induction false} StepsLeftBounds(s: State, c: nat, due: nat)
    requires Inv(s) && c < |s.clients| && Pushed(s.clients[c], due)
    ensures 0 <= StepsLeft(s.clients[c]) <= |s.clients[c].programs| + 1
    ensures StepsLeft(s.clients[c]) == 0 <==> ClientDone(s.clients[c])
  {
    assert ClientOk(s, s.clients[c]);
  }

  lemma {:induction false} ClientCanMove(s: State, c: nat, due: nat)
    requires Inv(s) && due <= |s.pushed| && Due(s, due) == 0
    requires c < |s.clients| && Pushed(s.clients[c], due) && !ClientDone(s.clients[c])
    ensures CanMove(s, ClientThread(c))
  {
    ClientCanReturn(s, c, due);
  }

  /** With nothing due, the client takes a step in every n steps until it is done. */
  lemma {:induction false} ClientMovesOn(states: seq<State>, steps: seq<Step>, n: nat, due: nat, c: nat, i: nat)
    requires RunOf(states, steps, due) && |states| == |steps| + 1 && Fair(states, steps, n) && i + n <= |steps|
    requires c < |states[i].clients| && Pushed(states[i].clients[c], due) && Due(states[i], due) == 0
    ensures c < |states[i + n].clients| && Pushed(states[i + n].clients[c], due)
    ensures StepsLeft(states[i + n].clients[c]) <= StepsLeft(states[i].clients[c])
    ensures StepsLeft(states[i].clients[c]) > 0 ==>
              StepsLeft(states[i + n].clients[c]) < StepsLeft(states[i].clients[c])
  {
    hide Inv, Due, Pushed, StepsLeft, RunOf, CanMove, Moves, Fair, MovesWithin;
    ClientAlong(states, steps, due, c, i, i + n);
    var left := StepsLeft(states[i].clients[c]);
    if left > 0 && StepsLeft(states[i + n].clients[c]) >= left {
      forall j | i <= j < i + n
        ensures CanMove(states[j], ClientThread(c))
      {
        ClientAlong(states, steps, due, c, i, j);
        ClientAlong(states, steps, due, c, j, i + n);
        RunFacts(states, steps, due, j);
        DueAlong(states, steps, due, i, j);
        StepsLeftBounds(states[j], c, due);
        ClientCanMove(states[j], c, due);
      }
      var m := FairMove(states, steps, n, ClientThread(c), i);
      assert false;
    }
  }

  function Turns(n: nat, left: nat): nat {
    if left == 0 then 0 else n + Turns(n, left - 1)
  }

  lemma {:induction false} TurnsIsProduct(n: nat, left: nat)
    ensures Turns(n, left) == n * left
  {
    if left > 0 {
      TurnsIsProduct(n, left - 1);
      assert n * left == n * (left - 1) + n;
    }
  }

  lemma {:induction false} ClientFinishes(states: seq<State>, steps: seq<Step>, n: nat, due: nat, c: nat, i: nat,
                                          left: nat)
    requires RunOf(states, steps, due) && |states| == |steps| + 1 && Fair(states, steps, n)
    requires i + Turns(n, left) <= |steps| && Due(states[i], due) == 0
    requires c < |states[i].clients| && Pushed(states[i].clients[c], due) && StepsLeft(states[i].clients[c]) <= left
    ensures c < |states[i + Turns(n, left)].clients| && StepsLeft(states[i + Turns(n, left)].clients[c]) <= 0
    ensures Pushed(states[i + Turns(n, left)].clients[c], due)
    decreases left
  {
    hide Due, Fair, RunOf, Pushed, StepsLeft;
    if left > 0 {
      ClientMovesOn(states, steps, n, due, c, i);
      DueAlong(states, steps, due, i, i + n);
      ClientFinishes(states, steps, n, due, c, i + n, left - 1);
    }
  }

  /**
   Bounded response. In any run of a pool that is not stopped in which every thread that could move n
   times in a row moves, a caller that has pushed its tasks has returned after
   2n * (due work) + n * (number of its tasks + 1) steps, if the tasks pushed up to its last do not wait
   for others. New calls, later pushes and spurious wake-ups do not delay it.
   */
  lemma {:induction false} FairCallReturns(s: State, steps: seq<Step>, n: nat, due: nat, c: nat)
    requires Inv(s) && s.workers != [] && RunsFrom(s, steps) && !After(s, steps).stopping
    requires Fair(Trace(s, steps), steps, n)
    requires due <= |s.pushed| && DueNeverBlocks(s, due) && c < |s.clients| && Pushed(s.clients[c], due)
    requires |steps| >= 2 * n * Due(s, due) + n * (|s.clients[c].programs| + 1)
    ensures c < |After(s, steps).clients| && ClientDone(After(s, steps).clients[c])
  {
    hide Inv, Due, DueNeverBlocks, Fair, Pushed, StepsLeft, IsRun;
    TraceIsRun(s, steps);
    var states := Trace(s, steps);
    var work, tasks := Due(s, due), |s.clients[c].programs|;
    BudgetIsProduct(n, work);
    TurnsIsProduct(n, tasks + 1);
    var i := Budget(n, work);
    var j := i + Turns(n, tasks + 1);
    DueRunsOut(states, steps, n, due, 0, work);
    ClientAlong(states, steps, due, c, 0, i);
    RunFacts(states, steps, due, i);
    StepsLeftBounds(states[i], c, due);
    ClientFinishes(states, steps, n, due, c, i, tasks + 1);
    ClientAlong(states, steps, due, c, j, |steps|);
    RunFacts(states, steps, due, |steps|);
    StepsLeftBounds(states[|steps|], c, due);
  }
}
