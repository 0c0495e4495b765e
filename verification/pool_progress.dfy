/**
 Progress of the pool: every schedule is finite until somebody adds work, no reachable state with
 unfinished work is stuck, stopping drains the queue, and each task's body runs exactly once.
 */
module PoolProgress {
  import opened Options
  import opened Totals
  import opened PoolModel
  import opened PoolInvariant
  import opened PoolNesting

  // ----- A measure that every internal step decreases -----

  function ProgramSize(p: Program): nat {
    match p
    case Done => 0
    case Touch(_, rest) => 1 + ProgramSize(rest)
    case Submit(child, _, rest) => 5 + ProgramSize(child) + ProgramSize(rest)
    case Await(rest) => 1 + ProgramSize(rest)
  }

  function JobWeight(j: Job): nat { 2 + ProgramSize(j.program) }

  function WorkerWeight(w: Worker): nat {
    match w
    case Checking => 1
    case Sleeping => 0
    case Running(job, owes, _) => JobWeight(job) + if owes then 2 else 0
    case Exited => 0
  }

  function TodoWeight(p: Program): nat { 6 + ProgramSize(p) }

  function ClientWeight(c: Client): nat {
    (if |c.futures| <= |c.programs| then Total(c.programs[|c.futures|..], TodoWeight) else 0)
    + (if c.owes then 2 else 0)
    + (if c.got <= |c.futures| then |c.futures| - c.got else 0)
  }

  function Measure(s: State): nat {
    Total(s.queue, JobWeight) + Total(s.workers, WorkerWeight) + Total(s.clients, ClientWeight)
    + if s.wakeAll then |s.workers| + 1 else 0
  }

  lemma {:induction false} NotifiedWeight(workers: seq<Worker>, woken: nat)
    ensures Total(Notified(workers, woken), WorkerWeight) <= Total(workers, WorkerWeight) + 1
  {
    if woken < |workers| && workers[woken].Sleeping? {
      TotalUpdate(workers, woken, Checking, WorkerWeight);
    }
  }

  lemma {:induction false} WokenWeight(workers: seq<Worker>)
    ensures Total(Woken(workers), WorkerWeight) <= Total(workers, WorkerWeight) + |workers|
  {
    if workers != [] {
      WokenWeight(workers[1..]);
      assert Woken(workers)[1..] == Woken(workers[1..]);
    }
  }

  lemma {:induction false} LookDecreases(s: State, w: nat)
    requires Inv(s) && Enabled(s, Look(w))
    ensures Measure(Apply(s, Look(w))) < Measure(s)
  {
    TotalUpdate(s.workers, w, Apply(s, Look(w)).workers[w], WorkerWeight);
  }

  /** Replacing one worker, and perhaps pushing a job, changes the measure by their weights. */
  lemma {:induction false} WorkerMoves(s: State, w: nat, to: Worker, queue: seq<Job>)
    requires w < |s.workers|
    requires Total(queue, JobWeight) + WorkerWeight(to) < Total(s.queue, JobWeight) + WorkerWeight(s.workers[w])
    ensures Total(queue, JobWeight) + Total(s.workers[w := to], WorkerWeight)
            < Total(s.queue, JobWeight) + Total(s.workers, WorkerWeight)
  {
    TotalUpdate(s.workers, w, to, WorkerWeight);
  }

  /** What a task does next, with the notification it then owes, weighs less than before. */
  lemma {:induction false} ActionWeight(s: State, w: nat, woken: nat)
    requires Enabled(s, Advance(w, woken)) && !s.workers[w].owes
    ensures var s' := Apply(s, Advance(w, woken));
            var p := s.workers[w].job.program;
            && WorkerWeight(s'.workers[w]) + (if p.Submit? then JobWeight(Job(|s.pushed|, p.child)) else 0)
               < WorkerWeight(s.workers[w])
            && s'.queue == (if p.Submit? then s.queue + [Job(|s.pushed|, p.child)] else s.queue)
            && s'.workers == s.workers[w := s'.workers[w]]
            && s'.clients == s.clients && s'.wakeAll == s.wakeAll
  {
  }

  lemma {:induction false} NotifyDecreases(s: State, w: nat, woken: nat)
    requires Enabled(s, Advance(w, woken)) && s.workers[w].owes
    ensures Measure(Apply(s, Advance(w, woken))) < Measure(s)
  {
    var to := Running(s.workers[w].job, false, s.workers[w].kept);
    TotalUpdate(s.workers, w, to, WorkerWeight);
    NotifiedWeight(s.workers[w := to], woken);
  }

  lemma {:induction false} AdvanceDecreases(s: State, w: nat, woken: nat)
    requires Enabled(s, Advance(w, woken))
    ensures Measure(Apply(s, Advance(w, woken))) < Measure(s)
  {
    if s.workers[w].owes {
      NotifyDecreases(s, w, woken);
    } else {
      hide Apply;
      ActionWeight(s, w, woken);
      var p := s.workers[w].job.program;
      if p.Submit? {
        TotalAppend(s.queue, Job(|s.pushed|, p.child), JobWeight);
      }
      var s' := Apply(s, Advance(w, woken));
      WorkerMoves(s, w, s'.workers[w], s'.queue);
    }
  }

  /** A push by a client moves its next program from its list to the queue and owes a wake-up. */
  lemma {:induction false} PushWeight(c: Client, ticket: nat)
    requires |c.futures| < |c.programs| && !c.owes && c.got <= |c.futures|
    ensures ClientWeight(c.(futures := c.futures + [ticket], owes := true))
              + JobWeight(Job(ticket, c.programs[|c.futures|])) < ClientWeight(c)
  {
    assert c.programs[|c.futures|..][1..] == c.programs[|c.futures| + 1..];
  }

  lemma {:induction false} ProceedDecreases(s: State, i: nat, woken: nat)
    requires Inv(s) && Enabled(s, Proceed(i, woken))
    ensures Measure(Apply(s, Proceed(i, woken))) < Measure(s)
  {
    hide FifoOk, RunningOk, LogOk, WakeOk, StopOk;
    var c := s.clients[i];
    assert ClientOk(s, c);
    if c.owes {
      TotalUpdate(s.clients, i, c.(owes := false), ClientWeight);
      NotifiedWeight(s.workers, woken);
    } else if |c.futures| < |c.programs| {
      TotalUpdate(s.clients, i, c.(futures := c.futures + [|s.pushed|], owes := true), ClientWeight);
      TotalAppend(s.queue, Job(|s.pushed|, c.programs[|c.futures|]), JobWeight);
      PushWeight(c, |s.pushed|);
    } else {
      TotalUpdate(s.clients, i, c.(got := c.got + 1), ClientWeight);
    }
  }

  /** Termination, one step. */
  lemma {:induction false} InternalStepDecreases(s: State, step: Step)
    requires Inv(s) && Enabled(s, step) && Internal(step)
    ensures Measure(Apply(s, step)) < Measure(s)
  {
    match step
    case Look(w) => LookDecreases(s, w);
    case Advance(w, woken) => AdvanceDecreases(s, w, woken);
    case Proceed(c, woken) => ProceedDecreases(s, c, woken);
    case WakeAll => WokenWeight(s.workers);
  }

  /** Termination: no schedule runs longer than the measure of the state it starts from. */
  lemma {:induction false} SchedulesAreBounded(s: State, steps: seq<Step>)
    requires Inv(s) && RunsFrom(s, steps)
    requires forall k :: 0 <= k < |steps| ==> Internal(steps[k])
    ensures |steps| + Measure(After(s, steps)) <= Measure(s)
    decreases |steps|
  {
    if steps != [] {
      InternalStepDecreases(s, steps[0]);
      StepKeepsInv(s, steps[0]);
      SchedulesAreBounded(Apply(s, steps[0]), steps[1..]);
    }
  }

  /** What an internal step leaves alone. */
  lemma {:induction false} InternalStepFrame(s: State, step: Step)
    requires Inv(s) && Enabled(s, step) && Internal(step)
    ensures Apply(s, step).stopping == s.stopping
    ensures |Apply(s, step).workers| == |s.workers| && |Apply(s, step).clients| == |s.clients|
    ensures forall c :: 0 <= c < |s.clients| ==>
              Apply(s, step).clients[c].programs == s.clients[c].programs &&
              Apply(s, step).clients[c].waits == s.clients[c].waits
    ensures !AllExited(s.workers) && AllExited(Apply(s, step).workers) ==>
              Apply(s, step).sealed == Some(|Apply(s, step).pushed|)
  {
    hide RunningOk, LogOk, ClientsOk, WakeOk;
    var s' := Apply(s, step);
    if !AllExited(s.workers) && AllExited(s'.workers) {
      var w :| 0 <= w < |s.workers| && !s.workers[w].Exited?;
      assert s'.workers[w].Exited?;
      assert step.Look? && step.w == w;
    }
  }

  // ----- No stuck states -----

  ghost predicate Stuck(s: State) {
    forall step :: Internal(step) ==> !Enabled(s, step)
  }

  lemma {:induction false} SomebodyToNotify(workers: seq<Worker>) returns (woken: nat)
    ensures NotifyPicks(workers, woken)
  {
    if Sleeping in workers {
      var k :| 0 <= k < |workers| && workers[k] == Sleeping;
      woken := k;
    } else {
      woken := 0;
    }
  }

  lemma {:induction false} StuckThreads(s: State)
    requires Stuck(s)
    ensures forall w :: 0 <= w < |s.workers| ==> s.workers[w].Sleeping? || s.workers[w].Exited? || Awaiting(s, w)
    ensures forall c :: 0 <= c < |s.clients| ==> !ClientCanProceed(s, s.clients[c])
    ensures !s.wakeAll
  {
    var woken := SomebodyToNotify(s.workers);
    forall w | 0 <= w < |s.workers|
      ensures s.workers[w].Sleeping? || s.workers[w].Exited? || Awaiting(s, w)
    {
      assert !Enabled(s, Look(w)) && !Enabled(s, Advance(w, woken));
    }
    forall c | 0 <= c < |s.clients|
      ensures !ClientCanProceed(s, s.clients[c])
    {
      assert !Enabled(s, Proceed(c, woken));
    }
    assert !Enabled(s, WakeAll);
  }

  lemma {:induction false} StuckWakeups(s: State)
    requires Stuck(s)
    ensures Wakeups(s) == 0
  {
    StuckThreads(s);
    if Total(s.workers, LooksWeight) > 0 {
      var w := TotalWitness(s.workers, LooksWeight);
    }
    if Total(s.workers, OwesWeight) > 0 {
      var w := TotalWitness(s.workers, OwesWeight);
    }
    if Total(s.clients, ClientOwesWeight) > 0 {
      var c := TotalWitness(s.clients, ClientOwesWeight);
    }
  }

  /** With an empty queue nobody is blocked: the task waited for would wait for an even later one. */
  lemma {:induction false} NobodyBlockedWhenDrained(s: State, w: nat)
    requires Inv(s) && Stuck(s) && s.queue == [] && w < |s.workers| && Awaiting(s, w)
    ensures false
    decreases |s.pushed| - s.workers[w].job.ticket
  {
    var t := s.workers[w].kept[0];
    assert KeepsLater(s.workers[w], |s.pushed|);
    assert RunningSomewhere(s, t);
    var v :| 0 <= v < |s.workers| && s.workers[v].Running? && s.workers[v].job.ticket == t;
    StuckThreads(s);
    NobodyBlockedWhenDrained(s, v);
  }

  /** Nothing is left to do for anybody. */
  ghost predicate EverythingDone(s: State) {
    && s.queue == [] && !s.stopping
    && (forall t: nat :: t < |s.pushed| ==> t in s.finished)
    && (forall c :: 0 <= c < |s.clients| ==> ClientDone(s.clients[c]))
  }

  lemma {:induction false} IdleWhenSomebodySleeps(s: State)
    requires Inv(s) && Stuck(s) && Sleeping in s.workers
    ensures EverythingDone(s)
  {
    StuckThreads(s);
    StuckWakeups(s);
    forall t: nat | t < |s.pushed|
      ensures t in s.finished
    {
      if RunningSomewhere(s, t) {
        var v :| 0 <= v < |s.workers| && s.workers[v].Running? && s.workers[v].job.ticket == t;
        NobodyBlockedWhenDrained(s, v);
        assert false;
      }
    }
    forall c | 0 <= c < |s.clients|
      ensures ClientDone(s.clients[c])
    {
      assert ClientOk(s, s.clients[c]);
      assert !ClientCanProceed(s, s.clients[c]);
    }
  }

  /**
   The pool blocks its users only by deadlock: if nothing can move and some worker is left, then
   either everything is done or every worker is blocked in a task of its own.
   */
  lemma {:induction false} StuckMeansDoneOrDeadlocked(s: State)
    requires Inv(s) && Stuck(s) && !AllExited(s.workers)
    ensures EverythingDone(s) <==> !Deadlocked(s)
  {
    StuckThreads(s);
    if Deadlocked(s) {
      var w :| 0 <= w < |s.workers| && !s.workers[w].Exited?;
      assert Awaiting(s, w) && KeepsLater(s.workers[w], |s.pushed|);
      assert s.workers[w].kept[0] < |s.pushed|;
    } else {
      var w :| 0 <= w < |s.workers| && !s.workers[w].Exited? && !Awaiting(s, w);
      assert s.workers[w] == Sleeping && Sleeping in s.workers;
      IdleWhenSomebodySleeps(s);
    }
  }

  lemma {:induction false} NobodyLeft(s: State)
    requires Inv(s) && !s.stopping && s.workers != []
    ensures !AllExited(s.workers)
  {
    assert s.workers[0].Exited? ==> Exited in s.workers;
  }

  /** While fewer tasks wait than there are workers, an unreturned client means that the pool can move. */
  lemma {:induction false} WaitingIsNotStuck(s: State, c: nat)
    requires Inv(s) && !s.stopping && Load(s) < |s.workers|
    requires c < |s.clients| && !ClientDone(s.clients[c])
    ensures !Stuck(s)
  {
    if Stuck(s) {
      NobodyLeft(s);
      LightLoadHasNoDeadlock(s);
      StuckMeansDoneOrDeadlocked(s);
      assert false;
    }
  }

  // ----- Stopping -----

  /**
   When every join has returned, the tasks that have run are exactly the ones pushed before the last
   worker left: all of them, unless somebody used the pool after that.
   */
  lemma {:induction false} StopDrains(s: State)
    requires Inv(s) && AllExited(s.workers)
    ensures s.sealed.Some?
    ensures forall t: nat :: t in s.finished <==> t < s.sealed.value
    ensures (forall t: nat :: t < |s.pushed| ==> t in s.finished) <==> s.sealed.value == |s.pushed|
  {
    forall t: nat
      ensures t in s.finished <==> t < s.sealed.value
    {
      assert !RunningSomewhere(s, t);
    }
    if s.sealed.value < |s.pushed| {
      assert s.sealed.value !in s.finished;
    }
  }

  /** While the pool is stopping and no task waits, nothing is stuck before all workers have left. */
  lemma {:induction false} StoppingIsNotStuck(s: State)
    requires Inv(s) && s.stopping && !AllExited(s.workers) && Load(s) == 0
    ensures !Stuck(s)
  {
    if Stuck(s) {
      NoLoadHasNoDeadlock(s);
      StuckMeansDoneOrDeadlocked(s);
      assert false;
    }
  }

  /** After the last worker has left no task finishes any more: a later push is lost. */
  lemma {:induction false} LatePushesAreLost(s: State, steps: seq<Step>)
    requires Inv(s) && AllExited(s.workers) && RunsFrom(s, steps)
    ensures AllExited(After(s, steps).workers) && After(s, steps).finished == s.finished
    decreases |steps|
  {
    if steps != [] {
      var s' := Apply(s, steps[0]);
      StepKeepsInv(s, steps[0]);
      assert AllExited(s'.workers) && s'.finished == s.finished;
      LatePushesAreLost(s', steps[1..]);
    }
  }

  // ----- First in, first out; once each -----

  /** A worker that takes a task takes the oldest one, and no other step takes any. */
  lemma {:induction false} TakenInOrder(s: State, step: Step)
    requires Inv(s) && Enabled(s, step)
    ensures Pops(s, step) ==>
              Apply(s, step).workers[step.w].Running? &&
              Apply(s, step).workers[step.w].job == Job(Head(s) as nat, s.pushed[Head(s)]) &&
              Head(Apply(s, step)) == Head(s) + 1
    ensures !Pops(s, step) ==> Head(Apply(s, step)) == Head(s)
  {
  }

  /** No task ever processes more than its body, and a finished one has processed all of it. */
  lemma {:induction false} BodyRunsOnce(s: State, t: nat)
    requires Inv(s) && t < |s.pushed|
    ensures LogOf(s.log, t) <= Touches(s.pushed[t])
    ensures t in s.finished ==> LogOf(s.log, t) == Touches(s.pushed[t])
  {
    if t < Head(s) && t !in s.finished {
      var w :| 0 <= w < |s.workers| && s.workers[w].Running? && s.workers[w].job.ticket == t;
      assert LogOf(s.log, t) + Touches(s.workers[w].job.program) == Touches(s.pushed[t]);
    }
  }

  /** The elements processed by the tasks with these tickets, in the order it happened. */
  function OrderOf(log: seq<Event>, tickets: seq<nat>): seq<int> {
    if log == [] then []
    else
      var e := log[|log| - 1];
      OrderOf(log[..|log| - 1], tickets) + if e.ticket in tickets then [e.index] else []
  }

  function Bodies(programs: seq<Program>): multiset<int> {
    if programs == [] then multiset{}
    else Bodies(programs[..|programs| - 1]) + multiset(Touches(programs[|programs| - 1]))
  }

  /** The element of an event, if its ticket is one of these. */
  function Chosen(e: Event, tickets: seq<nat>): seq<int> {
    if e.ticket in tickets then [e.index] else []
  }

  lemma LastOfOrder(log: seq<Event>, tickets: seq<nat>, t: nat)
    requires log != [] && t !in tickets
    ensures var prev, e := log[..|log| - 1], log[|log| - 1];
            && OrderOf(log, tickets) == OrderOf(prev, tickets) + Chosen(e, tickets)
            && LogOf(log, t) == LogOf(prev, t) + Chosen(e, [t])
            && OrderOf(log, tickets + [t]) == OrderOf(prev, tickets + [t]) + (Chosen(e, tickets) + Chosen(e, [t]))
  {
  }

  lemma MergedBags(a: seq<int>, b: seq<int>, c: seq<int>, x: seq<int>, y: seq<int>)
    requires multiset(a) == multiset(b) + multiset(c)
    ensures multiset(a + (x + y)) == multiset(b + x) + multiset(c + y)
  {
  }

  lemma {:induction false} OrderSplits(log: seq<Event>, tickets: seq<nat>, t: nat)
    requires t !in tickets
    ensures multiset(OrderOf(log, tickets + [t])) == multiset(OrderOf(log, tickets)) + multiset(LogOf(log, t))
  {
    if log != [] {
      hide Chosen;
      var prev, e := log[..|log| - 1], log[|log| - 1];
      OrderSplits(prev, tickets, t);
      LastOfOrder(log, tickets, t);
      MergedBags(OrderOf(prev, tickets + [t]), OrderOf(prev, tickets), LogOf(prev, t),
                 Chosen(e, tickets), Chosen(e, [t]));
    }
  }

  lemma {:induction false} OrderOfNothing(log: seq<Event>)
    ensures OrderOf(log, []) == []
  {
    if log != [] {
      OrderOfNothing(log[..|log| - 1]);
    }
  }

  lemma {:induction false} OrderOfWholeBodies(log: seq<Event>, tickets: seq<nat>, programs: seq<Program>)
    requires |tickets| == |programs|
    requires forall j, k :: 0 <= j < k < |tickets| ==> tickets[j] < tickets[k]
    requires forall k :: 0 <= k < |tickets| ==> LogOf(log, tickets[k]) == Touches(programs[k])
    ensures multiset(OrderOf(log, tickets)) == Bodies(programs)
    decreases |tickets|
  {
    if tickets == [] {
      OrderOfNothing(log);
    } else {
      var n := |tickets| - 1;
      OrderOfWholeBodies(log, tickets[..n], programs[..n]);
      assert tickets == tickets[..n] + [tickets[n]];
      OrderSplits(log, tickets[..n], tickets[n]);
    }
  }

  /**
   Exactly once: when a waiting client has returned, its tasks have together processed precisely the
   elements of its programs, whatever other tasks ran in between.
   */
  lemma {:induction false} ClientWorkDoneOnce(s: State, c: nat)
    requires Inv(s) && c < |s.clients| && s.clients[c].waits && ClientDone(s.clients[c])
    ensures multiset(OrderOf(s.log, s.clients[c].futures)) == Bodies(s.clients[c].programs)
  {
    var client := s.clients[c];
    assert ClientOk(s, client);
    forall k | 0 <= k < |client.futures|
      ensures LogOf(s.log, client.futures[k]) == Touches(client.programs[k])
    {
      BodyRunsOnce(s, client.futures[k]);
    }
    OrderOfWholeBodies(s.log, client.futures, client.programs);
  }
}
