/** Every step of the pool keeps its invariant, hence every run does. */
module PoolInvariant {
  import opened Totals
  import opened PoolModel

  /** A step takes the oldest task off the queue, or pushes one, or leaves queue and pushes alone. */
  lemma {:induction false} QueueMoves(s: State, step: Step)
    requires Enabled(s, step)
    ensures var s' := Apply(s, step);
            || (s'.queue == s.queue && s'.pushed == s.pushed)
            || (s.queue != [] && s'.queue == s.queue[1..] && s'.pushed == s.pushed)
            || (s'.pushed != [] && s'.pushed == s.pushed + [s'.pushed[|s'.pushed| - 1]]
                && s'.queue == s.queue + [Job(|s.pushed|, s'.pushed[|s'.pushed| - 1])])
  {
  }

  lemma {:induction false} FifoKept(s: State, step: Step)
    requires Inv(s) && Enabled(s, step)
    ensures FifoOk(Apply(s, step))
  {
    hide RunningOk, FuturesOk, LogOk, ClientsOk, WakeOk, StopOk, Apply, Enabled;
    QueueMoves(s, step);
  }

  /** A step that neither dequeues nor finishes a task leaves the running tasks as they are. */
  ghost predicate SameTickets(s: State, s': State) {
    && Head(s') == Head(s) && s'.finished == s.finished && |s'.workers| == |s.workers|
    && forall w :: 0 <= w < |s.workers| ==>
         s'.workers[w].Running? == s.workers[w].Running? &&
         (s.workers[w].Running? ==> s'.workers[w].job.ticket == s.workers[w].job.ticket)
  }

  lemma {:induction false} RunningKeptBySameTickets(s: State, s': State)
    requires Inv(s) && SameTickets(s, s')
    ensures RunningOk(s')
  {
    forall t: nat | t < Head(s') && t !in s'.finished
      ensures RunningSomewhere(s', t)
    {
      var v :| 0 <= v < |s.workers| && s.workers[v].Running? && s.workers[v].job.ticket == t;
      assert s'.workers[v].Running? && s'.workers[v].job.ticket == t;
    }
  }

  lemma {:induction false} RunningKeptByPop(s: State, w: nat)
    requires Inv(s) && Enabled(s, Look(w)) && s.queue != []
    ensures RunningOk(Apply(s, Look(w)))
  {
    var s' := Apply(s, Look(w));
    forall t: nat | t < Head(s') && t !in s'.finished
      ensures RunningSomewhere(s', t)
    {
      if t < Head(s) {
        var v :| 0 <= v < |s.workers| && s.workers[v].Running? && s.workers[v].job.ticket == t;
        assert s'.workers[v].Running? && s'.workers[v].job.ticket == t;
      } else {
        assert s'.workers[w].Running? && s'.workers[w].job.ticket == t;
      }
    }
  }

  lemma {:induction false} RunningKeptByFinish(s: State, w: nat, woken: nat)
    requires Inv(s) && Enabled(s, Advance(w, woken)) && !s.workers[w].owes && s.workers[w].job.program.Done?
    ensures RunningOk(Apply(s, Advance(w, woken)))
  {
    hide FuturesOk, LogOk, ClientsOk, WakeOk, StopOk;
    var s' := Apply(s, Advance(w, woken));
    forall t: nat | t < Head(s') && t !in s'.finished
      ensures RunningSomewhere(s', t)
    {
      var v :| 0 <= v < |s.workers| && s.workers[v].Running? && s.workers[v].job.ticket == t;
      assert s'.workers[v].Running? && s'.workers[v].job.ticket == t;
    }
  }

  predicate Finishes(s: State, step: Step)
    requires Enabled(s, step)
  {
    step.Advance? && !s.workers[step.w].owes && s.workers[step.w].job.program.Done?
  }

  predicate Pops(s: State, step: Step)
    requires Enabled(s, step)
  {
    step.Look? && s.queue != []
  }

  predicate TouchesOne(s: State, step: Step)
    requires Enabled(s, step)
  {
    step.Advance? && !s.workers[step.w].owes && s.workers[step.w].job.program.Touch?
  }

  lemma {:induction false} RestKeepsTickets(s: State, step: Step)
    requires Enabled(s, step) && !Finishes(s, step) && !Pops(s, step)
    ensures SameTickets(s, Apply(s, step))
  {
  }

  /** What a step does to the futures of worker w. */
  lemma {:induction false} KeptAfterStep(s: State, step: Step, w: nat)
    requires Enabled(s, step) && w < |s.workers| && Apply(s, step).workers[w].Running?
    ensures var k, k' := s.workers[w], Apply(s, step).workers[w];
            && |s.pushed| <= |Apply(s, step).pushed|
            && (k.Running? ==> k'.job.ticket == k.job.ticket)
            && (k.Running? ==> forall t :: t in k'.kept ==> t in k.kept || t == |s.pushed| < |Apply(s, step).pushed|)
            && (!k.Running? ==> k'.kept == [])
  {
  }

  lemma {:induction false} FuturesKept(s: State, step: Step)
    requires Inv(s) && Enabled(s, step)
    ensures FuturesOk(Apply(s, step))
  {
    hide LogOk, ClientsOk, WakeOk, StopOk, Apply, Enabled;
    var s' := Apply(s, step);
    SameThreads(s, step);
    forall w | 0 <= w < |s'.workers| && s'.workers[w].Running?
      ensures KeepsLater(s'.workers[w], |s'.pushed|)
    {
      KeptAfterStep(s, step, w);
      var k := s.workers[w];
      assert KeepsLater(k, |s.pushed|);
      forall i | 0 <= i < |s'.workers[w].kept|
        ensures s'.workers[w].job.ticket < s'.workers[w].kept[i] < |s'.pushed|
      {
        assert s'.workers[w].kept[i] in s'.workers[w].kept;
      }
    }
  }

  lemma SameThreads(s: State, step: Step)
    requires Enabled(s, step)
    ensures |Apply(s, step).workers| == |s.workers|
  {
  }

  lemma {:induction false} RunningKept(s: State, step: Step)
    requires Inv(s) && Enabled(s, step)
    ensures RunningOk(Apply(s, step))
  {
    hide Inv, RunningOk, SameTickets;
    if Finishes(s, step) {
      RunningKeptByFinish(s, step.w, step.woken);
    } else if Pops(s, step) {
      RunningKeptByPop(s, step.w);
    } else {
      RestKeepsTickets(s, step);
      RunningKeptBySameTickets(s, Apply(s, step));
    }
  }

  /** Processing one element moves it from the task's remaining body to its log. */
  lemma {:induction false} LogKeptByTouch(s: State, step: Step)
    requires Inv(s) && Enabled(s, step) && TouchesOne(s, step)
    ensures LogOk(Apply(s, step))
  {
    var s' := Apply(s, step);
    var job := s.workers[step.w].job;
    var e := Event(job.ticket, job.program.index);
    forall t: nat
      ensures LogOf(s'.log, t) == if t == job.ticket then LogOf(s.log, t) + [e.index] else LogOf(s.log, t)
    {
      LogOfAppend(s.log, e, t);
      assert LogOf(s.log, t) + [] == LogOf(s.log, t);
    }
    assert LogOf(s.log, job.ticket) + ([e.index] + Touches(job.program.rest))
        == (LogOf(s.log, job.ticket) + [e.index]) + Touches(job.program.rest);
  }

  lemma {:induction false} LogKeptByPop(s: State, w: nat)
    requires Inv(s) && Enabled(s, Look(w)) && s.queue != []
    ensures LogOk(Apply(s, Look(w)))
  {
    var job := s.queue[0];
    assert LogOf(s.log, job.ticket) == [];
    assert [] + Touches(job.program) == Touches(job.program);
  }

  lemma {:induction false} LogKeptByFinish(s: State, w: nat, woken: nat)
    requires Inv(s) && Enabled(s, Advance(w, woken)) && !s.workers[w].owes && s.workers[w].job.program.Done?
    ensures LogOk(Apply(s, Advance(w, woken)))
  {
    var job := s.workers[w].job;
    assert LogOf(s.log, job.ticket) + [] == LogOf(s.log, job.ticket);
  }

  /** A step that neither dequeues, nor processes an element, nor finishes leaves all bodies as they are. */
  lemma {:induction false} RestKeepsBodies(s: State, step: Step)
    requires Enabled(s, step) && !TouchesOne(s, step) && !Pops(s, step) && !Finishes(s, step)
    ensures var s' := Apply(s, step);
            && s'.log == s.log && s'.finished == s.finished && s.pushed <= s'.pushed && Head(s') == Head(s)
            && |s'.workers| == |s.workers|
            && forall w :: 0 <= w < |s.workers| && s'.workers[w].Running? ==>
                 s.workers[w].Running? && s'.workers[w].job.ticket == s.workers[w].job.ticket &&
                 Touches(s'.workers[w].job.program) == Touches(s.workers[w].job.program)
  {
  }

  lemma {:induction false} LogKeptByRest(s: State, step: Step)
    requires Inv(s) && Enabled(s, step) && !TouchesOne(s, step) && !Pops(s, step) && !Finishes(s, step)
    ensures LogOk(Apply(s, step))
  {
    hide Enabled, Apply, TouchesOne, Pops, Finishes, ClientsOk, WakeOk, StopOk;
    RestKeepsBodies(s, step);
  }

  lemma {:induction false} LogKept(s: State, step: Step)
    requires Inv(s) && Enabled(s, step)
    ensures LogOk(Apply(s, step))
  {
    if TouchesOne(s, step) {
      LogKeptByTouch(s, step);
    } else if Pops(s, step) {
      LogKeptByPop(s, step.w);
    } else if Finishes(s, step) {
      LogKeptByFinish(s, step.w, step.woken);
    } else {
      LogKeptByRest(s, step);
    }
  }

  /** What a client knows stays true while pushes and finished tasks only accumulate. */
  lemma {:induction false} ClientStaysOk(s: State, s': State, c: Client)
    requires ClientOk(s, c)
    requires s.pushed <= s'.pushed && s.finished <= s'.finished
    ensures ClientOk(s', c)
  {
  }

  lemma {:induction false} ClientMoveOk(s: State, i: nat, woken: nat)
    requires Inv(s) && Enabled(s, Proceed(i, woken))
    ensures ClientOk(Apply(s, Proceed(i, woken)), Apply(s, Proceed(i, woken)).clients[i])
  {
    hide FifoOk, RunningOk, FuturesOk, LogOk, WakeOk, StopOk;
    ClientStaysOk(s, Apply(s, Proceed(i, woken)), s.clients[i]);
  }

  lemma {:induction false} ClientsKept(s: State, step: Step)
    requires Inv(s) && Enabled(s, step)
    ensures ClientsOk(Apply(s, step))
  {
    hide FifoOk, RunningOk, FuturesOk, LogOk, WakeOk, StopOk;
    var s' := Apply(s, step);
    forall i | 0 <= i < |s'.clients|
      ensures ClientOk(s', s'.clients[i])
    {
      if step.Proceed? && step.c == i {
        ClientMoveOk(s, i, step.woken);
      } else if i < |s.clients| {
        ClientStaysOk(s, s', s.clients[i]);
      }
    }
  }

  /** notify_one turns a pending wake-up into a worker about to look, if somebody sleeps. */
  lemma {:induction false} NotifiedTotals(workers: seq<Worker>, woken: nat)
    requires NotifyPicks(workers, woken)
    ensures Total(Notified(workers, woken), OwesWeight) == Total(workers, OwesWeight)
    ensures Total(Notified(workers, woken), LooksWeight) == Total(workers, LooksWeight)
              + if Sleeping in workers then 1 else 0
  {
    if woken < |workers| && workers[woken].Sleeping? {
      TotalUpdate(workers, woken, Checking, OwesWeight);
      TotalUpdate(workers, woken, Checking, LooksWeight);
    }
  }

  lemma {:induction false} WakeKeptByLook(s: State, w: nat)
    requires Inv(s) && Enabled(s, Look(w))
    ensures WakeOk(Apply(s, Look(w)))
  {
    var x := Apply(s, Look(w)).workers[w];
    TotalUpdate(s.workers, w, x, OwesWeight);
    TotalUpdate(s.workers, w, x, LooksWeight);
  }

  lemma {:induction false} WakeKeptByWorkerNotify(s: State, w: nat, woken: nat)
    requires Inv(s) && Enabled(s, Advance(w, woken)) && s.workers[w].owes
    ensures WakeOk(Apply(s, Advance(w, woken)))
  {
    var job := s.workers[w].job;
    var moved := s.workers[w := Running(job, false, s.workers[w].kept)];
    TotalUpdate(s.workers, w, Running(job, false, s.workers[w].kept), OwesWeight);
    TotalUpdate(s.workers, w, Running(job, false, s.workers[w].kept), LooksWeight);
    assert Sleeping in moved ==> Sleeping in s.workers;
    NotifiedTotals(moved, woken);
    assert Sleeping in Notified(moved, woken) ==> Sleeping in moved;
  }

  /** A task's own action adds a queued task only together with the duty to notify. */
  lemma {:induction false} ActionOwes(s: State, w: nat, woken: nat)
    requires Enabled(s, Advance(w, woken)) && !s.workers[w].owes
    ensures var s' := Apply(s, Advance(w, woken));
            && s'.workers == s.workers[w := s'.workers[w]]
            && !s'.workers[w].Sleeping? && !s'.workers[w].Exited?
            && |s'.queue| <= |s.queue| + OwesWeight(s'.workers[w])
            && s'.clients == s.clients && s'.stopping == s.stopping && s'.wakeAll == s.wakeAll
  {
  }

  lemma {:induction false} WakeKeptByAdvance(s: State, w: nat, woken: nat)
    requires Inv(s) && Enabled(s, Advance(w, woken)) && !s.workers[w].owes
    ensures WakeOk(Apply(s, Advance(w, woken)))
  {
    hide FifoOk, RunningOk, FuturesOk, LogOk, ClientsOk, StopOk, Apply;
    ActionOwes(s, w, woken);
    var x := Apply(s, Advance(w, woken)).workers[w];
    TotalUpdate(s.workers, w, x, OwesWeight);
    TotalUpdate(s.workers, w, x, LooksWeight);
    assert Sleeping in s.workers[w := x] ==> Sleeping in s.workers;
  }

  lemma {:induction false} WakeKeptByProceed(s: State, c: nat, woken: nat)
    requires Inv(s) && Enabled(s, Proceed(c, woken))
    ensures WakeOk(Apply(s, Proceed(c, woken)))
  {
    TotalUpdate(s.clients, c, Apply(s, Proceed(c, woken)).clients[c], ClientOwesWeight);
    if s.clients[c].owes {
      NotifiedTotals(s.workers, woken);
      assert Sleeping in Notified(s.workers, woken) ==> Sleeping in s.workers;
    }
  }

  lemma {:induction false} WakeKept(s: State, step: Step)
    requires Inv(s) && Enabled(s, step)
    ensures WakeOk(Apply(s, step))
  {
    match step
    case Look(w) => WakeKeptByLook(s, w);
    case Advance(w, woken) =>
      if s.workers[w].owes {
        WakeKeptByWorkerNotify(s, w, woken);
      } else {
        WakeKeptByAdvance(s, w, woken);
      }
    case Proceed(c, woken) => WakeKeptByProceed(s, c, woken);
    case WakeAll =>
    case BeginStop =>
    case Call(programs, waits) =>
      TotalAppend(s.clients, Client(programs, waits, [], false, 0), ClientOwesWeight);
    case Spurious(w) =>
      TotalUpdate(s.workers, w, Checking, OwesWeight);
      TotalUpdate(s.workers, w, Checking, LooksWeight);
  }

  lemma {:induction false} StopKeptByLook(s: State, w: nat)
    requires StopOk(s) && Enabled(s, Look(w))
    ensures StopOk(Apply(s, Look(w)))
  {
    var s' := Apply(s, Look(w));
    assert !s.workers[w].Exited?;
    assert !s'.workers[w].Exited? || s'.sealed.Some? == AllExited(s'.workers);
  }

  lemma {:induction false} StopKeptByOthers(s: State, step: Step)
    requires StopOk(s) && Enabled(s, step) && !step.Look?
    ensures StopOk(Apply(s, step))
  {
    var s' := Apply(s, step);
    assert forall w :: 0 <= w < |s.workers| ==> (s'.workers[w].Exited? <==> s.workers[w].Exited?);
    assert Exited in s'.workers ==> Exited in s.workers;
    assert Head(s') == Head(s) && s'.sealed == s.sealed;
  }

  lemma {:induction false} StopKept(s: State, step: Step)
    requires Inv(s) && Enabled(s, step)
    ensures StopOk(Apply(s, step))
  {
    hide FifoOk, RunningOk, FuturesOk, LogOk, ClientsOk, WakeOk, StopOk;
    if step.Look? {
      StopKeptByLook(s, step.w);
    } else {
      StopKeptByOthers(s, step);
    }
  }

  /** Safety, one step: the invariant is inductive. */
  lemma {:induction false} StepKeepsInv(s: State, step: Step)
    requires Inv(s) && Enabled(s, step)
    ensures Inv(Apply(s, step))
  {
    FifoKept(s, step);
    RunningKept(s, step);
    FuturesKept(s, step);
    LogKept(s, step);
    ClientsKept(s, step);
    WakeKept(s, step);
    StopKept(s, step);
  }

  /** Safety, every run: the invariant holds in every state a schedule can reach. */
  lemma {:induction false} RunKeepsInv(s: State, steps: seq<Step>)
    requires Inv(s) && RunsFrom(s, steps)
    ensures Inv(After(s, steps))
    decreases |steps|
  {
    if steps != [] {
      StepKeepsInv(s, steps[0]);
      RunKeepsInv(Apply(s, steps[0]), steps[1..]);
    }
  }
}
