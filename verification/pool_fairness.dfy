/**
 Calls return although others keep calling. The work that is due before push number `due` never grows,
 whatever new calls, later pushes and spurious wake-ups do; while there is any, some thread can lower it
 or wake one that will; and what can lower it stays possible until it has been lowered.
 */
module PoolFairness {
  import opened Totals
  import opened PoolModel
  import opened PoolInvariant
  import opened PoolNesting
  import opened PoolProgress

  function DueJobWeight(due: nat, j: Job): nat { if j.ticket < due then 1 + JobWeight(j) else 0 }

  function DueWorkerWeight(due: nat, w: Worker): nat {
    if w.Running? && w.job.ticket < due then WorkerWeight(w) else 0
  }

  function DueJob(due: nat): Job -> nat { j => DueJobWeight(due, j) }
  function DueWorker(due: nat): Worker -> nat { w => DueWorkerWeight(due, w) }

  /** The work of the tasks with tickets below `due`. */
  function Due(s: State, due: nat): nat {
    Total(s.queue, DueJob(due)) + Total(s.workers, DueWorker(due))
  }

  /** Taking a due task off the queue, or an action of a due task. */
  predicate Works(s: State, step: Step, due: nat)
    requires Enabled(s, step)
  {
    (Pops(s, step) && s.queue[0].ticket < due) || (step.Advance? && s.workers[step.w].job.ticket < due)
  }

  lemma {:induction false} NotifiedDue(workers: seq<Worker>, woken: nat, due: nat)
    ensures Total(Notified(workers, woken), DueWorker(due)) == Total(workers, DueWorker(due))
  {
    if woken < |workers| && workers[woken].Sleeping? {
      TotalUpdate(workers, woken, Checking, DueWorker(due));
    }
  }

  lemma {:induction false} WokenDue(workers: seq<Worker>, due: nat)
    ensures Total(Woken(workers), DueWorker(due)) == Total(workers, DueWorker(due))
  {
    if workers != [] {
      WokenDue(workers[1..], due);
      assert Woken(workers)[1..] == Woken(workers[1..]);
    }
  }

  lemma {:induction false} DueAfterLook(s: State, w: nat, due: nat)
    requires Enabled(s, Look(w))
    ensures Due(Apply(s, Look(w)), due) <= Due(s, due)
    ensures Works(s, Look(w), due) ==> Due(Apply(s, Look(w)), due) < Due(s, due)
  {
    TotalUpdate(s.workers, w, Apply(s, Look(w)).workers[w], DueWorker(due));
  }

  lemma {:induction false} DueAfterNotify(s: State, w: nat, woken: nat, due: nat)
    requires Enabled(s, Advance(w, woken)) && s.workers[w].owes
    ensures Due(Apply(s, Advance(w, woken)), due) <= Due(s, due)
    ensures s.workers[w].job.ticket < due ==> Due(Apply(s, Advance(w, woken)), due) < Due(s, due)
  {
    var to := Running(s.workers[w].job, false, s.workers[w].kept);
    TotalUpdate(s.workers, w, to, DueWorker(due));
    NotifiedDue(s.workers[w := to], woken, due);
  }

  lemma {:induction false} SameTicket(s: State, w: nat, woken: nat)
    requires Enabled(s, Advance(w, woken)) && !s.workers[w].owes
    ensures var k := Apply(s, Advance(w, woken)).workers[w];
            k.Checking? || (k.Running? && k.job.ticket == s.workers[w].job.ticket)
  {
  }

  lemma {:induction false} DueAfterAdvance(s: State, w: nat, woken: nat, due: nat)
    requires Enabled(s, Advance(w, woken)) && due <= |s.pushed|
    ensures Due(Apply(s, Advance(w, woken)), due) <= Due(s, due)
    ensures s.workers[w].job.ticket < due ==> Due(Apply(s, Advance(w, woken)), due) < Due(s, due)
  {
    if s.workers[w].owes {
      DueAfterNotify(s, w, woken, due);
    } else {
      hide Apply;
      ActionWeight(s, w, woken);
      SameTicket(s, w, woken);
      var p := s.workers[w].job.program;
      if p.Submit? {
        TotalAppend(s.queue, Job(|s.pushed|, p.child), DueJob(due));
      }
      TotalUpdate(s.workers, w, Apply(s, Advance(w, woken)).workers[w], DueWorker(due));
    }
  }

  lemma {:induction false} DueAfterProceed(s: State, c: nat, woken: nat, due: nat)
    requires Enabled(s, Proceed(c, woken)) && due <= |s.pushed|
    ensures Due(Apply(s, Proceed(c, woken)), due) == Due(s, due)
  {
    var client := s.clients[c];
    if client.owes {
      NotifiedDue(s.workers, woken, due);
    } else if |client.futures| < |client.programs| {
      TotalAppend(s.queue, Job(|s.pushed|, client.programs[|client.futures|]), DueJob(due));
    }
  }

  /** No step of anybody raises the due work, and what works on it lowers it. */
  lemma {:induction false} DueNeverGrows(s: State, step: Step, due: nat)
    requires Enabled(s, step) && due <= |s.pushed|
    ensures due <= |Apply(s, step).pushed| && Due(Apply(s, step), due) <= Due(s, due)
    ensures Works(s, step, due) ==> Due(Apply(s, step), due) < Due(s, due)
  {
    match step
    case Look(w) => DueAfterLook(s, w, due);
    case Advance(w, woken) => DueAfterAdvance(s, w, woken, due);
    case Proceed(c, woken) => DueAfterProceed(s, c, woken, due);
    case WakeAll => WokenDue(s.workers, due);
    case BeginStop =>
    case Call(_, _) =>
    case Spurious(w) => TotalUpdate(s.workers, w, Checking, DueWorker(due));
  }

  /** Over any run, with any number of new calls: at most Due(s) steps work on what is due in s. */
  lemma {:induction false} DueIsBounded(s: State, steps: seq<Step>, due: nat)
    requires RunsFrom(s, steps) && due <= |s.pushed|
    ensures WorkingSteps(s, steps, due) + Due(After(s, steps), due) <= Due(s, due)
    decreases |steps|
  {
    if steps != [] {
      DueNeverGrows(s, steps[0], due);
      DueIsBounded(Apply(s, steps[0]), steps[1..], due);
    }
  }

  function WorkingSteps(s: State, steps: seq<Step>, due: nat): nat
    requires RunsFrom(s, steps)
    decreases |steps|
  {
    if steps == [] then 0
    else (if Works(s, steps[0], due) then 1 else 0) + WorkingSteps(Apply(s, steps[0]), steps[1..], due)
  }

  // ----- Something can always be done -----

  /** The due tasks do not wait for others. */
  ghost predicate DueNeverBlocks(s: State, due: nat) {
    && (forall k :: 0 <= k < |s.queue| && s.queue[k].ticket < due ==> !WillWait(s.queue[k].program, 0))
    && (forall w :: 0 <= w < |s.workers| && s.workers[w].Running? && s.workers[w].job.ticket < due ==>
          !WillWait(s.workers[w].job.program, |s.workers[w].kept|))
  }

  lemma {:induction false} JobAfterStep(s: State, step: Step, w: nat)
    requires Enabled(s, step) && w < |s.workers| && Apply(s, step).workers[w].Running?
    ensures var k, k' := s.workers[w], Apply(s, step).workers[w];
            || (s.queue != [] && k'.job == s.queue[0] && k'.kept == [])
            || (k.Running? && k'.job.ticket == k.job.ticket
                && (WillWait(k'.job.program, |k'.kept|) ==> WillWait(k.job.program, |k.kept|)))
  {
    hide WillWait;
    if step.Advance? && step.w == w {
      NextWait(s.workers[w].job.program, |s.workers[w].kept|);
    }
  }

  lemma {:induction false} QueueAfterStep(s: State, step: Step, k: nat)
    requires Enabled(s, step) && k < |Apply(s, step).queue|
    ensures Apply(s, step).queue[k] in s.queue || Apply(s, step).queue[k].ticket == |s.pushed|
  {
    if Pops(s, step) {
      assert Apply(s, step).queue[k] == s.queue[k + 1];
    }
  }

  lemma {:induction false} DueNeverBlocksStep(s: State, step: Step, due: nat)
    requires Enabled(s, step) && due <= |s.pushed| && DueNeverBlocks(s, due)
    ensures DueNeverBlocks(Apply(s, step), due)
  {
    hide Apply, Enabled;
    var s' := Apply(s, step);
    forall k | 0 <= k < |s'.queue| && s'.queue[k].ticket < due
      ensures !WillWait(s'.queue[k].program, 0)
    {
      QueueAfterStep(s, step, k);
    }
    SameThreads(s, step);
    forall w | 0 <= w < |s'.workers| && s'.workers[w].Running? && s'.workers[w].job.ticket < due
      ensures !WillWait(s'.workers[w].job.program, |s'.workers[w].kept|)
    {
      JobAfterStep(s, step, w);
    }
  }

  lemma {:induction false} DueWitness(s: State, due: nat)
    requires Due(s, due) > 0
    ensures (exists k :: 0 <= k < |s.queue| && s.queue[k].ticket < due)
         || (exists w :: 0 <= w < |s.workers| && s.workers[w].Running? && s.workers[w].job.ticket < due)
  {
    if Total(s.queue, DueJob(due)) > 0 {
      var k := TotalWitness(s.queue, DueJob(due));
      assert s.queue[k].ticket < due;
    } else {
      var w := TotalWitness(s.workers, DueWorker(due));
      assert s.workers[w].Running? && s.workers[w].job.ticket < due;
    }
  }

  /** If any due task is queued, the next one to be taken is due. */
  lemma {:induction false} DueComesFirst(s: State, due: nat, k: nat)
    requires Inv(s) && k < |s.queue| && s.queue[k].ticket < due
    ensures s.queue[0].ticket < due
  {
    assert s.queue[0] == Job(Head(s) as nat, s.pushed[Head(s)]);
  }

  /** A running task is due if any queued one is. */
  lemma {:induction false} RunningBeforeQueued(s: State, due: nat, w: nat)
    requires Inv(s) && s.queue != [] && s.queue[0].ticket < due && w < |s.workers| && s.workers[w].Running?
    ensures s.workers[w].job.ticket < due
  {
    assert s.queue[0] == Job(Head(s) as nat, s.pushed[Head(s)]);
  }

  /** Some thread's next step works on what is due. */
  ghost predicate CanWork(s: State, due: nat) {
    exists step :: Internal(step) && Enabled(s, step) && Works(s, step, due)
  }

  lemma {:induction false} RunningDueCanWork(s: State, due: nat, w: nat)
    requires DueNeverBlocks(s, due)
    requires w < |s.workers| && s.workers[w].Running? && s.workers[w].job.ticket < due
    ensures CanWork(s, due)
  {
    var woken := SomebodyToNotify(s.workers);
    assert !Awaiting(s, w);
    assert Enabled(s, Advance(w, woken)) && Works(s, Advance(w, woken), due);
  }

  /**
   While something is due and a worker is left, some thread can work on it, or the notification that
   wakes such a thread is on its way and can be delivered.
   */
  lemma {:induction false} DueCanBeDone(s: State, due: nat)
    requires Inv(s) && DueNeverBlocks(s, due) && Due(s, due) > 0 && !AllExited(s.workers)
    ensures CanWork(s, due) ||
            exists step :: Internal(step) && Enabled(s, step) && CanWork(Apply(s, step), due)
  {
    DueWitness(s, due);
    if w :| 0 <= w < |s.workers| && s.workers[w].Running? && s.workers[w].job.ticket < due {
      RunningDueCanWork(s, due, w);
    } else {
      var k :| 0 <= k < |s.queue| && s.queue[k].ticket < due;
      DueComesFirst(s, due, k);
      QueuedDueCanBeDone(s, due);
    }
  }

  lemma {:induction false} QueuedDueCanBeDone(s: State, due: nat)
    requires Inv(s) && DueNeverBlocks(s, due) && s.queue != [] && s.queue[0].ticket < due && !AllExited(s.workers)
    ensures CanWork(s, due) ||
            exists step :: Internal(step) && Enabled(s, step) && CanWork(Apply(s, step), due)
  {
    var w :| 0 <= w < |s.workers| && !s.workers[w].Exited?;
    if s.workers[w].Running? {
      RunningBeforeQueued(s, due, w);
      RunningDueCanWork(s, due, w);
    } else if s.workers[w].Checking? {
      assert Enabled(s, Look(w)) && Works(s, Look(w), due);
    } else {
      assert s.workers[w] == Sleeping && Sleeping in s.workers;
      if Total(s.workers, LooksWeight) > 0 {
        var v := TotalWitness(s.workers, LooksWeight);
        assert Enabled(s, Look(v)) && Works(s, Look(v), due);
      } else if Total(s.workers, OwesWeight) > 0 {
        var v := TotalWitness(s.workers, OwesWeight);
        RunningBeforeQueued(s, due, v);
        RunningDueCanWork(s, due, v);
      } else {
        var c := TotalWitness(s.clients, ClientOwesWeight);
        NotificationWakesAWorker(s, due, c, w);
      }
    }
  }

  lemma {:induction false} NotificationWakesAWorker(s: State, due: nat, c: nat, w: nat)
    requires s.queue != [] && s.queue[0].ticket < due
    requires c < |s.clients| && s.clients[c].owes && w < |s.workers| && s.workers[w].Sleeping?
    ensures exists step :: Internal(step) && Enabled(s, step) && CanWork(Apply(s, step), due)
  {
    var step := Proceed(c, w);
    assert Enabled(s, step);
    var t := Apply(s, step);
    assert t.workers[w] == Checking && t.queue == s.queue;
    assert Enabled(t, Look(w)) && Works(t, Look(w), due);
    assert CanWork(t, due);
  }

  /** The thread that takes a step: a worker, a client, or somebody outside. */
  predicate StepOfWorker(step: Step, w: nat) {
    (step.Look? || step.Advance?) && step.w == w
  }

  /** What worker w can do for the due work it can still do after any step of anybody else, unless that lowered it. */
  lemma {:induction false} WorkStaysPossible(s: State, w: nat, woken: nat, other: Step, due: nat)
    requires Inv(s) && Enabled(s, other) && due <= |s.pushed| && !StepOfWorker(other, w)
    ensures (Enabled(s, Look(w)) && Works(s, Look(w), due)) ==>
              Due(Apply(s, other), due) < Due(s, due) ||
              (Enabled(Apply(s, other), Look(w)) && Works(Apply(s, other), Look(w), due))
    ensures (Enabled(s, Advance(w, woken)) && Works(s, Advance(w, woken), due)) ==>
              exists k :: Enabled(Apply(s, other), Advance(w, k)) && Works(Apply(s, other), Advance(w, k), due)
  {
    DueNeverGrows(s, other, due);
    if Enabled(s, Look(w)) && Works(s, Look(w), due) {
      LookStays(s, w, other, due);
    }
    if Enabled(s, Advance(w, woken)) && Works(s, Advance(w, woken), due) {
      AdvanceStays(s, w, woken, other, due);
    }
  }

  lemma {:induction false} LookStays(s: State, w: nat, other: Step, due: nat)
    requires Inv(s) && Enabled(s, other) && !StepOfWorker(other, w)
    requires Enabled(s, Look(w)) && Works(s, Look(w), due)
    ensures Works(s, other, due) || (Enabled(Apply(s, other), Look(w)) && Works(Apply(s, other), Look(w), due))
  {
  }

  lemma {:induction false} OthersLeaveRunning(s: State, w: nat, other: Step)
    requires Enabled(s, other) && !StepOfWorker(other, w) && w < |s.workers| && s.workers[w].Running?
    ensures var t := Apply(s, other);
            w < |t.workers| && t.workers[w] == s.workers[w] && (Awaiting(t, w) ==> Awaiting(s, w))
  {
  }

  lemma {:induction false} AdvanceStays(s: State, w: nat, woken: nat, other: Step, due: nat)
    requires Enabled(s, other) && !StepOfWorker(other, w)
    requires Enabled(s, Advance(w, woken)) && Works(s, Advance(w, woken), due)
    ensures exists k :: Enabled(Apply(s, other), Advance(w, k)) && Works(Apply(s, other), Advance(w, k), due)
  {
    var t := Apply(s, other);
    hide Apply;
    OthersLeaveRunning(s, w, other);
    var k := SomebodyToNotify(t.workers);
    assert Enabled(t, Advance(w, k)) && Works(t, Advance(w, k), due);
  }

  /** When nothing is due any more, every task pushed before `due` has finished, so whoever waits for it can go on. */
  lemma {:induction false} NothingDueMeansFinished(s: State, due: nat)
    requires Inv(s) && due <= |s.pushed| && Due(s, due) == 0
    ensures forall t: nat :: t < due ==> t in s.finished
  {
    forall t: nat | t < due
      ensures t in s.finished
    {
      if t >= Head(s) {
        QueuedIsDue(s, t, due);
        assert false;
      }
      if RunningSomewhere(s, t) {
        var w :| 0 <= w < |s.workers| && s.workers[w].Running? && s.workers[w].job.ticket == t;
        DueRunning(s.workers, w, due);
        assert false;
      }
    }
  }

  lemma {:induction false} DueQueued(queue: seq<Job>, k: nat, due: nat)
    requires k < |queue| && queue[k].ticket < due
    ensures Total(queue, DueJob(due)) > 0
  {
    if k > 0 {
      DueQueued(queue[1..], k - 1, due);
    }
  }

  lemma {:induction false} QueuedIsDue(s: State, t: nat, due: nat)
    requires Inv(s) && Head(s) <= t < |s.pushed| && t < due
    ensures Due(s, due) > 0
  {
    var k: nat := t - Head(s);
    assert s.queue[k] == Job(t, s.pushed[t]);
    DueQueued(s.queue, k, due);
  }

  lemma {:induction false} DueRunning(workers: seq<Worker>, w: nat, due: nat)
    requires w < |workers| && workers[w].Running? && workers[w].job.ticket < due
    ensures Total(workers, DueWorker(due)) > 0
  {
    if w > 0 {
      DueRunning(workers[1..], w - 1, due);
    }
  }

  /** A client that has pushed everything returns by its own steps once its last future is not due any more. */
  lemma {:induction false} ClientCanReturn(s: State, c: nat, due: nat)
    requires Inv(s) && c < |s.clients| && |s.clients[c].futures| == |s.clients[c].programs|
    requires forall k :: 0 <= k < |s.clients[c].futures| ==> s.clients[c].futures[k] < due
    requires due <= |s.pushed| && Due(s, due) == 0
    ensures ClientDone(s.clients[c]) || ClientCanProceed(s, s.clients[c])
  {
    NothingDueMeansFinished(s, due);
    assert ClientOk(s, s.clients[c]);
  }
}
