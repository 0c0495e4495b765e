/**
 Tasks that wait for other tasks. A task may enqueue tasks and get their futures, as a parallel loop
 called from inside the pool does; its worker is then blocked. The load of a program counts the tasks
 in it that get a future they keep.
 */
module PoolNesting {
  import opened Totals
  import opened PoolModel

  /** A task that keeps this many futures, with p left to do, will get one of those it keeps. */
  predicate WillWait(p: Program, kept: nat) {
    match p
    case Done => false
    case Touch(_, rest) => WillWait(rest, kept)
    case Submit(_, keep, rest) => WillWait(rest, if keep then kept + 1 else kept)
    case Await(rest) => kept > 0 || WillWait(rest, 0)
  }

  /** 1 for a program that waits, 0 for one that does not. */
  function WaitWeight(p: Program): nat {
    if WillWait(p, 0) then 1 else 0
  }

  /** The waiting tasks among those that p will yet enqueue, those that these will enqueue, and so on. */
  function ChildLoad(p: Program): nat
    decreases p, 0
  {
    match p
    case Done => 0
    case Touch(_, rest) => ChildLoad(rest)
    case Submit(child, _, rest) => ProgramLoad(child) + ChildLoad(rest)
    case Await(rest) => ChildLoad(rest)
  }

  function ProgramLoad(p: Program): nat
    decreases p, 1
  {
    WaitWeight(p) + ChildLoad(p)
  }

  /** The load of a task that has begun. */
  function BodyLoad(p: Program, kept: nat): nat {
    (if WillWait(p, kept) then 1 else 0) + ChildLoad(p)
  }

  function JobLoad(j: Job): nat { ProgramLoad(j.program) }
  function WorkerLoad(w: Worker): nat { if w.Running? then BodyLoad(w.job.program, |w.kept|) else 0 }

  function ClientLoad(c: Client): nat {
    if |c.futures| <= |c.programs| then Total(c.programs[|c.futures|..], ProgramLoad) else 0
  }

  /** The waiting tasks, among those queued, running, and still to come. */
  function Load(s: State): nat {
    Total(s.queue, JobLoad) + Total(s.workers, WorkerLoad) + Total(s.clients, ClientLoad)
  }

  lemma {:induction false} IdleWorkersLoad(workers: seq<Worker>)
    requires forall w :: 0 <= w < |workers| ==> !workers[w].Running?
    ensures Total(workers, WorkerLoad) == 0
  {
    if workers != [] {
      IdleWorkersLoad(workers[1..]);
    }
  }

  lemma NoLoadInitially(threads: nat)
    ensures Load(Initial(threads)) == 0
  {
    IdleWorkersLoad(Initial(threads).workers);
  }

  // ----- The load never grows by itself -----

  lemma {:induction false} NotifiedLoad(workers: seq<Worker>, woken: nat)
    ensures Total(Notified(workers, woken), WorkerLoad) == Total(workers, WorkerLoad)
  {
    if woken < |workers| && workers[woken].Sleeping? {
      TotalUpdate(workers, woken, Checking, WorkerLoad);
    }
  }

  lemma {:induction false} WokenLoad(workers: seq<Worker>)
    ensures Total(Woken(workers), WorkerLoad) == Total(workers, WorkerLoad)
  {
    if workers != [] {
      WokenLoad(workers[1..]);
      assert Woken(workers)[1..] == Woken(workers[1..]);
    }
  }

  lemma {:induction false} AdvanceLoad(s: State, w: nat, woken: nat)
    requires Enabled(s, Advance(w, woken))
    ensures Load(Apply(s, Advance(w, woken))) <= Load(s)
  {
    var job := s.workers[w].job;
    var s' := Apply(s, Advance(w, woken));
    if s.workers[w].owes {
      var to := Running(job, false, s.workers[w].kept);
      TotalUpdate(s.workers, w, to, WorkerLoad);
      NotifiedLoad(s.workers[w := to], woken);
    } else {
      if job.program.Submit? {
        TotalAppend(s.queue, Job(|s.pushed|, job.program.child), JobLoad);
      }
      TotalUpdate(s.workers, w, s'.workers[w], WorkerLoad);
      assert s'.workers == s.workers[w := s'.workers[w]];
      ActionLoad(s, w, woken);
    }
  }

  /** A task's own action leaves the load as it is, unless it gets a future that it keeps. */
  lemma {:induction false} ActionLoad(s: State, w: nat, woken: nat)
    requires Enabled(s, Advance(w, woken)) && !s.workers[w].owes
    ensures var s' := Apply(s, Advance(w, woken));
            var p := s.workers[w].job.program;
            && WorkerLoad(s'.workers[w]) + (if p.Submit? then ProgramLoad(p.child) else 0) <= WorkerLoad(s.workers[w])
            && (!AtGet(s.workers[w]) ==>
                  WorkerLoad(s'.workers[w]) + (if p.Submit? then ProgramLoad(p.child) else 0)
                  == WorkerLoad(s.workers[w]))
            && s'.queue == (if p.Submit? then s.queue + [Job(|s.pushed|, p.child)] else s.queue)
            && s'.clients == s.clients
  {
    hide ProgramLoad, BodyLoad;
    NextLoad(s.workers[w].job.program, |s.workers[w].kept|);
  }

  /** The task's next action is to get a future that it keeps. */
  predicate AtGet(k: Worker) {
    k.Running? && !k.owes && k.job.program.Await? && k.kept != []
  }

  /** One action does not make a task wait that did not, and only getting a future ends its waiting. */
  lemma NextWait(p: Program, kept: nat)
    ensures p.Touch? ==> WillWait(p.rest, kept) == WillWait(p, kept)
    ensures p.Submit? ==> WillWait(p.rest, if p.kept then kept + 1 else kept) == WillWait(p, kept)
    ensures p.Await? && kept > 0 ==> WillWait(p, kept)
    ensures p.Await? && kept == 0 ==> WillWait(p.rest, 0) == WillWait(p, 0)
    ensures p.Done? ==> !WillWait(p, kept)
  {
  }

  /** What one action of a program does to its load. */
  lemma NextLoad(p: Program, kept: nat)
    ensures p.Done? ==> BodyLoad(p, kept) == 0
    ensures p.Touch? ==> BodyLoad(p.rest, kept) == BodyLoad(p, kept)
    ensures p.Submit? ==>
              ProgramLoad(p.child) + BodyLoad(p.rest, if p.kept then kept + 1 else kept) == BodyLoad(p, kept)
    ensures p.Await? && kept > 0 ==> BodyLoad(p.rest, kept - 1) <= BodyLoad(p, kept)
    ensures p.Await? && kept == 0 ==> BodyLoad(p.rest, 0) == BodyLoad(p, 0)
  {
  }

  lemma {:induction false} ProceedLoad(s: State, i: nat, woken: nat)
    requires Inv(s) && Enabled(s, Proceed(i, woken))
    ensures Load(Apply(s, Proceed(i, woken))) <= Load(s)
  {
    hide FifoOk, RunningOk, FuturesOk, LogOk, WakeOk, StopOk, ProgramLoad;
    var c := s.clients[i];
    assert ClientOk(s, c);
    var c' := Apply(s, Proceed(i, woken)).clients[i];
    TotalUpdate(s.clients, i, c', ClientLoad);
    if c.owes {
      NotifiedLoad(s.workers, woken);
    } else if |c.futures| < |c.programs| {
      TotalAppend(s.queue, Job(|s.pushed|, c.programs[|c.futures|]), JobLoad);
      assert c.programs[|c.futures|..][1..] == c.programs[|c.futures| + 1..];
    }
  }

  /** Only a new call adds load, and exactly that of its programs. */
  lemma {:induction false} LoadAfterStep(s: State, step: Step)
    requires Inv(s) && Enabled(s, step)
    ensures Load(Apply(s, step)) <= Load(s) + if step.Call? then Total(step.programs, ProgramLoad) else 0
  {
    match step
    case Look(w) => TotalUpdate(s.workers, w, Apply(s, step).workers[w], WorkerLoad);
    case Advance(w, woken) => AdvanceLoad(s, w, woken);
    case Proceed(c, woken) => ProceedLoad(s, c, woken);
    case WakeAll => WokenLoad(s.workers);
    case BeginStop =>
    case Call(programs, waits) =>
      TotalAppend(s.clients, Client(programs, waits, [], false, 0), ClientLoad);
      assert programs[0..] == programs;
    case Spurious(w) => TotalUpdate(s.workers, w, Checking, WorkerLoad);
  }

  // ----- Deadlock -----

  /** Every worker that is left is blocked in a task, waiting for one that has not finished. */
  ghost predicate Deadlocked(s: State) {
    && (forall w :: 0 <= w < |s.workers| ==> s.workers[w].Exited? || Awaiting(s, w))
    && exists w :: 0 <= w < |s.workers| && !s.workers[w].Exited?
  }

  lemma {:induction false} BlockedWorkersAreLoad(workers: seq<Worker>)
    requires forall w :: 0 <= w < |workers| ==>
               workers[w].Running? && WillWait(workers[w].job.program, |workers[w].kept|)
    ensures Total(workers, WorkerLoad) >= |workers|
  {
    if workers != [] {
      BlockedWorkersAreLoad(workers[1..]);
    }
  }

  lemma {:induction false} BlockedWorkerIsLoad(workers: seq<Worker>, w: nat)
    requires w < |workers| && workers[w].Running? && WillWait(workers[w].job.program, |workers[w].kept|)
    ensures Total(workers, WorkerLoad) >= 1
  {
    if w > 0 {
      BlockedWorkerIsLoad(workers[1..], w - 1);
    }
  }

  /** As long as there are fewer waiting tasks than workers, a running pool does not deadlock. */
  lemma {:induction false} LightLoadHasNoDeadlock(s: State)
    requires Inv(s) && !s.stopping && Load(s) < |s.workers|
    ensures !Deadlocked(s)
  {
    if Deadlocked(s) {
      forall w | 0 <= w < |s.workers|
        ensures s.workers[w].Running? && WillWait(s.workers[w].job.program, |s.workers[w].kept|)
      {
        assert s.workers[w].Exited? ==> Exited in s.workers;
        assert s.workers[w].Exited? || Awaiting(s, w);
      }
      BlockedWorkersAreLoad(s.workers);
      assert false;
    }
  }

  /** Without any such task no pool deadlocks, not even one that is stopping. */
  lemma {:induction false} NoLoadHasNoDeadlock(s: State)
    requires Load(s) == 0
    ensures !Deadlocked(s)
  {
    if Deadlocked(s) {
      var w :| 0 <= w < |s.workers| && !s.workers[w].Exited?;
      assert Awaiting(s, w);
      BlockedWorkerIsLoad(s.workers, w);
      assert false;
    }
  }

  lemma {:induction false} DeadlockAfterStep(s: State, step: Step)
    requires Deadlocked(s) && Enabled(s, step)
    ensures Deadlocked(Apply(s, step)) && Apply(s, step).finished == s.finished
    ensures Apply(s, step).workers == s.workers
  {
    assert forall w :: 0 <= w < |s.workers| ==> s.workers[w].Exited? || Awaiting(s, w);
    assert Apply(s, step).workers == s.workers;
    assert forall w :: 0 <= w < |s.workers| ==> Awaiting(Apply(s, step), w) == Awaiting(s, w);
  }

  /** A deadlock lasts: whatever other threads still do, no task finishes any more. */
  lemma {:induction false} DeadlockIsForever(s: State, steps: seq<Step>)
    requires Deadlocked(s) && RunsFrom(s, steps)
    ensures Deadlocked(After(s, steps)) && After(s, steps).finished == s.finished
    ensures After(s, steps).workers == s.workers
    decreases |steps|
  {
    if steps != [] {
      DeadlockAfterStep(s, steps[0]);
      DeadlockIsForever(Apply(s, steps[0]), steps[1..]);
    }
  }
}
