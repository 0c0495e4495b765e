/**
 Where the work goes: nested tasks included, every element of a call is processed as often as the call
 says, and a task gets its futures in the order in which it kept them.
 */
module PoolWork {
  import opened Totals
  import opened PoolModel
  import opened PoolInvariant

  // ----- Conservation -----

  /** How often a task, the tasks it enqueues, the tasks these enqueue, and so on process element q. */
  function Times(p: Program, q: int): nat {
    match p
    case Done => 0
    case Touch(i, rest) => (if i == q then 1 else 0) + Times(rest, q)
    case Submit(child, _, rest) => Times(child, q) + Times(rest, q)
    case Await(rest) => Times(rest, q)
  }

  function ProgramTimes(q: int): Program -> nat { (p: Program) => Times(p, q) }
  function JobTimes(q: int): Job -> nat { (j: Job) => Times(j.program, q) }
  function WorkerTimes(q: int): Worker -> nat { (w: Worker) => if w.Running? then Times(w.job.program, q) else 0 }

  /** What a client has yet to enqueue. */
  function ClientTimes(q: int): Client -> nat {
    (c: Client) => if |c.futures| <= |c.programs| then Total(c.programs[|c.futures|..], ProgramTimes(q)) else 0
  }

  /** How often element q has yet to be processed: by tasks that wait, run, or are still to come. */
  function Left(s: State, q: int): nat {
    Total(s.queue, JobTimes(q)) + Total(s.workers, WorkerTimes(q)) + Total(s.clients, ClientTimes(q))
  }

  /** How often it has been processed. */
  function Hits(log: seq<Event>, q: int): nat {
    if log == [] then 0 else Hits(log[..|log| - 1], q) + if log[|log| - 1].index == q then 1 else 0
  }

  lemma HitsAppend(log: seq<Event>, e: Event, q: int)
    ensures Hits(log + [e], q) == Hits(log, q) + if e.index == q then 1 else 0
  {
    assert (log + [e])[..|log|] == log;
  }

  lemma {:induction false} NotifiedTimes(workers: seq<Worker>, woken: nat, q: int)
    ensures Total(Notified(workers, woken), WorkerTimes(q)) == Total(workers, WorkerTimes(q))
  {
    if woken < |workers| && workers[woken].Sleeping? {
      TotalUpdate(workers, woken, Checking, WorkerTimes(q));
    }
  }

  lemma {:induction false} WokenTimes(workers: seq<Worker>, q: int)
    ensures Total(Woken(workers), WorkerTimes(q)) == Total(workers, WorkerTimes(q))
  {
    if workers != [] {
      WokenTimes(workers[1..], q);
      assert Woken(workers)[1..] == Woken(workers[1..]);
    }
  }

  lemma {:induction false} WorkAfterLook(s: State, w: nat, q: int)
    requires Enabled(s, Look(w))
    ensures Left(Apply(s, Look(w)), q) == Left(s, q) && Apply(s, Look(w)).log == s.log
  {
    TotalUpdate(s.workers, w, Apply(s, Look(w)).workers[w], WorkerTimes(q));
  }

  lemma {:induction false} WorkAfterAdvance(s: State, w: nat, woken: nat, q: int)
    requires Enabled(s, Advance(w, woken))
    ensures var t := Apply(s, Advance(w, woken));
            Left(t, q) + Hits(t.log, q) == Left(s, q) + Hits(s.log, q)
  {
    if s.workers[w].owes {
      var to := Running(s.workers[w].job, false, s.workers[w].kept);
      TotalUpdate(s.workers, w, to, WorkerTimes(q));
      NotifiedTimes(s.workers[w := to], woken, q);
    } else {
      hide Apply, Enabled, Hits;
      var job, t := s.workers[w].job, Apply(s, Advance(w, woken));
      ActionFrame(s, w, woken);
      TotalUpdate(s.workers, w, t.workers[w], WorkerTimes(q));
      if job.program.Touch? {
        HitsAppend(s.log, Event(job.ticket, job.program.index), q);
      } else if job.program.Submit? {
        TotalAppend(s.queue, Job(|s.pushed|, job.program.child), JobTimes(q));
      }
    }
  }

  /** What a task's own action changes: its worker, and the log or the queue. */
  lemma {:induction false} ActionFrame(s: State, w: nat, woken: nat)
    requires Enabled(s, Advance(w, woken)) && !s.workers[w].owes
    ensures w < |s.workers| && |Apply(s, Advance(w, woken)).workers| == |s.workers|
    ensures var p, t := s.workers[w].job.program, Apply(s, Advance(w, woken));
            && t.workers == s.workers[w := t.workers[w]] && t.clients == s.clients
            && t.queue == (if p.Submit? then s.queue + [Job(|s.pushed|, p.child)] else s.queue)
            && t.log == (if p.Touch? then s.log + [Event(s.workers[w].job.ticket, p.index)] else s.log)
            && (t.workers[w].Running? <==> !p.Done?)
            && (!p.Done? ==> t.workers[w].job.program == p.rest)
  {
  }

  lemma {:induction false} WorkAfterProceed(s: State, i: nat, woken: nat, q: int)
    requires Enabled(s, Proceed(i, woken))
    ensures Left(Apply(s, Proceed(i, woken)), q) == Left(s, q) && Apply(s, Proceed(i, woken)).log == s.log
  {
    var c := s.clients[i];
    TotalUpdate(s.clients, i, Apply(s, Proceed(i, woken)).clients[i], ClientTimes(q));
    if c.owes {
      NotifiedTimes(s.workers, woken, q);
    } else if |c.futures| < |c.programs| {
      TotalAppend(s.queue, Job(|s.pushed|, c.programs[|c.futures|]), JobTimes(q));
      assert c.programs[|c.futures|..][1..] == c.programs[|c.futures| + 1..];
    }
  }

  /** A step moves work from what is left to what is done, one element at a time; only a call adds any. */
  lemma {:induction false} WorkAfterStep(s: State, step: Step, q: int)
    requires Enabled(s, step)
    ensures var t := Apply(s, step);
            Left(t, q) + Hits(t.log, q)
            == Left(s, q) + Hits(s.log, q) + if step.Call? then Total(step.programs, ProgramTimes(q)) else 0
  {
    match step
    case Look(w) => WorkAfterLook(s, w, q);
    case Advance(w, woken) => WorkAfterAdvance(s, w, woken, q);
    case Proceed(c, woken) => WorkAfterProceed(s, c, woken, q);
    case WakeAll => WokenTimes(s.workers, q);
    case BeginStop =>
    case Call(programs, waits) =>
      TotalAppend(s.clients, Client(programs, waits, [], false, 0), ClientTimes(q));
      assert programs[0..] == programs;
    case Spurious(w) => TotalUpdate(s.workers, w, Checking, WorkerTimes(q));
  }

  /** How often the calls of a run ask for element q. */
  function Asked(steps: seq<Step>, q: int): nat {
    if steps == [] then 0
    else (if steps[0].Call? then Total(steps[0].programs, ProgramTimes(q)) else 0) + Asked(steps[1..], q)
  }

  lemma {:induction false} WorkAfterRun(s: State, steps: seq<Step>, q: int)
    requires RunsFrom(s, steps)
    ensures var t := After(s, steps);
            Left(t, q) + Hits(t.log, q) == Left(s, q) + Hits(s.log, q) + Asked(steps, q)
    decreases |steps|
  {
    hide Apply, Enabled, Left, Hits;
    if steps != [] {
      WorkAfterStep(s, steps[0], q);
      WorkAfterRun(Apply(s, steps[0]), steps[1..], q);
    }
  }

  lemma {:induction false} NothingLeft<T>(s: seq<T>, f: T -> nat)
    requires forall i :: 0 <= i < |s| ==> f(s[i]) == 0
    ensures Total(s, f) == 0
  {
    if s != [] {
      NothingLeft(s[1..], f);
    }
  }

  /** All clients have enqueued their tasks, and all tasks have finished. */
  ghost predicate AllFinished(s: State) {
    && (forall t: nat :: t < |s.pushed| ==> t in s.finished)
    && (forall c :: 0 <= c < |s.clients| ==> |s.clients[c].futures| == |s.clients[c].programs|)
  }

  lemma QueuedIsUnfinished(s: State)
    requires Inv(s) && s.queue != []
    ensures exists t: nat :: t < |s.pushed| && t !in s.finished
  {
    var next: nat := Head(s);
    assert next < |s.pushed| && next !in s.finished;
  }

  lemma {:induction false} FinishedLeavesNothing(s: State, q: int)
    requires Inv(s) && AllFinished(s)
    ensures Left(s, q) == 0
  {
    if s.queue != [] {
      QueuedIsUnfinished(s);
      assert false;
    }
    forall w | 0 <= w < |s.workers|
      ensures !s.workers[w].Running?
    {
    }
    NothingLeft(s.workers, WorkerTimes(q));
    NothingLeft(s.clients, ClientTimes(q));
  }

  /**
   Conservation: at every moment of every run, the times an element has been processed and the times it
   still will be add up to what the calls asked for, counting the tasks that tasks enqueue. So when all
   tasks have finished, each element has been processed exactly as often as asked.
   */
  lemma {:induction false} WorkIsConserved(threads: nat, steps: seq<Step>, q: int)
    requires RunsFrom(Initial(threads), steps)
    ensures var s := After(Initial(threads), steps);
            && Left(s, q) + Hits(s.log, q) == Asked(steps, q)
            && (AllFinished(s) ==> Hits(s.log, q) == Asked(steps, q))
  {
    var s := After(Initial(threads), steps);
    WorkAfterRun(Initial(threads), steps, q);
    NothingLeft(Initial(threads).workers, WorkerTimes(q));
    if AllFinished(s) {
      InitialInv(threads);
      RunKeepsInv(Initial(threads), steps);
      FinishedLeavesNothing(s, q);
    }
  }

  // ----- Futures -----

  /** Worker w's own action on its task, other than the notification it owes. */
  predicate Acts(s: State, step: Step, w: nat) {
    step.Advance? && step.w == w && w < |s.workers| && s.workers[w].Running? && !s.workers[w].owes
  }

  /** The futures that worker w's task keeps in this step: none, or that of the task it pushes. */
  function KeptBy(s: State, step: Step, w: nat): seq<nat> {
    if Acts(s, step, w) && s.workers[w].job.program.Submit? && s.workers[w].job.program.kept then [|s.pushed|] else []
  }

  /** The number of kept futures that worker w's task gets in this step. */
  function GotBy(s: State, step: Step, w: nat): nat {
    if Acts(s, step, w) && s.workers[w].job.program.Await? && s.workers[w].kept != [] then 1 else 0
  }

  function KeptIn(s: State, steps: seq<Step>, w: nat): seq<nat>
    requires RunsFrom(s, steps)
    decreases |steps|
  {
    if steps == [] then [] else KeptBy(s, steps[0], w) + KeptIn(Apply(s, steps[0]), steps[1..], w)
  }

  function GotIn(s: State, steps: seq<Step>, w: nat): nat
    requires RunsFrom(s, steps)
    decreases |steps|
  {
    if steps == [] then 0 else GotBy(s, steps[0], w) + GotIn(Apply(s, steps[0]), steps[1..], w)
  }

  /** Worker w still runs the task with this ticket. */
  predicate On(s: State, w: nat, ticket: nat) {
    w < |s.workers| && s.workers[w].Running? && s.workers[w].job.ticket == ticket
  }

  /** What a worker keeps is changed by its own task only. */
  lemma {:induction false} OthersLeaveKept(s: State, step: Step, w: nat, ticket: nat)
    requires Enabled(s, step) && On(s, w, ticket) && On(Apply(s, step), w, ticket) && !Acts(s, step, w)
    ensures Apply(s, step).workers[w].kept == s.workers[w].kept
  {
  }

  lemma {:induction false} KeptStep(s: State, step: Step, w: nat, ticket: nat)
    requires Enabled(s, step) && On(s, w, ticket) && On(Apply(s, step), w, ticket)
    ensures var k, k' := s.workers[w].kept, Apply(s, step).workers[w].kept;
            && GotBy(s, step, w) <= 1
            && (GotBy(s, step, w) == 0 ==> k' == k + KeptBy(s, step, w))
            && (GotBy(s, step, w) == 1 ==> k != [] && k' == k[1..] && k[0] in s.finished && KeptBy(s, step, w) == [])
  {
    if !Acts(s, step, w) {
      hide Apply, Enabled;
      OthersLeaveKept(s, step, w, ticket);
    }
  }

  lemma FinishedStays(s: State, step: Step)
    requires Enabled(s, step)
    ensures s.finished <= Apply(s, step).finished
  {
  }

  lemma {:induction false} FinishedStaysFinished(s: State, steps: seq<Step>)
    requires RunsFrom(s, steps)
    ensures s.finished <= After(s, steps).finished
    decreases |steps|
  {
    if steps != [] {
      FinishedStays(s, steps[0]);
      FinishedStaysFinished(Apply(s, steps[0]), steps[1..]);
    }
  }

  /** A worker leaves its task only by finishing it. */
  lemma {:induction false} LeavesByFinishing(s: State, step: Step, w: nat, ticket: nat)
    requires Enabled(s, step) && On(s, w, ticket)
    ensures On(Apply(s, step), w, ticket) || ticket in Apply(s, step).finished
  {
  }

  lemma NotFinishedYet(s: State, w: nat, ticket: nat)
    requires Inv(s) && On(s, w, ticket)
    ensures ticket !in s.finished
  {
  }

  lemma {:induction false} StaysOn(s: State, step: Step, steps: seq<Step>, w: nat, ticket: nat)
    requires Inv(s) && Enabled(s, step) && RunsFrom(Apply(s, step), steps)
    requires On(s, w, ticket) && On(After(Apply(s, step), steps), w, ticket)
    ensures On(Apply(s, step), w, ticket)
  {
    hide Inv, Apply, Enabled, On;
    var t := Apply(s, step);
    LeavesByFinishing(s, step, w, ticket);
    if !On(t, w, ticket) {
      FinishedStaysFinished(t, steps);
      StepKeepsInv(s, step);
      RunKeepsInv(t, steps);
      NotFinishedYet(After(t, steps), w, ticket);
      assert false;
    }
  }

  /** All the futures kept so far are those that the task has got, all of finished tasks, and those it holds. */
  ghost predicate GotFirst(s: State, w: nat, all: seq<nat>, got: nat)
    requires w < |s.workers| && s.workers[w].Running?
  {
    got <= |all| && s.workers[w].kept == all[got..] && forall i :: 0 <= i < got ==> all[i] in s.finished
  }

  lemma {:induction false} OneMoreGot(s: State, w: nat, first: nat, all: seq<nat>, got: nat)
    requires w < |s.workers| && s.workers[w].Running? && GotFirst(s, w, all, got) && first in s.finished
    ensures GotFirst(s, w, [first] + all, got + 1)
  {
    assert ([first] + all)[got + 1..] == all[got..];
  }

  lemma NoneGot(s: State, w: nat)
    requires w < |s.workers| && s.workers[w].Running?
    ensures GotFirst(s, w, s.workers[w].kept + [], 0)
  {
  }

  lemma {:induction false} GetsOn(s: State, steps: seq<Step>, w: nat, ticket: nat)
    requires Inv(s) && RunsFrom(s, steps) && On(s, w, ticket) && On(After(s, steps), w, ticket)
    ensures GotFirst(After(s, steps), w, s.workers[w].kept + KeptIn(s, steps, w), GotIn(s, steps, w))
    decreases |steps|
  {
    hide Inv, Apply, Enabled, KeptBy, GotBy, GotFirst;
    if steps == [] {
      NoneGot(s, w);
    } else {
      var t, end := Apply(s, steps[0]), After(s, steps);
      StepKeepsInv(s, steps[0]);
      StaysOn(s, steps[0], steps[1..], w, ticket);
      KeptStep(s, steps[0], w, ticket);
      GetsOn(t, steps[1..], w, ticket);
      var k, later := s.workers[w].kept, KeptIn(t, steps[1..], w);
      if GotBy(s, steps[0], w) == 0 {
        assert k + (KeptBy(s, steps[0], w) + later) == t.workers[w].kept + later;
      } else {
        FinishedStaysFinished(s, steps);
        OneMoreGot(end, w, k[0], t.workers[w].kept + later, GotIn(t, steps[1..], w));
        assert k + ([] + later) == [k[0]] + (k[1..] + later);
      }
    }
  }

  /**
   A task gets its futures in the order in which it kept them: in every run from the moment a worker takes
   it, after n gets of a kept future the first n tasks it kept have finished, and it holds the others.
   */
  lemma {:induction false} GetsInOrder(s: State, w: nat, steps: seq<Step>)
    requires Inv(s) && Enabled(s, Look(w)) && s.queue != []
    requires RunsFrom(Apply(s, Look(w)), steps)
    requires On(After(Apply(s, Look(w)), steps), w, s.queue[0].ticket)
    ensures var t := Apply(s, Look(w));
            GotFirst(After(t, steps), w, KeptIn(t, steps, w), GotIn(t, steps, w))
  {
    hide Inv, RunsFrom, After;
    var t := Apply(s, Look(w));
    StepKeepsInv(s, Look(w));
    GetsOn(t, steps, w, s.queue[0].ticket);
    assert t.workers[w].kept + KeptIn(t, steps, w) == KeptIn(t, steps, w);
  }
}
