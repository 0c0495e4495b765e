/**
 The pool as an object: its fields change one critical section at a time, in the order an arbitrary
 scheduler chooses.
 */
module ThreadPools {
  import opened Options
  import opened Totals
  import opened PoolModel
  import opened PoolInvariant
  import opened PoolNesting
  import opened PoolProgress

  class ThreadPool {
    var tasks: seq<Job>
    var stopping: bool
    var wakeAll: bool
    var threads: seq<Worker>
    // What the model records about the threads outside the pool and about the past.
    var clients: seq<Client>
    var pushed: seq<Program>
    var finished: set<nat>
    var log: seq<Event>
    var sealed: Option<nat>

    function View(): State
      reads this
    {
      State(tasks, stopping, wakeAll, threads, clients, pushed, finished, log, sealed)
    }

    ghost predicate Valid()
      reads this
    {
      Inv(View())
    }

    /** Nobody has begun to destroy the pool, and it has a worker to spare for every task that waits. */
    ghost predicate Ready()
      reads this
    {
      Valid() && !stopping && Load(View()) < |threads|
    }

    /** start(): a pool is ready exactly if it has a worker. */
    constructor (numThreads: nat)
      ensures View() == Initial(numThreads) && Valid()
      ensures Ready() <==> numThreads >= 1
      ensures Size() == numThreads && forall w :: 0 <= w < numThreads ==> threads[w].Checking?
    {
      tasks, stopping, wakeAll := [], false, false;
      threads := seq(numThreads, _ => Checking);
      clients, pushed, finished, log := [], [], {}, [];
      sealed := if numThreads == 0 then Some(0) else None;
      new;
      InitialInv(numThreads);
      assert View() == Initial(numThreads);
      NoLoadInitially(numThreads);
    }

    function Size(): (n: nat)
      reads this
    {
      |threads|
    }

    /** The critical section of the worker loop: wait, and leave or take a task. */
    method WaitForTask(w: nat)
      requires Valid() && Enabled(View(), Look(w))
      modifies this
      ensures Valid() && View() == Apply(old(View()), Look(w))
    {
      hide Inv;
      StepKeepsInv(View(), Look(w));
      if stopping && tasks == [] {
        threads := threads[w := Exited];
        if AllExited(threads) {
          sealed := Some(|pushed|);
        }
      } else if tasks != [] {
        var task := tasks[0];
        tasks := tasks[1..];
        threads := threads[w := Running(task, false, [])];
      } else {
        threads := threads[w := Sleeping];
      }
    }

    /** Push a task; the first half of either enqueue overload. */
    method Push(program: Program)
      modifies this
      ensures View() == Pushed(old(View()), program)
    {
      tasks := tasks + [Job(|pushed|, program)];
      pushed := pushed + [program];
    }

    /** notify_one: the second half of either enqueue overload. */
    method NotifyOne(woken: nat)
      modifies this`threads
      ensures threads == Notified(old(threads), woken)
    {
      if woken < |threads| && threads[woken].Sleeping? {
        threads := threads[woken := Checking];
      }
    }

    /** One action of the task worker w is running. */
    method RunTask(w: nat, woken: nat)
      requires Valid() && Enabled(View(), Advance(w, woken))
      modifies this
      ensures Valid() && View() == Apply(old(View()), Advance(w, woken))
    {
      hide Inv;
      StepKeepsInv(View(), Advance(w, woken));
      var job, kept := threads[w].job, threads[w].kept;
      if threads[w].owes {
        threads := threads[w := Running(job, false, kept)];
        NotifyOne(woken);
      } else {
        match job.program
        case Done =>
          finished := finished + {job.ticket};
          threads := threads[w := Checking];
        case Touch(index, rest) =>
          log := log + [Event(job.ticket, index)];
          threads := threads[w := Running(Job(job.ticket, rest), false, kept)];
        case Submit(child, keep, rest) =>
          if keep {
            kept := kept + [|pushed|];
          }
          Push(child);
          threads := threads[w := Running(Job(job.ticket, rest), true, kept)];
        case Await(rest) =>
          if kept != [] {
            kept := kept[1..];
          }
          threads := threads[w := Running(Job(job.ticket, rest), false, kept)];
      }
    }

    /** One action of a thread that enqueues tasks and waits for their futures. */
    method RunClient(c: nat, woken: nat)
      requires Valid() && Enabled(View(), Proceed(c, woken))
      modifies this
      ensures Valid() && View() == Apply(old(View()), Proceed(c, woken))
    {
      hide Inv;
      StepKeepsInv(View(), Proceed(c, woken));
      var client := clients[c];
      if client.owes {
        NotifyOne(woken);
        clients := clients[c := client.(owes := false)];
      } else if |client.futures| < |client.programs| {
        var ticket := |pushed|;
        Push(client.programs[|client.futures|]);
        clients := clients[c := client.(futures := client.futures + [ticket], owes := true)];
      } else {
        clients := clients[c := client.(got := client.got + 1)];
      }
    }

    /** The flag-setting half of stop(). */
    method SetStopping()
      requires Valid() && !stopping
      modifies this
      ensures Valid() && View() == Apply(old(View()), BeginStop)
    {
      StepKeepsInv(View(), BeginStop);
      stopping, wakeAll := true, true;
    }

    method NotifyAll()
      requires Valid() && wakeAll
      modifies this
      ensures Valid() && View() == Apply(old(View()), WakeAll)
    {
      StepKeepsInv(View(), WakeAll);
      threads, wakeAll := Woken(threads), false;
    }

    /** A thread starts to enqueue these tasks in order; with `waits` it will get their futures. */
    method Register(programs: seq<Program>, waits: bool) returns (c: nat)
      requires Valid()
      modifies this
      ensures Valid() && View() == Apply(old(View()), Call(programs, waits))
      ensures c == |old(clients)|
    {
      StepKeepsInv(View(), Call(programs, waits));
      c := |clients|;
      clients := clients + [Client(programs, waits, [], false, 0)];
    }

    /** The scheduler: some thread that can move takes its next step. */
    method Schedule() returns (step: Step)
      requires Valid() && !Stuck(View())
      modifies this
      ensures Internal(step) && Enabled(old(View()), step)
      ensures Valid() && View() == Apply(old(View()), step)
    {
      hide Inv;
      var woken := 0;
      if exists k :: 0 <= k < |threads| && threads[k].Sleeping? {
        woken :| 0 <= woken < |threads| && threads[woken].Sleeping?;
      }
      assert NotifyPicks(threads, woken);
      SomeStepIsVisible(View());
      if
      case wakeAll =>
        step := WakeAll;
        NotifyAll();
      case exists w :: 0 <= w < |threads| && threads[w].Checking? =>
        var w :| 0 <= w < |threads| && threads[w].Checking?;
        step := Look(w);
        WaitForTask(w);
      case exists w :: 0 <= w < |threads| && threads[w].Running? && !Awaiting(View(), w) =>
        var w :| 0 <= w < |threads| && threads[w].Running? && !Awaiting(View(), w);
        step := Advance(w, woken);
        RunTask(w, woken);
      case exists c :: 0 <= c < |clients| && ClientCanProceed(View(), clients[c]) =>
        var c :| 0 <= c < |clients| && ClientCanProceed(View(), clients[c]);
        step := Proceed(c, woken);
        RunClient(c, woken);
    }

    /**
     A call from outside the pool: enqueue the tasks and get every future. With a worker to spare for
     every task that waits it returns, and by then its tasks have processed exactly their elements.
     The pool remembers the call as a client that has got all its futures.
     */
    method CallAndWait(programs: seq<Program>) returns (order: seq<int>)
      requires Valid() && !stopping && Load(View()) + Total(programs, ProgramLoad) < Size()
      modifies this
      ensures Ready() && Size() == old(Size())
      ensures Load(View()) <= old(Load(View())) + Total(programs, ProgramLoad)
      ensures multiset(order) == Bodies(programs)
      ensures |clients| == |old(clients)| + 1 && clients[|old(clients)|].programs == programs
      ensures clients[|old(clients)|].waits && ClientDone(clients[|old(clients)|])
    {
      LoadAfterStep(View(), Call(programs, true));
      var c := Register(programs, true);
      while !ClientDone(clients[c])
        invariant Ready() && Size() == old(Size())
        invariant Load(View()) <= old(Load(View())) + Total(programs, ProgramLoad)
        invariant c == |old(clients)| && |clients| == c + 1 && clients[c].programs == programs && clients[c].waits
        decreases Measure(View())
      {
        WaitingIsNotStuck(View(), c);
        TakeStep();
      }
      ClientWorkDoneOnce(View(), c);
      order := OrderOf(log, clients[c].futures);
    }

    /**
     stop(): raise the flag, wake everybody, and join. If no task waits it returns, and unless the
     pool never had a worker, every task that was pushed has run.
     */
    method Stop()
      requires Valid() && !stopping && Load(View()) == 0
      modifies this
      ensures Valid() && AllExited(threads) && Size() == old(Size())
      ensures Size() > 0 ==> forall t: nat :: t < |pushed| ==> t in finished && LogOf(log, t) == Touches(pushed[t])
      ensures Size() == 0 ==> finished == old(finished)
    {
      if threads == [] {
        SetStopping();
        return;
      }
      NobodyLeft(View());
      LoadAfterStep(View(), BeginStop);
      SetStopping();
      while !AllExited(threads)
        invariant Valid() && stopping && Load(View()) == 0 && Size() == old(Size())
        invariant AllExited(threads) ==> sealed == Some(|pushed|)
        decreases Measure(View())
      {
        StoppingIsNotStuck(View());
        TakeStep();
      }
      StopDrains(View());
    }

    /** One step of the scheduler, with what it leaves alone. */
    method TakeStep()
      requires Valid() && !Stuck(View())
      modifies this
      ensures Valid() && Measure(View()) < old(Measure(View()))
      ensures Load(View()) <= old(Load(View()))
      ensures stopping == old(stopping) && Size() == old(Size())
      ensures |clients| == |old(clients)|
      ensures forall c :: 0 <= c < |clients| ==>
                clients[c].programs == old(clients)[c].programs && clients[c].waits == old(clients)[c].waits
      ensures !AllExited(old(threads)) && AllExited(threads) ==> sealed == Some(|pushed|)
    {
      ghost var before := View();
      var step := Schedule();
      InternalStepDecreases(before, step);
      InternalStepFrame(before, step);
      LoadAfterStep(before, step);
    }
  }

  lemma {:induction false} SomeStepIsVisible(s: State)
    requires !Stuck(s)
    ensures s.wakeAll || (exists w :: 0 <= w < |s.workers| && s.workers[w].Checking?)
            || (exists w :: 0 <= w < |s.workers| && s.workers[w].Running? && !Awaiting(s, w))
            || (exists c :: 0 <= c < |s.clients| && ClientCanProceed(s, s.clients[c]))
  {
    var step :| Internal(step) && Enabled(s, step);
    match step
    case Look(w) => assert s.workers[w].Checking?;
    case Advance(w, _) => assert s.workers[w].Running? && !Awaiting(s, w);
    case Proceed(c, _) => assert ClientCanProceed(s, s.clients[c]);
    case WakeAll =>
  }
}
