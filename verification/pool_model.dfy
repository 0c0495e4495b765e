/**
 The thread pool as a step system. Every step is one critical section under the pool's mutex, one
 notification, or one action of a running task; a run is any sequence of enabled steps, so it covers
 every schedule of the worker threads and of the threads that use the pool.
 */
module PoolModel {
  import opened Options
  import opened Totals

  /**
   The body of a task: process one element; put another task on the pool, keeping its future or not;
   or get the oldest future that it keeps, which blocks until that task has finished.
   */
  datatype Program =
    | Done
    | Touch(index: int, rest: Program)
    | Submit(child: Program, kept: bool, rest: Program)
    | Await(rest: Program)

  /** A queued or running task. Tickets number the pushes onto the queue, from 0. */
  datatype Job = Job(ticket: nat, program: Program)

  /**
   `owes` says that the thread has pushed a task and not yet called notify_one; `kept` holds the
   tickets of the futures that the running task keeps.
   */
  datatype Worker =
    | Checking
    | Sleeping
    | Running(job: Job, owes: bool, kept: seq<nat>)
    | Exited

  /**
   A thread outside the pool: it enqueues `programs` in order, remembering the ticket of each push,
   and, if it `waits`, then gets the futures one after the other.
   */
  datatype Client = Client(programs: seq<Program>, waits: bool, futures: seq<nat>, owes: bool, got: nat)

  /** Element `index` was processed by the task with this ticket. */
  datatype Event = Event(ticket: nat, index: int)

  datatype State = State(
    queue: seq<Job>,
    stopping: bool,
    wakeAll: bool,
    workers: seq<Worker>,
    clients: seq<Client>,
    pushed: seq<Program>,
    finished: set<nat>,
    log: seq<Event>,
    sealed: Option<nat>)

  datatype Step =
    | Look(w: nat)
    | Advance(w: nat, woken: nat)
    | Proceed(c: nat, woken: nat)
    | WakeAll
    | BeginStop
    | Call(programs: seq<Program>, waits: bool)
    | Spurious(w: nat)

  /** `sealed` is the number of tasks taken off the queue once no worker is left, or none ever was. */
  function Initial(threads: nat): State {
    State([], false, false, seq(threads, _ => Checking), [], [], {}, [], if threads == 0 then Some(0) else None)
  }

  // ----- What a step does -----

  /** notify_one wakes the chosen sleeper; with nobody asleep it has no effect. */
  function Notified(workers: seq<Worker>, woken: nat): seq<Worker> {
    if woken < |workers| && workers[woken].Sleeping? then workers[woken := Checking] else workers
  }

  predicate NotifyPicks(workers: seq<Worker>, woken: nat) {
    (woken < |workers| && workers[woken].Sleeping?) || Sleeping !in workers
  }

  function Pushed(s: State, p: Program): State {
    s.(queue := s.queue + [Job(|s.pushed|, p)], pushed := s.pushed + [p])
  }

  predicate AllExited(workers: seq<Worker>) {
    forall w :: 0 <= w < |workers| ==> workers[w].Exited?
  }

  /** One evaluation of the wait predicate, with what follows it in the same critical section. */
  function LookStep(s: State, w: nat): State
    requires w < |s.workers| && s.workers[w].Checking?
  {
    if s.stopping && s.queue == [] then
      var workers := s.workers[w := Exited];
      s.(workers := workers, sealed := if AllExited(workers) then Some(|s.pushed|) else s.sealed)
    else if s.queue != [] then
      s.(workers := s.workers[w := Running(s.queue[0], false, [])], queue := s.queue[1..])
    else
      s.(workers := s.workers[w := Sleeping])
  }

  /** Worker w runs a task that is blocked in future.get(). */
  predicate Awaiting(s: State, w: nat)
    requires w < |s.workers|
  {
    var k := s.workers[w];
    k.Running? && !k.owes && k.job.program.Await? && k.kept != [] && k.kept[0] !in s.finished
  }

  /** One action of the task that worker w runs; the last one makes the task's future ready. */
  function AdvanceStep(s: State, w: nat, woken: nat): State
    requires w < |s.workers| && s.workers[w].Running?
  {
    var job, kept := s.workers[w].job, s.workers[w].kept;
    if s.workers[w].owes then
      s.(workers := Notified(s.workers[w := Running(job, false, kept)], woken))
    else
      match job.program
      case Done =>
        s.(workers := s.workers[w := Checking], finished := s.finished + {job.ticket})
      case Touch(index, rest) =>
        s.(workers := s.workers[w := Running(Job(job.ticket, rest), false, kept)],
           log := s.log + [Event(job.ticket, index)])
      case Submit(child, keep, rest) =>
        Pushed(s, child).(
          workers := s.workers[w := Running(Job(job.ticket, rest), true, if keep then kept + [|s.pushed|] else kept)])
      case Await(rest) =>
        s.(workers := s.workers[w := Running(Job(job.ticket, rest), false, if kept == [] then [] else kept[1..])])
  }

  predicate ClientDone(c: Client) {
    |c.futures| == |c.programs| && !c.owes && (c.waits ==> c.got == |c.futures|)
  }

  /** A client is blocked only in future.get() on a task that has not finished. */
  predicate ClientCanProceed(s: State, c: Client) {
    c.owes || |c.futures| < |c.programs| ||
    (c.waits && c.got < |c.futures| && c.futures[c.got] in s.finished)
  }

  function ProceedStep(s: State, i: nat, woken: nat): State
    requires i < |s.clients| && ClientCanProceed(s, s.clients[i])
  {
    var c := s.clients[i];
    if c.owes then
      s.(workers := Notified(s.workers, woken), clients := s.clients[i := c.(owes := false)])
    else if |c.futures| < |c.programs| then
      Pushed(s, c.programs[|c.futures|]).(
        clients := s.clients[i := c.(futures := c.futures + [|s.pushed|], owes := true)])
    else
      s.(clients := s.clients[i := c.(got := c.got + 1)])
  }

  function Woken(workers: seq<Worker>): (r: seq<Worker>)
    ensures |r| == |workers|
    ensures forall w :: 0 <= w < |r| ==> r[w] == if workers[w].Sleeping? then Checking else workers[w]
  {
    seq(|workers|, w requires 0 <= w < |workers| => if workers[w].Sleeping? then Checking else workers[w])
  }

  predicate Enabled(s: State, step: Step) {
    match step
    case Look(w) => w < |s.workers| && s.workers[w].Checking?
    case Advance(w, woken) =>
      w < |s.workers| && s.workers[w].Running? && !Awaiting(s, w) &&
      (s.workers[w].owes ==> NotifyPicks(s.workers, woken))
    case Proceed(c, woken) =>
      c < |s.clients| && ClientCanProceed(s, s.clients[c]) &&
      (s.clients[c].owes ==> NotifyPicks(s.workers, woken))
    case WakeAll => s.wakeAll
    case BeginStop => !s.stopping
    case Call(_, _) => true
    case Spurious(w) => w < |s.workers| && s.workers[w].Sleeping?
  }

  function Apply(s: State, step: Step): State
    requires Enabled(s, step)
  {
    match step
    case Look(w) => LookStep(s, w)
    case Advance(w, woken) => AdvanceStep(s, w, woken)
    case Proceed(c, woken) => ProceedStep(s, c, woken)
    case WakeAll => s.(workers := Woken(s.workers), wakeAll := false)
    case BeginStop => s.(stopping := true, wakeAll := true)
    case Call(programs, waits) => s.(clients := s.clients + [Client(programs, waits, [], false, 0)])
    case Spurious(w) => s.(workers := s.workers[w := Checking])
  }

  /** `Internal` steps are the ones the pool and its present users take on their own. */
  predicate Internal(step: Step) {
    step.Look? || step.Advance? || step.Proceed? || step.WakeAll?
  }

  predicate RunsFrom(s: State, steps: seq<Step>)
    decreases |steps|
  {
    steps == [] || (Enabled(s, steps[0]) && RunsFrom(Apply(s, steps[0]), steps[1..]))
  }

  function After(s: State, steps: seq<Step>): State
    requires RunsFrom(s, steps)
    decreases |steps|
  {
    if steps == [] then s else After(Apply(s, steps[0]), steps[1..])
  }

  // ----- What a task processes -----

  function Touches(p: Program): seq<int> {
    match p
    case Done => []
    case Touch(i, rest) => [i] + Touches(rest)
    case Submit(_, _, rest) => Touches(rest)
    case Await(rest) => Touches(rest)
  }

  /** The elements the task with this ticket has processed so far, in order. */
  function LogOf(log: seq<Event>, ticket: nat): seq<int> {
    if log == [] then []
    else
      var e := log[|log| - 1];
      LogOf(log[..|log| - 1], ticket) + if e.ticket == ticket then [e.index] else []
  }

  lemma LogOfAppend(log: seq<Event>, e: Event, ticket: nat)
    ensures LogOf(log + [e], ticket) == LogOf(log, ticket) + if e.ticket == ticket then [e.index] else []
  {
    assert (log + [e])[..|log|] == log;
  }

  // ----- The invariant -----

  /** Number of pushes that have been dequeued. */
  function Head(s: State): int {
    |s.pushed| - |s.queue|
  }

  /** First in, first out: the queue holds exactly the last pushes, in order. */
  ghost predicate FifoOk(s: State) {
    && |s.queue| <= |s.pushed|
    && forall k :: 0 <= k < |s.queue| ==>
         s.queue[k] == Job((Head(s) + k) as nat, s.pushed[Head(s) + k])
  }

  /** A dequeued task is finished or runs on exactly one worker; nothing else is. */
  ghost predicate RunningOk(s: State) {
    && (forall t :: t in s.finished ==> t < Head(s))
    && (forall w :: 0 <= w < |s.workers| && s.workers[w].Running? ==>
          s.workers[w].job.ticket < Head(s) && s.workers[w].job.ticket !in s.finished)
    && (forall v, w :: 0 <= v < w < |s.workers| && s.workers[v].Running? && s.workers[w].Running? ==>
          s.workers[v].job.ticket != s.workers[w].job.ticket)
    && (forall t: nat :: t < Head(s) ==> t in s.finished || RunningSomewhere(s, t))
  }

  ghost predicate RunningSomewhere(s: State, t: nat) {
    exists w :: 0 <= w < |s.workers| && s.workers[w].Running? && s.workers[w].job.ticket == t
  }

  /** A task keeps only futures of tasks pushed after itself. */
  ghost predicate KeepsLater(k: Worker, pushes: nat) {
    k.Running? ==> forall i :: 0 <= i < |k.kept| ==> k.job.ticket < k.kept[i] < pushes
  }

  ghost predicate FuturesOk(s: State) {
    forall w :: 0 <= w < |s.workers| ==> KeepsLater(s.workers[w], |s.pushed|)
  }

  /** Each task has processed exactly the part of its body that is not left to do. */
  ghost predicate LogOk(s: State) {
    && (forall t: nat :: t >= Head(s) ==> LogOf(s.log, t) == [])
    && (forall t: nat :: t in s.finished && t < |s.pushed| ==> LogOf(s.log, t) == Touches(s.pushed[t]))
    && (forall w :: 0 <= w < |s.workers| && s.workers[w].Running? && s.workers[w].job.ticket < |s.pushed| ==>
          LogOf(s.log, s.workers[w].job.ticket) + Touches(s.workers[w].job.program)
          == Touches(s.pushed[s.workers[w].job.ticket]))
  }

  ghost predicate ClientOk(s: State, c: Client) {
    && |c.futures| <= |c.programs|
    && c.got <= |c.futures|
    && (forall k :: 0 <= k < |c.futures| ==> c.futures[k] < |s.pushed| && s.pushed[c.futures[k]] == c.programs[k])
    && (forall j, k :: 0 <= j < k < |c.futures| ==> c.futures[j] < c.futures[k])
    && (forall k :: 0 <= k < c.got ==> c.futures[k] in s.finished)
  }

  ghost predicate ClientsOk(s: State) {
    forall i :: 0 <= i < |s.clients| ==> ClientOk(s, s.clients[i])
  }

  function LooksWeight(w: Worker): nat { if w.Checking? then 1 else 0 }
  function OwesWeight(w: Worker): nat { if w.Running? && w.owes then 1 else 0 }
  function ClientOwesWeight(c: Client): nat { if c.owes then 1 else 0 }

  /** Workers about to look at the queue, and notifications on their way. */
  function Wakeups(s: State): nat {
    Total(s.workers, LooksWeight) + Total(s.workers, OwesWeight) + Total(s.clients, ClientOwesWeight)
  }

  /** No lost wake-up: while any worker sleeps, every queued task has a wake-up of its own. */
  ghost predicate WakeOk(s: State) {
    && (Sleeping in s.workers ==> |s.queue| <= Wakeups(s))
    && (s.stopping && Sleeping in s.workers ==> s.wakeAll)
  }

  ghost predicate StopOk(s: State) {
    && (s.wakeAll ==> s.stopping)
    && (Exited in s.workers ==> s.stopping)
    && (s.sealed.Some? <==> AllExited(s.workers))
    && (s.sealed.Some? ==> s.sealed.value == Head(s))
  }

  ghost predicate Inv(s: State) {
    && FifoOk(s) && RunningOk(s) && FuturesOk(s) && LogOk(s) && ClientsOk(s) && WakeOk(s) && StopOk(s)
  }

  lemma {:induction false} InitialInv(threads: nat)
    ensures Inv(Initial(threads))
  {
    var s := Initial(threads);
    assert threads > 0 ==> s.workers[0] == Checking;
  }
}
