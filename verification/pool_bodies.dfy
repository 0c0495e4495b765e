/** One worker runs its task on its own, as far as the first get of a future that the task keeps. */
module PoolBodies {
  import opened Totals
  import opened PoolModel
  import opened PoolInvariant
  import opened PoolNesting
  import opened PoolProgress
  import opened PoolHangs

  /** What changes when only worker w acts, and nobody sleeps: its own state, and pushes at the end of the queue. */
  ghost predicate OnlyWorker(s: State, t: State, w: nat) {
    && w < |s.workers| && |t.workers| == |s.workers|
    && (forall v :: 0 <= v < |s.workers| && v != w ==> t.workers[v] == s.workers[v])
    && t.clients == s.clients && t.stopping == s.stopping && t.wakeAll == s.wakeAll
    && s.pushed <= t.pushed && Head(t) == Head(s) && Load(t) == Load(s) && s.queue <= t.queue
  }

  /** Worker w still runs the same task, which will wait if and only if it would, and keeps no new old futures. */
  ghost predicate SameTask(s: State, k: Worker, k': Worker) {
    && k.Running? && k'.Running? && k'.job.ticket == k.job.ticket
    && WillWait(k'.job.program, |k'.kept|) == WillWait(k.job.program, |k.kept|)
    && (forall i :: 0 <= i < |k'.kept| ==> k'.kept[i] in k.kept || k'.kept[i] >= |s.pushed|)
  }

  lemma {:induction false} NotifyAlone(s: State, w: nat)
    requires Enabled(s, Advance(w, 0)) && s.workers[w].owes && Sleeping !in s.workers
    ensures var t := Apply(s, Advance(w, 0));
            && OnlyWorker(s, t, w) && t.finished == s.finished && Sleeping !in t.workers
            && SameTask(s, s.workers[w], t.workers[w])
            && WorkerWeight(t.workers[w]) < WorkerWeight(s.workers[w])
  {
    var to := Running(s.workers[w].job, false, s.workers[w].kept);
    TotalUpdate(s.workers, w, to, WorkerLoad);
    assert Sleeping !in s.workers[w := to];
  }

  lemma {:induction false} ActAlone(s: State, w: nat)
    requires Enabled(s, Advance(w, 0)) && !s.workers[w].owes && !AtGet(s.workers[w]) && Sleeping !in s.workers
    ensures var t := Apply(s, Advance(w, 0));
            OnlyWorker(s, t, w) && Sleeping !in t.workers
  {
    var t := Apply(s, Advance(w, 0));
    var p := s.workers[w].job.program;
    ActionLoad(s, w, 0);
    ActionWeight(s, w, 0);
    if p.Submit? {
      TotalAppend(s.queue, Job(|s.pushed|, p.child), JobLoad);
    }
    TotalUpdate(s.workers, w, t.workers[w], WorkerLoad);
    ActionOwes(s, w, 0);
  }

  /** The action itself: the task finishes if it has nothing left, and stays the same task otherwise. */
  lemma {:induction false} ActionAlone(s: State, w: nat)
    requires Enabled(s, Advance(w, 0)) && !s.workers[w].owes && !AtGet(s.workers[w])
    ensures var t := Apply(s, Advance(w, 0));
            && w < |t.workers|
            && (t.workers[w].Checking? ==>
                  !WillWait(s.workers[w].job.program, |s.workers[w].kept|) &&
                  t.finished == s.finished + {s.workers[w].job.ticket})
            && (!t.workers[w].Checking? ==> SameTask(s, s.workers[w], t.workers[w]) && t.finished == s.finished)
            && WorkerWeight(t.workers[w]) < WorkerWeight(s.workers[w])
  {
    hide WillWait;
    NextWait(s.workers[w].job.program, |s.workers[w].kept|);
  }

  lemma {:induction false} OnlyWorkerTwice(s: State, t: State, u: State, w: nat)
    requires OnlyWorker(s, t, w) && OnlyWorker(t, u, w)
    ensures OnlyWorker(s, u, w)
  {
  }

  /** Worker w's task has run to its end, or stands at the first get of a future that it keeps. */
  ghost predicate RanBody(s: State, t: State, w: nat) {
    && OnlyWorker(s, t, w) && s.workers[w].Running? && Sleeping !in t.workers && Inv(t)
    && if WillWait(s.workers[w].job.program, |s.workers[w].kept|) then
         AtGet(t.workers[w]) && SameTask(s, s.workers[w], t.workers[w]) && t.finished == s.finished
       else
         t.workers[w].Checking? && t.finished == s.finished + {s.workers[w].job.ticket}
  }

  lemma {:induction false} RunBody(s: State, w: nat) returns (steps: seq<Step>)
    requires Inv(s) && w < |s.workers| && s.workers[w].Running? && Sleeping !in s.workers
    ensures RunsFrom(s, steps) && AllInternal(steps) && RanBody(s, After(s, steps), w)
    decreases WorkerWeight(s.workers[w])
  {
    hide Inv, Apply, RunsFrom, After, OnlyWorker;
    if AtGet(s.workers[w]) {
      StayingAlone(s, w);
      steps := [];
    } else {
      var step := Advance(w, 0);
      CanAct(s, w);
      var t := Apply(s, step);
      StepKeepsInv(s, step);
      OneStep(s, step);
      if s.workers[w].owes {
        NotifyAlone(s, w);
        OnlyWorkerBounds(s, t, w);
        var more := RunBody(t, w);
        BodyGoesOn(s, t, After(t, more), w);
        RunsTogether(s, [step], more);
        steps := [step] + more;
      } else {
        ActAlone(s, w);
        ActionAlone(s, w);
        OnlyWorkerBounds(s, t, w);
        if t.workers[w].Checking? {
          steps := [step];
        } else {
          var more := RunBody(t, w);
          BodyGoesOn(s, t, After(t, more), w);
          RunsTogether(s, [step], more);
          steps := [step] + more;
        }
      }
    }
  }

  lemma CanAct(s: State, w: nat)
    requires w < |s.workers| && s.workers[w].Running? && Sleeping !in s.workers && !AtGet(s.workers[w])
    ensures Enabled(s, Advance(w, 0))
  {
  }

  lemma OnlyWorkerBounds(s: State, t: State, w: nat)
    requires OnlyWorker(s, t, w)
    ensures w < |s.workers| == |t.workers| && |s.pushed| <= |t.pushed|
  {
  }

  lemma StayingAlone(s: State, w: nat)
    requires Inv(s) && w < |s.workers| && AtGet(s.workers[w]) && Sleeping !in s.workers
    ensures RunsFrom(s, []) && After(s, []) == s && AllInternal([])
    ensures RanBody(s, s, w)
  {
    AtGetWaits(s.workers[w]);
  }

  lemma AtGetWaits(k: Worker)
    requires AtGet(k)
    ensures WillWait(k.job.program, |k.kept|)
  {
  }

  lemma {:induction false} BodyGoesOn(s: State, t: State, u: State, w: nat)
    requires OnlyWorker(s, t, w) && t.finished == s.finished && w < |s.workers| == |t.workers|
    requires SameTask(s, s.workers[w], t.workers[w]) && RanBody(t, u, w)
    ensures RanBody(s, u, w)
  {
    hide Inv;
    OnlyWorkerTwice(s, t, u, w);
    var k, k'' := s.workers[w], u.workers[w];
    if AtGet(k'') {
      forall i | 0 <= i < |k''.kept|
        ensures k''.kept[i] in k.kept || k''.kept[i] >= |s.pushed|
      {
        assert k''.kept[i] in t.workers[w].kept || k''.kept[i] >= |t.pushed|;
      }
    }
  }
}
