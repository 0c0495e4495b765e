/** What the accept thread and the connection threads do, whatever the other threads do in between. */
module MasterThreads {
  import opened Registries
  import opened MasterModel
  import opened MasterInvariant
  import opened MasterResults

  // ----- Admission -----

  /** The steps of the accept thread. */
  predicate OfAccept(step: Step) {
    step.Accept? || step.AcceptFails? || step.CheckSize? || step.Stamp? || step.Insert? || step.Spawn?
  }

  /** A run of all other threads. */
  predicate OthersRun(cfg: Config, s: State, steps: seq<Step>) {
    RunsFrom(cfg, s, steps) && forall step :: step in steps ==> !OfAccept(step)
  }

  lemma {:induction false} OthersLeaveAccept(cfg: Config, s: State, steps: seq<Step>)
    requires Inv(cfg, s) && OthersRun(cfg, s, steps)
    ensures Inv(cfg, After(cfg, s, steps)) && After(cfg, s, steps).accepting == s.accepting
    decreases |steps|
  {
    hide Inv, Apply, Enabled;
    if steps != [] {
      StepKeepsInv(cfg, s, steps[0]);
      OtherStep(cfg, s, steps[0]);
      OthersLeaveAccept(cfg, Apply(cfg, s, steps[0]), steps[1..]);
    }
  }

  lemma {:induction false} OtherStep(cfg: Config, s: State, step: Step)
    requires Enabled(s, step) && !OfAccept(step)
    ensures Apply(cfg, s, step).accepting == s.accepting
  {
  }

  /**
   A connection has been accepted, and the other threads go on. When the accept thread looks at the
   size, it goes on with this connection exactly if there is room; otherwise it drops it for good.
   */
  lemma {:induction false} RoomDecides(cfg: Config, s: State, others: seq<Step>)
    requires Inv(cfg, s) && s.accepting.Accepted? && OthersRun(cfg, s, others)
    ensures var t := After(cfg, s, others);
            && Enabled(t, CheckSize) && Inv(cfg, Apply(cfg, t, CheckSize))
            && (|t.nodes| < cfg.maxNodes ==>
                  Apply(cfg, t, CheckSize) == t.(accepting := Checked(s.accepting.id, s.accepting.ip)))
            && (|t.nodes| >= cfg.maxNodes ==>
                  && Apply(cfg, t, CheckSize) == t.(accepting := Waiting)
                  && Gone(Apply(cfg, t, CheckSize), s.accepting.id))
  {
    OthersLeaveAccept(cfg, s, others);
    var t := After(cfg, s, others);
    StepKeepsInv(cfg, t, CheckSize);
    PendingIsNew(cfg, t);
  }

  lemma {:induction false} PendingIsNew(cfg: Config, s: State)
    requires Inv(cfg, s) && (s.accepting.Accepted? || s.accepting.Checked? || s.accepting.Stamped?)
    ensures s.accepting.id in s.used && s.accepting.id !in s.nodes && s.accepting.id !in s.loops
  {
    assert Pending(s, s.accepting.id);
  }

  /**
   From the size check on nothing stops a connection: whatever the other threads do before the stamp,
   before the insertion and before the thread is started, the node gets an entry of its own with its
   address, no specifications and the time of the stamp, and then a thread at the head of its loop.
   */
  lemma {:induction false} CheckedIsAdmitted(cfg: Config, s: State, a: seq<Step>, b: seq<Step>, c: seq<Step>)
    requires Inv(cfg, s) && s.accepting.Checked? && OthersRun(cfg, s, a)
    ensures Enabled(After(cfg, s, a), Stamp)
    ensures var id, ip := s.accepting.id, s.accepting.ip;
            var s1 := Apply(cfg, After(cfg, s, a), Stamp);
            OthersRun(cfg, s1, b) ==>
              && Enabled(After(cfg, s1, b), Insert)
              && id !in After(cfg, s1, b).nodes
              && var s2 := Apply(cfg, After(cfg, s1, b), Insert);
                 && s2.nodes == After(cfg, s1, b).nodes[id := NodeInfo(ip, 0, 0, After(cfg, s, a).clock, true)]
                 && (OthersRun(cfg, s2, c) ==>
                       && Enabled(After(cfg, s2, c), Spawn)
                       && var s3 := Apply(cfg, After(cfg, s2, c), Spawn);
                          && s3.accepting == Waiting
                          && s3.loops == After(cfg, s2, c).loops[id := Head])
  {
    hide Inv, RunsFrom, After;
    OthersLeaveAccept(cfg, s, a);
    var t := After(cfg, s, a);
    var s1 := Apply(cfg, t, Stamp);
    StepKeepsInv(cfg, t, Stamp);
    if OthersRun(cfg, s1, b) {
      StampedIsInserted(cfg, s1, b);
      OthersLeaveAccept(cfg, s1, b);
      var s2 := Apply(cfg, After(cfg, s1, b), Insert);
      StepKeepsInv(cfg, After(cfg, s1, b), Insert);
      if OthersRun(cfg, s2, c) {
        OthersLeaveAccept(cfg, s2, c);
      }
    }
  }

  lemma {:induction false} StampedIsInserted(cfg: Config, s: State, others: seq<Step>)
    requires Inv(cfg, s) && s.accepting.Stamped? && OthersRun(cfg, s, others)
    ensures var t := After(cfg, s, others);
            && Enabled(t, Insert) && s.accepting.id !in t.nodes
            && Apply(cfg, t, Insert).nodes == t.nodes[s.accepting.id := s.accepting.info]
            && Apply(cfg, t, Insert).accepting == Inserted(s.accepting.id)
  {
    OthersLeaveAccept(cfg, s, others);
    PendingIsNew(cfg, After(cfg, s, others));
  }

  lemma {:induction false} ClosedStays(cfg: Config, s: State, steps: seq<Step>)
    requires s.accepting.Closed? && RunsFrom(cfg, s, steps)
    ensures After(cfg, s, steps).accepting.Closed?
    ensures forall step :: step in steps ==> !OfAccept(step)
    decreases |steps|
  {
    if steps != [] {
      OtherStep(cfg, s, steps[0]);
      ClosedStays(cfg, Apply(cfg, s, steps[0]), steps[1..]);
    }
  }

  /** After accept has failed, the accept thread has ended: no connection is ever taken again. */
  lemma {:induction false} ClosedForGood(cfg: Config, s: State, steps: seq<Step>)
    requires Enabled(s, AcceptFails) && RunsFrom(cfg, Apply(cfg, s, AcceptFails), steps)
    ensures Apply(cfg, s, AcceptFails).nodes == s.nodes
    ensures forall step :: step in steps ==> !OfAccept(step)
  {
    ClosedStays(cfg, Apply(cfg, s, AcceptFails), steps);
  }

  // ----- Filling the registry -----

  /** A connection from accept to its thread. */
  function AdmitRun(id: NodeId, ip: string): seq<Step> {
    [Accept(id, ip)] + [CheckSize] + [Stamp] + [Insert] + [Spawn]
  }

  /** What the accept thread does with one connection that the others leave alone. */
  function Admitted(s: State, id: NodeId, ip: string): State {
    s.(nodes := s.nodes[id := NodeInfo(ip, 0, 0, s.clock, true)], used := s.used + {id},
       loops := s.loops[id := Head], log := s.log + [Event(id, s.clock, Joined)])
  }

  lemma {:induction false} OneIsAdmitted(cfg: Config, s: State, id: NodeId, ip: string)
    requires s.accepting.Waiting? && id !in s.used && |s.nodes| < cfg.maxNodes
    ensures RunsFrom(cfg, s, AdmitRun(id, ip)) && After(cfg, s, AdmitRun(id, ip)) == Admitted(s, id, ip)
  {
    hide RunsFrom, After, HandleStep;
    var s1 := Apply(cfg, s, Accept(id, ip));
    var s2 := Apply(cfg, s1, CheckSize);
    var s3 := Apply(cfg, s2, Stamp);
    var s4 := Apply(cfg, s3, Insert);
    NoSteps(cfg, s);
    assert [] + [Accept(id, ip)] == [Accept(id, ip)];
    RunStep(cfg, s, [], s, Accept(id, ip));
    RunStep(cfg, s, [Accept(id, ip)], s1, CheckSize);
    RunStep(cfg, s, [Accept(id, ip)] + [CheckSize], s2, Stamp);
    RunStep(cfg, s, [Accept(id, ip)] + [CheckSize] + [Stamp], s3, Insert);
    RunStep(cfg, s, [Accept(id, ip)] + [CheckSize] + [Stamp] + [Insert], s4, Spawn);
  }

  /** A full registry leaves a connection out. */
  lemma {:induction false} OneIsRefused(cfg: Config, s: State, id: NodeId, ip: string)
    requires s.accepting.Waiting? && id !in s.used && |s.nodes| >= cfg.maxNodes
    ensures RunsFrom(cfg, s, [Accept(id, ip), CheckSize])
    ensures After(cfg, s, [Accept(id, ip), CheckSize]) == s.(used := s.used + {id})
  {
    TwoSteps(cfg, s, Accept(id, ip), CheckSize);
  }

  /** One connection after the other, to the last. */
  function AdmitAll(ids: seq<NodeId>, ip: NodeId -> string): seq<Step> {
    if ids == [] then [] else AdmitAll(ids[..|ids| - 1], ip) + AdmitRun(ids[|ids| - 1], ip(ids[|ids| - 1]))
  }

  /** Exactly these nodes are registered, each with its address and nothing else known of it. */
  ghost predicate HoldsExactly(s: State, ids: seq<NodeId>, ip: NodeId -> string) {
    && (forall id :: id in s.nodes <==> id in ids)
    && (forall id :: id in s.nodes ==> s.nodes[id] == NodeInfo(ip(id), 0, 0, s.clock, true))
  }

  lemma {:induction false} DistinctCount(ids: seq<NodeId>, keys: set<NodeId>)
    requires forall i, j :: 0 <= i < j < |ids| ==> ids[i] != ids[j]
    requires forall id :: id in keys <==> id in ids
    ensures |keys| == |ids|
  {
    if ids == [] {
      assert forall id :: id !in keys;
      assert |keys| == 0;
    } else {
      var n := |ids| - 1;
      DistinctCount(ids[..n], keys - {ids[n]});
    }
  }

  /**
   The registry can be filled: for any distinct connections, as many as maxNodes or fewer, the run that
   takes them one after the other ends with exactly their entries.
   */
  lemma {:induction false} RegistryFills(cfg: Config, start: nat, ids: seq<NodeId>, ip: NodeId -> string)
    requires |ids| <= cfg.maxNodes
    requires forall i, j :: 0 <= i < j < |ids| ==> ids[i] != ids[j]
    ensures RunsFrom(cfg, Initial(start), AdmitAll(ids, ip))
    ensures var s := After(cfg, Initial(start), AdmitAll(ids, ip));
            && s.accepting.Waiting? && s.clock == start && s.used == s.nodes.Keys && |s.nodes| == |ids|
            && HoldsExactly(s, ids, ip)
    decreases |ids|
  {
    hide Apply, Enabled, RunsFrom, After, HoldsExactly;
    if ids == [] {
      NoSteps(cfg, Initial(start));
      NoneHeld(start, ip);
    } else {
      var n := |ids| - 1;
      var first, id := ids[..n], ids[n];
      RegistryFills(cfg, start, first, ip);
      var s := After(cfg, Initial(start), AdmitAll(first, ip));
      NewIsAbsent(s, first, id, ip);
      OneIsAdmitted(cfg, s, id, ip(id));
      RunsTogether(cfg, Initial(start), AdmitAll(first, ip), AdmitRun(id, ip(id)));
      OneMoreHeld(s, first, id, ip);
      assert ids == first + [id];
      DistinctCount(ids, Admitted(s, id, ip(id)).nodes.Keys) by {
        HeldKeys(Admitted(s, id, ip(id)), ids, ip);
      }
    }
  }

  lemma NoneHeld(start: nat, ip: NodeId -> string)
    ensures HoldsExactly(Initial(start), [], ip)
  {
  }

  lemma HeldKeys(s: State, ids: seq<NodeId>, ip: NodeId -> string)
    requires HoldsExactly(s, ids, ip)
    ensures forall id :: id in s.nodes.Keys <==> id in ids
  {
  }

  lemma NewIsAbsent(s: State, ids: seq<NodeId>, id: NodeId, ip: NodeId -> string)
    requires HoldsExactly(s, ids, ip) && id !in ids
    ensures id !in s.nodes
  {
  }

  lemma {:induction false} OneMoreHeld(s: State, ids: seq<NodeId>, id: NodeId, ip: NodeId -> string)
    requires HoldsExactly(s, ids, ip)
    ensures HoldsExactly(Admitted(s, id, ip(id)), ids + [id], ip)
  {
  }

  // ----- Connection threads -----

  /** The steps in which the connection thread of a node looks at the flag or receives. */
  predicate Receives(step: Step, id: NodeId) {
    step == LookAtStop(id) || step == ReceiveFails(id) || (step.Receive? && step.id == id)
  }

  predicate OwnStep(step: Step, id: NodeId) {
    Receives(step, id) || step == Leave(id)
  }

  /** The accept thread is done with this connection. */
  predicate Known(s: State, id: NodeId) {
    id in s.used && !Pending(s, id) && s.accepting != Inserted(id)
  }

  lemma {:induction false} KnownStep(cfg: Config, s: State, step: Step, id: NodeId)
    requires Enabled(s, step) && Known(s, id)
    ensures Known(Apply(cfg, s, step), id)
  {
    hide HandleStep, Updated, Recorded, Expired;
    if step.Handle? {
      HandleLeavesThreads(cfg, s, step.k);
    }
  }

  /** Where a step leaves the thread of a node. */
  function Next(s: State, step: Step, id: NodeId): LoopPc
    requires id in s.loops
  {
    if !Receives(step, id) then s.loops[id]
    else if step.ReceiveFails? then Leaving
    else if step.Receive? then Head
    else if s.stopping then Leaving
    else Receiving
  }

  /** Only a connection's own steps move its thread. */
  lemma {:induction false} ThreadStep(cfg: Config, s: State, step: Step, id: NodeId)
    requires Enabled(s, step) && Known(s, id)
    ensures var t := Apply(cfg, s, step);
            && (OwnStep(step, id) ==> id in s.loops)
            && (id in t.loops <==> id in s.loops && step != Leave(id))
            && (id in t.loops ==> t.loops[id] == Next(s, step, id))
  {
    hide HandleStep, Updated, Recorded, Expired, Pending;
    if step.Handle? {
      HandleLeavesThreads(cfg, s, step.k);
    }
  }

  lemma HandleLeavesThreads(cfg: Config, s: State, k: nat)
    requires k < |s.tasks|
    ensures var t := HandleStep(cfg, s, k);
            && t.loops == s.loops && t.accepting == s.accepting && t.used == s.used
            && t.reaping == s.reaping && t.stopping == s.stopping
  {
  }

  /** The thread of this node, if it is still there, is about to leave. */
  predicate Ending(s: State, id: NodeId) {
    Known(s, id) && (id in s.loops ==> s.loops[id].Leaving?)
  }

  lemma {:induction false} EndingStep(cfg: Config, s: State, step: Step, id: NodeId)
    requires Enabled(s, step) && Ending(s, id)
    ensures Ending(Apply(cfg, s, step), id) && !Receives(step, id)
    ensures id in Apply(cfg, s, step).loops <==> id in s.loops && step != Leave(id)
    ensures step == Leave(id) ==> Gone(Apply(cfg, s, step), id)
  {
    hide Apply, Pending;
    KnownStep(cfg, s, step, id);
    ThreadStep(cfg, s, step, id);
    if step == Leave(id) {
      LeaveErases(cfg, s, id);
    }
  }

  lemma LeaveErases(cfg: Config, s: State, id: NodeId)
    requires Enabled(s, Leave(id)) && Known(s, id)
    ensures Gone(Apply(cfg, s, Leave(id)), id)
  {
  }

  /**
   A thread that is about to leave can leave at any time and does nothing else: it neither looks at the
   flag nor receives again, and once it has left, its node is gone for good.
   */
  lemma {:induction false} LeavingThreadLeaves(cfg: Config, s: State, steps: seq<Step>, id: NodeId)
    requires Ending(s, id) && RunsFrom(cfg, s, steps)
    ensures forall step :: step in steps ==> !Receives(step, id)
    ensures var t := After(cfg, s, steps);
            && (id in t.loops <==> id in s.loops && Leave(id) !in steps)
            && (id in t.loops ==> Enabled(t, Leave(id)))
            && (Leave(id) in steps ==> Gone(t, id))
    decreases |steps|
  {
    hide Apply, Gone;
    if steps != [] {
      var t := Apply(cfg, s, steps[0]);
      EndingStep(cfg, s, steps[0], id);
      LeavingThreadLeaves(cfg, t, steps[1..], id);
      if steps[0] == Leave(id) {
        GoneForGood(cfg, t, steps[1..], id);
      }
    }
  }

  lemma {:induction false} ThreadIsEnding(cfg: Config, s: State, id: NodeId)
    requires Inv(cfg, s) && id in s.loops && s.loops[id].Leaving?
    ensures Ending(s, id)
  {
  }

  /** A failed receive marks the node dead, changes nothing else in the registry, and ends its thread. */
  lemma {:induction false} FailedThreadLeaves(cfg: Config, s: State, id: NodeId, steps: seq<Step>)
    requires Inv(cfg, s) && Enabled(s, ReceiveFails(id)) && RunsFrom(cfg, Apply(cfg, s, ReceiveFails(id)), steps)
    ensures var u := Apply(cfg, s, ReceiveFails(id));
            u.nodes == if id in s.nodes then s.nodes[id := s.nodes[id].(alive := false)] else s.nodes
    ensures forall step :: step in steps ==> !Receives(step, id)
    ensures var t := After(cfg, Apply(cfg, s, ReceiveFails(id)), steps);
            && (id in t.loops <==> Leave(id) !in steps)
            && (id in t.loops ==> Enabled(t, Leave(id)))
            && (Leave(id) in steps ==> Gone(t, id))
  {
    hide Inv, Gone;
    var u := Apply(cfg, s, ReceiveFails(id));
    StepKeepsInv(cfg, s, ReceiveFails(id));
    ThreadIsEnding(cfg, u, id);
    LeavingThreadLeaves(cfg, u, steps, id);
  }

  /** So does a look at the stop flag once it is set. */
  lemma {:induction false} StoppedThreadLeaves(cfg: Config, s: State, id: NodeId, steps: seq<Step>)
    requires Inv(cfg, s) && s.stopping
    requires Enabled(s, LookAtStop(id)) && RunsFrom(cfg, Apply(cfg, s, LookAtStop(id)), steps)
    ensures Apply(cfg, s, LookAtStop(id)).nodes == s.nodes
    ensures forall step :: step in steps ==> !Receives(step, id)
    ensures var t := After(cfg, Apply(cfg, s, LookAtStop(id)), steps);
            && (id in t.loops <==> Leave(id) !in steps)
            && (id in t.loops ==> Enabled(t, Leave(id)))
            && (Leave(id) in steps ==> Gone(t, id))
  {
    hide Inv, Gone;
    var u := Apply(cfg, s, LookAtStop(id));
    StepKeepsInv(cfg, s, LookAtStop(id));
    ThreadIsEnding(cfg, u, id);
    LeavingThreadLeaves(cfg, u, steps, id);
  }

  /** The thread goes round its loop. */
  predicate Serving(s: State, id: NodeId) {
    Known(s, id) && id in s.loops && !s.loops[id].Leaving?
  }

  lemma {:induction false} ThreadIsServing(cfg: Config, s: State, id: NodeId)
    requires Inv(cfg, s) && id in s.loops && !s.loops[id].Leaving?
    ensures Serving(s, id)
  {
  }

  /** At the head it looks at the flag, and then receives; what it receives waits behind all other messages. */
  lemma {:induction false} ServingStep(cfg: Config, s: State, step: Step, id: NodeId)
    requires Enabled(s, step) && Serving(s, id)
    requires step != ReceiveFails(id) && !s.stopping
    ensures var t := Apply(cfg, s, step);
            && Serving(t, id) && step != Leave(id)
            && t.loops[id] == (if !Receives(step, id) then s.loops[id]
                               else if s.loops[id].Head? then Receiving else Head)
            && (step.Receive? ==> t.tasks == s.tasks + [Task(step.id, step.m)] && t.nodes == s.nodes)
  {
    hide HandleStep, Updated, Recorded, Expired, Pending;
    KnownStep(cfg, s, step, id);
    ThreadStep(cfg, s, step, id);
  }

  /** Only BeginStop stops the master, and nothing takes that back. */
  lemma StoppingStep(cfg: Config, s: State, step: Step)
    requires Enabled(s, step)
    ensures Apply(cfg, s, step).stopping <==> s.stopping || step == BeginStop
  {
  }

  lemma {:induction false} StoppingIff(cfg: Config, s: State, steps: seq<Step>)
    requires RunsFrom(cfg, s, steps)
    ensures After(cfg, s, steps).stopping <==> s.stopping || BeginStop in steps
    decreases |steps|
  {
    hide Apply, Enabled;
    if steps != [] {
      StoppingStep(cfg, s, steps[0]);
      StoppingIff(cfg, Apply(cfg, s, steps[0]), steps[1..]);
    }
  }

  lemma EndedStays(cfg: Config, s: State, step: Step)
    requires Enabled(s, step) && s.reaping.Ended?
    ensures Apply(cfg, s, step).reaping.Ended?
  {
  }

  lemma {:induction false} EndedForGood(cfg: Config, s: State, steps: seq<Step>)
    requires RunsFrom(cfg, s, steps) && s.reaping.Ended?
    ensures forall step :: step in steps ==> !Heartbeat(step)
    decreases |steps|
  {
    if steps != [] {
      EndedStays(cfg, s, steps[0]);
      EndedForGood(cfg, Apply(cfg, s, steps[0]), steps[1..]);
    }
  }

  /** The heartbeat ends only in a stopping master, and then for good. */
  lemma {:induction false} HeartbeatEnds(cfg: Config, s: State, steps: seq<Step>)
    requires Enabled(s, EndHeartbeat) && RunsFrom(cfg, Apply(cfg, s, EndHeartbeat), steps)
    ensures s.stopping
    ensures forall step :: step in steps ==> !Heartbeat(step)
  {
    EndedForGood(cfg, Apply(cfg, s, EndHeartbeat), steps);
  }

  /** Without a failed receive and a stop, a connection is served on and on. */
  lemma {:induction false} ThreadStays(cfg: Config, s: State, steps: seq<Step>, id: NodeId)
    requires Serving(s, id) && RunsFrom(cfg, s, steps)
    requires ReceiveFails(id) !in steps && !s.stopping && BeginStop !in steps
    ensures Serving(After(cfg, s, steps), id) && Leave(id) !in steps
    decreases |steps|
  {
    hide Apply, Enabled, Serving;
    if steps != [] {
      StoppingStep(cfg, s, steps[0]);
      ServingStep(cfg, s, steps[0], id);
      ThreadStays(cfg, Apply(cfg, s, steps[0]), steps[1..], id);
    }
  }

  // ----- Stopping -----

  /** The most steps a connection thread still takes once the master is stopping. */
  function Remaining(s: State, id: NodeId): nat {
    if id !in s.loops then 0
    else match s.loops[id]
      case Receiving => 3
      case Head => 2
      case Leaving => 1
  }

  function OwnSteps(steps: seq<Step>, id: NodeId): nat {
    if steps == [] then 0 else (if OwnStep(steps[0], id) then 1 else 0) + OwnSteps(steps[1..], id)
  }

  lemma {:induction false} RemainingStep(cfg: Config, s: State, step: Step, id: NodeId)
    requires Enabled(s, step) && s.stopping && Known(s, id)
    ensures var t := Apply(cfg, s, step);
            && t.stopping && Known(t, id)
            && Remaining(t, id) <= Remaining(s, id) - if OwnStep(step, id) then 1 else 0
  {
    hide HandleStep, Updated, Recorded, Expired, Pending;
    KnownStep(cfg, s, step, id);
    ThreadStep(cfg, s, step, id);
    StoppingStep(cfg, s, step);
  }

  /** A stopped master's connection threads take at most three more steps each. */
  lemma {:induction false} StoppingIsShort(cfg: Config, s: State, steps: seq<Step>, id: NodeId)
    requires RunsFrom(cfg, s, steps) && s.stopping && Known(s, id)
    ensures OwnSteps(steps, id) + Remaining(After(cfg, s, steps), id) <= Remaining(s, id) <= 3
    decreases |steps|
  {
    hide Apply, Enabled, Known;
    if steps != [] {
      RemainingStep(cfg, s, steps[0], id);
      StoppingIsShort(cfg, Apply(cfg, s, steps[0]), steps[1..], id);
    }
  }

  /** No connection thread can take a step. */
  ghost predicate ThreadsStuck(s: State) {
    forall step, id :: OwnStep(step, id) ==> !Enabled(s, step)
  }

  /** A connection thread that is there can always take a step; one that receives takes any message. */
  lemma {:induction false} ThreadCanMove(s: State, id: NodeId)
    requires id in s.loops
    ensures exists step :: OwnStep(step, id) && Enabled(s, step)
    ensures s.loops[id].Receiving? ==> forall m :: Enabled(s, Receive(id, m))
  {
    var step :=
      if s.loops[id].Head? then LookAtStop(id)
      else if s.loops[id].Receiving? then ReceiveFails(id)
      else Leave(id);
    assert OwnStep(step, id) && Enabled(s, step);
  }

  /**
   The registry of a stopped master empties: each of its connection threads takes at most three more
   steps, and when none of them can take any, no entry is left.
   */
  lemma {:induction false} StoppedMasterEmpties(cfg: Config, start: nat, steps: seq<Step>, more: seq<Step>, id: NodeId)
    requires RunsFrom(cfg, Initial(start), steps) && RunsFrom(cfg, After(cfg, Initial(start), steps), more)
    ensures var s := After(cfg, Initial(start), steps);
            var t := After(cfg, s, more);
            && (BeginStop in steps && id in s.loops ==> OwnSteps(more, id) <= 3)
            && (ThreadsStuck(t) && !t.accepting.Inserted? ==> t.nodes == map[])
  {
    hide RunsFrom, After, Apply, Enabled;
    var s := After(cfg, Initial(start), steps);
    var t := After(cfg, s, more);
    InitialInv(cfg, start);
    RunKeepsInv(cfg, Initial(start), steps);
    if BeginStop in steps && id in s.loops {
      StoppingIff(cfg, Initial(start), steps);
      StoppingIsShort(cfg, s, more, id);
    }
    RunsTogether(cfg, Initial(start), steps, more);
    if ThreadsStuck(t) && !t.accepting.Inserted? {
      forall k ensures k !in t.loops {
        if k in t.loops {
          ThreadCanMove(t, k);
          assert false;
        }
      }
      assert t.loops == map[];
      RegistryDrains(cfg, start, steps + more);
    }
  }

  /** No receive of this node's thread returns in the run. */
  predicate Silent(steps: seq<Step>, id: NodeId) {
    forall step :: step in steps ==> step != ReceiveFails(id) && !(step.Receive? && step.id == id)
  }

  lemma {:induction false} SilentStep(cfg: Config, s: State, step: Step, id: NodeId)
    requires Enabled(s, step) && Known(s, id) && id in s.nodes && id in s.loops && s.loops[id].Receiving?
    requires s.reaping.Ended? && step != ReceiveFails(id) && !(step.Receive? && step.id == id)
    ensures var t := Apply(cfg, s, step);
            Known(t, id) && id in t.nodes && id in t.loops && t.loops[id].Receiving? && t.reaping.Ended?
  {
    hide Apply, Pending;
    KnownStep(cfg, s, step, id);
    ThreadStep(cfg, s, step, id);
    RemovedBy(cfg, s, step, id);
    EndedStays(cfg, s, step);
  }

  /**
   Nothing else empties it: once the heartbeat has ended, a registered node whose thread is blocked in a
   receive stays registered for as long as that receive does not return.
   */
  lemma {:induction false} SilentNodeStays(cfg: Config, s: State, steps: seq<Step>, id: NodeId)
    requires RunsFrom(cfg, s, steps) && Silent(steps, id) && s.reaping.Ended?
    requires Known(s, id) && id in s.nodes && id in s.loops && s.loops[id].Receiving?
    ensures var t := After(cfg, s, steps);
            id in t.nodes && id in t.loops && t.loops[id].Receiving?
    decreases |steps|
  {
    hide Apply, Enabled, Known;
    if steps != [] {
      SilentStep(cfg, s, steps[0], id);
      SilentNodeStays(cfg, Apply(cfg, s, steps[0]), steps[1..], id);
    }
  }
}
