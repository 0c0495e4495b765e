/** What every run of the master guarantees. */
module MasterResults {
  import opened Registries
  import opened Framing
  import opened MasterModel
  import opened MasterInvariant

  // ----- Capacity -----

  /**
   In every reachable state the registry holds at most maxNodes entries, and when the accept thread
   inserts, there is room and no entry is overwritten, although it checked the size in an earlier
   critical section.
   */
  lemma {:induction false} InsertAlwaysFits(cfg: Config, start: nat, steps: seq<Step>)
    requires RunsFrom(cfg, Initial(start), steps)
    ensures |After(cfg, Initial(start), steps).nodes| <= cfg.maxNodes
    ensures var s := After(cfg, Initial(start), steps);
            s.accepting.Stamped? ==>
              && s.accepting.id !in s.nodes
              && Apply(cfg, s, Insert).nodes == s.nodes[s.accepting.id := s.accepting.info]
              && |Apply(cfg, s, Insert).nodes| == |s.nodes| + 1
  {
    InitialInv(cfg, start);
    RunKeepsInv(cfg, Initial(start), steps);
    var s := After(cfg, Initial(start), steps);
    if s.accepting.Stamped? {
      assert Pending(s, s.accepting.id);
      assert s.nodes[s.accepting.id := s.accepting.info].Keys == s.nodes.Keys + {s.accepting.id};
    }
  }

  /** Once no connection thread is left and none is about to start, the registry is empty. */
  lemma {:induction false} RegistryDrains(cfg: Config, start: nat, steps: seq<Step>)
    requires RunsFrom(cfg, Initial(start), steps)
    ensures var s := After(cfg, Initial(start), steps);
            s.loops == map[] && !s.accepting.Inserted? ==> s.nodes == map[]
  {
    InitialInv(cfg, start);
    RunKeepsInv(cfg, Initial(start), steps);
    var s := After(cfg, Initial(start), steps);
    if s.loops == map[] && !s.accepting.Inserted? {
      assert forall id :: id in s.nodes ==> id in s.loops;
      assert s.nodes == map[];
    }
  }

  // ----- Leaving and not coming back -----

  /** Accepted, no longer on its way into the registry, and not in it. */
  predicate Gone(s: State, id: NodeId) {
    id in s.used && !Pending(s, id) && id !in s.nodes
  }

  /** No late message brings an erased node back, whatever order the pool runs its tasks in. */
  lemma {:induction false} GoneForGood(cfg: Config, s: State, steps: seq<Step>, id: NodeId)
    requires RunsFrom(cfg, s, steps) && Gone(s, id)
    ensures Gone(After(cfg, s, steps), id)
    decreases |steps|
  {
    if steps != [] {
      GoneAfterStep(cfg, s, steps[0], id);
      GoneForGood(cfg, Apply(cfg, s, steps[0]), steps[1..], id);
    }
  }

  lemma {:induction false} GoneAfterStep(cfg: Config, s: State, step: Step, id: NodeId)
    requires Enabled(s, step) && Gone(s, id)
    ensures Gone(Apply(cfg, s, step), id)
  {
  }

  /** Only a node's own connection thread and the reaper take it out of the registry. */
  lemma {:induction false} RemovedBy(cfg: Config, s: State, step: Step, id: NodeId)
    requires Enabled(s, step) && id in s.nodes
    ensures id !in Apply(cfg, s, step).nodes <==>
              step == Leave(id) ||
              (step == Reap(id) && Expired(s.reaping.now, s.reaping.taken[id].lastSeen, cfg.timeoutMs))
  {
  }

  /** While a node is in the registry, its lastSeen never goes back. */
  lemma {:induction false} LastSeenIsMonotone(cfg: Config, s: State, steps: seq<Step>, id: NodeId)
    requires Inv(cfg, s) && RunsFrom(cfg, s, steps)
    requires id in s.nodes && id in After(cfg, s, steps).nodes
    ensures s.nodes[id].lastSeen <= After(cfg, s, steps).nodes[id].lastSeen
    decreases |steps|
  {
    if steps != [] {
      var t := Apply(cfg, s, steps[0]);
      StepKeepsInv(cfg, s, steps[0]);
      if id !in t.nodes {
        NotPending(cfg, s, id);
        RemovedBy(cfg, s, steps[0], id);
        GoneForGood(cfg, t, steps[1..], id);
        assert false;
      }
      LastSeenStep(cfg, s, steps[0], id);
      LastSeenIsMonotone(cfg, t, steps[1..], id);
    }
  }

  lemma {:induction false} NotPending(cfg: Config, s: State, id: NodeId)
    requires Inv(cfg, s) && id in s.nodes
    ensures id in s.used && !Pending(s, id)
  {
  }

  lemma {:induction false} LastSeenStep(cfg: Config, s: State, step: Step, id: NodeId)
    requires Inv(cfg, s) && Enabled(s, step)
    requires id in s.nodes && id in Apply(cfg, s, step).nodes
    ensures s.nodes[id].lastSeen <= Apply(cfg, s, step).nodes[id].lastSeen
  {
    NotPending(cfg, s, id);
  }

  // ----- Heartbeat: nobody is removed who was heard -----

  /**
   When the reaper takes a node out, every report and pong ever handled for it, and its arrival, lie
   at least a deadline before the scan's `now`, or else not before that `now` at all.
   */
  lemma {:induction false} ReaperSparesHeardNodes(cfg: Config, s: State, id: NodeId, k: nat)
    requires Inv(cfg, s)
    requires Enabled(s, Reap(id)) && id in s.nodes && id !in Apply(cfg, s, Reap(id)).nodes
    requires k < |s.log| && Sets(s.log[k], id)
    ensures s.log[k].time + Deadline(cfg.timeoutMs) <= s.reaping.now || s.log[k].time >= s.reaping.now
  {
    ExpiredAtDeadline(s.reaping.now, s.reaping.taken[id].lastSeen, cfg.timeoutMs);
  }

  // ----- Heartbeat: everybody is removed who was silent -----

  /** During a scan begun in state `from`, after the steps `ran`. */
  ghost predicate ScanSoFar(cfg: Config, from: State, ran: seq<Step>, s: State)
    requires from.reaping.Timed?
  {
    && s.reaping.Scanning? && s.reaping.now == from.reaping.now && s.reaping.taken == from.nodes
    && s.reaping.left <= from.nodes.Keys
    && (forall id :: id in from.nodes ==> id in s.used && !Pending(s, id))
    && (forall id :: id in from.nodes ==>
          (id in s.nodes <==>
             && Leave(id) !in ran
             && (id in s.reaping.left || !Expired(from.reaping.now, from.nodes[id].lastSeen, cfg.timeoutMs))))
  }

  lemma {:induction false} ScanBegins(cfg: Config, from: State)
    requires Inv(cfg, from) && from.reaping.Timed?
    ensures ScanSoFar(cfg, from, [], Apply(cfg, from, TakeSnapshot))
  {
    forall id | id in from.nodes ensures id in from.used && !Pending(from, id) {
      NotPending(cfg, from, id);
    }
  }

  lemma {:induction false} ScanGoesOn(cfg: Config, from: State, ran: seq<Step>, s: State, step: Step)
    requires from.reaping.Timed? && ScanSoFar(cfg, from, ran, s)
    requires Enabled(s, step) && step != EndScan
    ensures ScanSoFar(cfg, from, ran + [step], Apply(cfg, s, step))
  {
    var t := Apply(cfg, s, step);
    StillScanning(cfg, s, step);
    forall id | id in from.nodes
      ensures id in t.used && !Pending(t, id)
      ensures id in t.nodes <==>
                && Leave(id) !in ran + [step]
                && (id in t.reaping.left || !Expired(from.reaping.now, from.nodes[id].lastSeen, cfg.timeoutMs))
    {
      assert Leave(id) in ran + [step] <==> Leave(id) in ran || step == Leave(id);
      EntryAfterStep(cfg, s, step, id);
    }
  }

  lemma {:induction false} StillScanning(cfg: Config, s: State, step: Step)
    requires s.reaping.Scanning? && Enabled(s, step) && step != EndScan
    ensures var t := Apply(cfg, s, step);
            t.reaping == s.reaping.(left := if step.Reap? then s.reaping.left - {step.id} else s.reaping.left)
  {
  }

  lemma {:induction false} EntryAfterStep(cfg: Config, s: State, step: Step, id: NodeId)
    requires s.reaping.Scanning? && Enabled(s, step) && id in s.reaping.taken
    requires id in s.used && !Pending(s, id)
    ensures var t := Apply(cfg, s, step);
            id in t.used && !Pending(t, id) &&
            (id in t.nodes <==>
               && id in s.nodes && step != Leave(id)
               && (step == Reap(id) ==> !Expired(s.reaping.now, s.reaping.taken[id].lastSeen, cfg.timeoutMs)))
  {
    NeverPendingAgain(cfg, s, step, id);
    if id in s.nodes {
      RemovedBy(cfg, s, step, id);
    } else {
      GoneAfterStep(cfg, s, step, id);
    }
  }

  lemma {:induction false} NeverPendingAgain(cfg: Config, s: State, step: Step, id: NodeId)
    requires Enabled(s, step) && id in s.used && !Pending(s, id)
    ensures id in Apply(cfg, s, step).used && !Pending(Apply(cfg, s, step), id)
  {
  }

  lemma {:induction false} ScanRuns(cfg: Config, from: State, ran: seq<Step>, s: State, steps: seq<Step>)
    requires from.reaping.Timed? && ScanSoFar(cfg, from, ran, s)
    requires RunsFrom(cfg, s, steps) && EndScan !in steps
    ensures ScanSoFar(cfg, from, ran + steps, After(cfg, s, steps))
    decreases |steps|
  {
    if steps == [] {
      assert ran + steps == ran;
    } else {
      ScanGoesOn(cfg, from, ran, s, steps[0]);
      ScanRuns(cfg, from, ran + [steps[0]], Apply(cfg, s, steps[0]), steps[1..]);
      assert ran + [steps[0]] + steps[1..] == ran + steps;
    }
  }

  lemma {:induction false} ScanEnds(cfg: Config, from: State, ran: seq<Step>, s: State)
    requires from.reaping.Timed? && ScanSoFar(cfg, from, ran, s) && s.reaping.left == {}
    ensures forall id :: id in from.nodes ==>
              (id in s.nodes <==>
                 && from.reaping.now - from.nodes[id].lastSeen < Deadline(cfg.timeoutMs)
                 && Leave(id) !in ran)
  {
    forall id | id in from.nodes {
      ExpiredAtDeadline(from.reaping.now, from.nodes[id].lastSeen, cfg.timeoutMs);
    }
  }

  /**
   A scan is exact under every interleaving: of the nodes registered when it began, those remain that
   had been heard less than a deadline before its `now` and whose own thread did not leave.
   */
  lemma {:induction false} ScanIsExact(cfg: Config, from: State, steps: seq<Step>, id: NodeId)
    requires Inv(cfg, from) && from.reaping.Timed?
    requires RunsFrom(cfg, Apply(cfg, from, TakeSnapshot), steps) && EndScan !in steps
    requires id in from.nodes
    ensures var s := After(cfg, Apply(cfg, from, TakeSnapshot), steps);
            s.reaping.Scanning? &&
            (s.reaping.left == {} ==>
               (id in s.nodes <==>
                  && from.reaping.now - from.nodes[id].lastSeen < Deadline(cfg.timeoutMs)
                  && Leave(id) !in steps))
  {
    ScanBegins(cfg, from);
    ScanRuns(cfg, from, [], Apply(cfg, from, TakeSnapshot), steps);
    assert [] + steps == steps;
    var s := After(cfg, Apply(cfg, from, TakeSnapshot), steps);
    if s.reaping.left == {} {
      ScanEnds(cfg, from, steps, s);
    }
  }

  // ----- Two races the code allows -----

  lemma {:induction false} TwoSteps(cfg: Config, s: State, a: Step, b: Step)
    requires Enabled(s, a) && Enabled(Apply(cfg, s, a), b)
    ensures RunsFrom(cfg, s, [a, b])
    ensures After(cfg, s, [a, b]) == Apply(cfg, Apply(cfg, s, a), b)
  {
    var t := Apply(cfg, s, a);
    assert [a, b][1..] == [b] && [b][1..] == [];
    assert After(cfg, Apply(cfg, t, b), [b][1..]) == Apply(cfg, t, b);
    assert RunsFrom(cfg, t, [b]);
    assert After(cfg, s, [a, b]) == After(cfg, t, [b]);
  }

  /**
   The reaper decides on its copy: a pong handled between the snapshot and the reaper's turn does not
   save a node whose copy has expired.
   */
  lemma {:induction false} LatePongDoesNotSave(cfg: Config, s: State, id: NodeId, k: nat)
    requires s.reaping.Scanning? && id in s.reaping.left && id in s.reaping.taken && id in s.nodes
    requires Expired(s.reaping.now, s.reaping.taken[id].lastSeen, cfg.timeoutMs)
    requires k < |s.tasks| && s.tasks[k].id == id && s.tasks[k].m.kind == PONG
    ensures RunsFrom(cfg, s, [Handle(k), Reap(id)])
    ensures Apply(cfg, s, Handle(k)).nodes[id].lastSeen == s.clock
    ensures id !in After(cfg, s, [Handle(k), Reap(id)]).nodes
  {
    TwoSteps(cfg, s, Handle(k), Reap(id));
  }

  /** Of two waiting messages of one node, the one that is handled last decides whether it is alive. */
  lemma {:induction false} LastHandledWins(cfg: Config, s: State, i: nat, j: nat)
    requires i < |s.tasks| && j < |s.tasks| && i != j
    requires s.tasks[i].id == s.tasks[j].id && s.tasks[i].id in s.nodes
    requires Effect(cfg.host, s.clock, s.tasks[j].m).Some?
    ensures var last := Handle(if j > i then j - 1 else j);
            && RunsFrom(cfg, s, [Handle(i), last])
            && s.tasks[i].id in After(cfg, s, [Handle(i), last]).nodes
            && After(cfg, s, [Handle(i), last]).nodes[s.tasks[i].id].alive
               == Effect(cfg.host, s.clock, s.tasks[j].m).value.0.Heard?
  {
    var last := Handle(if j > i then j - 1 else j);
    var t := Apply(cfg, s, Handle(i));
    assert t.tasks == Without(s.tasks, i) && t.tasks[last.k] == s.tasks[j];
    TwoSteps(cfg, s, Handle(i), last);
  }

  // ----- Runs that reach these races -----

  /** A run that a node's thread makes possible: the node joins, and its thread is about to receive. */
  function JoinRun(id: NodeId, ip: string): seq<Step> {
    [Accept(id, ip), CheckSize, Stamp, Insert, Spawn, LookAtStop(id)]
  }

  function JustJoined(start: nat, id: NodeId, ip: string): State {
    State(start, false, map[id := NodeInfo(ip, 0, 0, start, true)], Waiting, {id}, map[id := Receiving], [], Pausing,
          [Event(id, start, Joined)])
  }

  lemma {:induction false} RunStep(cfg: Config, s: State, steps: seq<Step>, t: State, step: Step)
    requires RunsFrom(cfg, s, steps) && After(cfg, s, steps) == t && Enabled(t, step)
    ensures RunsFrom(cfg, s, steps + [step]) && After(cfg, s, steps + [step]) == Apply(cfg, t, step)
  {
    RunsOn(cfg, s, steps, step);
  }

  function JustStamped(start: nat, id: NodeId, ip: string): State {
    State(start, false, map[], Stamped(id, NodeInfo(ip, 0, 0, start, true)), {id}, map[], [], Pausing, [])
  }

  lemma {:induction false} NodeIsStamped(cfg: Config, start: nat, id: NodeId, ip: string)
    requires cfg.maxNodes > 0
    ensures RunsFrom(cfg, Initial(start), [Accept(id, ip), CheckSize, Stamp])
    ensures After(cfg, Initial(start), [Accept(id, ip), CheckSize, Stamp]) == JustStamped(start, id, ip)
  {
    hide RunsFrom, After, HandleStep;
    var s := Initial(start);
    var s1 := Apply(cfg, s, Accept(id, ip));
    var s2 := Apply(cfg, s1, CheckSize);
    TwoSteps(cfg, s, Accept(id, ip), CheckSize);
    RunStep(cfg, s, [Accept(id, ip), CheckSize], s2, Stamp);
    assert [Accept(id, ip), CheckSize] + [Stamp] == [Accept(id, ip), CheckSize, Stamp];
    assert Apply(cfg, s2, Stamp).used == {id};
  }

  lemma {:induction false} NodeJoins(cfg: Config, start: nat, id: NodeId, ip: string)
    requires cfg.maxNodes > 0
    ensures RunsFrom(cfg, Initial(start), JoinRun(id, ip))
    ensures After(cfg, Initial(start), JoinRun(id, ip)) == JustJoined(start, id, ip)
  {
    hide RunsFrom, After, HandleStep;
    var s3 := JustStamped(start, id, ip);
    var s4 := Apply(cfg, s3, Insert);
    var s5 := Apply(cfg, s4, Spawn);
    var first := [Accept(id, ip), CheckSize, Stamp];
    NodeIsStamped(cfg, start, id, ip);
    RunStep(cfg, Initial(start), first, s3, Insert);
    RunStep(cfg, Initial(start), first + [Insert], s4, Spawn);
    RunStep(cfg, Initial(start), first + [Insert] + [Spawn], s5, LookAtStop(id));
    assert JoinRun(id, ip) == first + [Insert] + [Spawn] + [LookAtStop(id)];
    var s6, goal := Apply(cfg, s5, LookAtStop(id)), JustJoined(start, id, ip);
    assert s6.nodes == goal.nodes && s6.loops == goal.loops && s6.log == goal.log;
  }

  /** Silent for the whole deadline; a pong arrives, but the reaper has already taken its copy. */
  lemma {:induction false} LatePongHappens(cfg: Config, start: nat, id: NodeId, ip: string) returns (steps: seq<Step>)
    requires cfg.maxNodes > 0
    ensures RunsFrom(cfg, Initial(start), steps) && RunsFrom(cfg, Initial(start), steps + [Handle(0), Reap(id)])
    ensures var s := After(cfg, Initial(start), steps);
            && s.reaping.Scanning? && id in s.nodes
            && s.tasks == [Task(id, Message(PONG, []))]
    ensures id !in After(cfg, Initial(start), steps + [Handle(0), Reap(id)]).nodes
  {
    var wait: nat := if Deadline(cfg.timeoutMs) > 0 then Deadline(cfg.timeoutMs) else 0;
    var m := Message(PONG, []);
    var start0 := Initial(start);
    NodeJoins(cfg, start, id, ip);
    var s := JustJoined(start, id, ip);
    var s1 := Apply(cfg, s, Receive(id, m));
    var s2 := Apply(cfg, s1, Tick(wait));
    var s3 := Apply(cfg, s2, ReadNow);
    var s4 := Apply(cfg, s3, TakeSnapshot);
    RunStep(cfg, start0, JoinRun(id, ip), s, Receive(id, m));
    RunStep(cfg, start0, JoinRun(id, ip) + [Receive(id, m)], s1, Tick(wait));
    RunStep(cfg, start0, JoinRun(id, ip) + [Receive(id, m)] + [Tick(wait)], s2, ReadNow);
    RunStep(cfg, start0, JoinRun(id, ip) + [Receive(id, m)] + [Tick(wait)] + [ReadNow], s3, TakeSnapshot);
    steps := JoinRun(id, ip) + [Receive(id, m)] + [Tick(wait)] + [ReadNow] + [TakeSnapshot];
    assert s4.tasks == [Task(id, m)] && s4.nodes == s.nodes;
    ExpiredAtDeadline(start + wait, start, cfg.timeoutMs);
    LatePongDoesNotSave(cfg, s4, id, 0);
    RunsTogether(cfg, start0, steps, [Handle(0), Reap(id)]);
  }

  /** A pong, then a shutdown; the pool handles the pong last, and the node that left counts as alive. */
  lemma {:induction false} ShutdownIsOverwritten(cfg: Config, start: nat, id: NodeId, ip: string)
    returns (steps: seq<Step>)
    requires cfg.maxNodes > 0
    ensures RunsFrom(cfg, Initial(start), steps) && RunsFrom(cfg, Initial(start), steps + [Handle(1), Handle(0)])
    ensures After(cfg, Initial(start), steps).tasks ==
              [Task(id, Message(PONG, [])), Task(id, Message(SHUTDOWN, []))]
    ensures var s := After(cfg, Initial(start), steps + [Handle(1), Handle(0)]);
            id in s.nodes && s.nodes[id].alive
  {
    var pong, bye := Message(PONG, []), Message(SHUTDOWN, []);
    var start0 := Initial(start);
    NodeJoins(cfg, start, id, ip);
    var s := JustJoined(start, id, ip);
    var s1 := Apply(cfg, s, Receive(id, pong));
    var s2 := Apply(cfg, s1, LookAtStop(id));
    var s3 := Apply(cfg, s2, Receive(id, bye));
    RunStep(cfg, start0, JoinRun(id, ip), s, Receive(id, pong));
    RunStep(cfg, start0, JoinRun(id, ip) + [Receive(id, pong)], s1, LookAtStop(id));
    RunStep(cfg, start0, JoinRun(id, ip) + [Receive(id, pong)] + [LookAtStop(id)], s2, Receive(id, bye));
    steps := JoinRun(id, ip) + [Receive(id, pong)] + [LookAtStop(id)] + [Receive(id, bye)];
    assert s3.tasks == [Task(id, pong), Task(id, bye)];
    LastHandledWins(cfg, s3, 1, 0);
    RunsTogether(cfg, start0, steps, [Handle(1), Handle(0)]);
  }
}
