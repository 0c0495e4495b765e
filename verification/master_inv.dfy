/** Every step keeps the invariant of the master. */
module MasterInvariant {
  import opened Options
  import opened Registries
  import opened MasterModel

  lemma {:induction false} EraseShrinks(nodes: Nodes, id: NodeId)
    ensures |nodes - {id}| <= |nodes|
  {
    var smaller := nodes - {id};
    if id in nodes {
      assert smaller.Keys == nodes.Keys - {id};
    } else {
      assert smaller == nodes;
    }
  }

  lemma {:induction false} UpdateKeepsSize(nodes: Nodes, id: NodeId, fn: NodeInfo -> NodeInfo)
    ensures |Updated(nodes, id, fn)| == |nodes|
  {
    assert |Updated(nodes, id, fn).Keys| == |nodes.Keys|;
  }

  lemma {:induction false} InsertGrowsByOne(nodes: Nodes, id: NodeId, info: NodeInfo)
    ensures |nodes[id := info]| <= |nodes| + 1
  {
    assert nodes[id := info].Keys == nodes.Keys + {id};
  }

  lemma SmallerIsOk(cfg: Config, s: State, t: State)
    requires CapacityOk(cfg, s) && t.accepting == s.accepting && |t.nodes| <= |s.nodes|
    ensures CapacityOk(cfg, t)
  {
  }

  /** The accept thread's own steps, and all that do not touch the registry. */
  lemma {:induction false} CapacityMoved(cfg: Config, s: State, step: Step)
    requires CapacityOk(cfg, s) && Enabled(s, step)
    requires !step.Handle? && !step.ReceiveFails? && !step.Leave? && !step.Reap?
    ensures CapacityOk(cfg, Apply(cfg, s, step))
  {
    if step.Insert? {
      InsertGrowsByOne(s.nodes, s.accepting.id, s.accepting.info);
    }
  }

  lemma {:induction false} CapacityKept(cfg: Config, s: State, step: Step)
    requires Inv(cfg, s) && Enabled(s, step)
    ensures CapacityOk(cfg, Apply(cfg, s, step))
  {
    hide CapacityOk, OwnersOk, IdsOk, ClockOk, HistoryOk, ScanOk;
    var t := Apply(cfg, s, step);
    match step
    case Handle(k) =>
      match Effect(cfg.host, s.clock, s.tasks[k].m) {
        case Some(e) => UpdateKeepsSize(s.nodes, s.tasks[k].id, e.1);
        case None =>
      }
      SmallerIsOk(cfg, s, t);
    case ReceiveFails(id) =>
      UpdateKeepsSize(s.nodes, id, Died);
      SmallerIsOk(cfg, s, t);
    case Leave(id) =>
      EraseShrinks(s.nodes, id);
      SmallerIsOk(cfg, s, t);
    case Reap(id) =>
      EraseShrinks(s.nodes, id);
      SmallerIsOk(cfg, s, t);
    case _ => CapacityMoved(cfg, s, step);
  }

  lemma {:induction false} OwnersKept(cfg: Config, s: State, step: Step)
    requires Inv(cfg, s) && Enabled(s, step)
    ensures OwnersOk(Apply(cfg, s, step))
  {
    hide CapacityOk, ClockOk, HistoryOk, ScanOk;
  }

  /** What a handled message or a failed connection does to an entry. */
  ghost predicate Changes(s: State, t: State, id: NodeId, kind: Kind, fn: NodeInfo -> NodeInfo) {
    && !kind.Joined?
    && t.nodes == Updated(s.nodes, id, fn)
    && t.log == Recorded(s, id, kind)
    && (forall n :: fn(n).lastSeen == if kind.Heard? then s.clock else n.lastSeen)
    && (forall n :: fn(n).alive == kind.Heard?)
  }

  lemma {:induction false} IdsChanged(cfg: Config, s: State, t: State, id: NodeId, kind: Kind,
                                      fn: NodeInfo -> NodeInfo)
    requires OwnersOk(s) && IdsOk(s) && Changes(s, t, id, kind, fn)
    requires t.accepting == s.accepting && t.used == s.used && t.loops.Keys == s.loops.Keys && t.reaping == s.reaping
    ensures IdsOk(t)
  {
  }

  lemma {:induction false} IdsMoved(cfg: Config, s: State, step: Step)
    requires OwnersOk(s) && IdsOk(s) && Enabled(s, step) && !step.Handle? && !step.ReceiveFails?
    ensures IdsOk(Apply(cfg, s, step))
  {
  }

  lemma {:induction false} IdsKept(cfg: Config, s: State, step: Step)
    requires Inv(cfg, s) && Enabled(s, step)
    ensures IdsOk(Apply(cfg, s, step))
  {
    var t := Apply(cfg, s, step);
    hide CapacityOk, OwnersOk, IdsOk, ClockOk, HistoryOk, ScanOk;
    match step
    case ReceiveFails(id) => IdsChanged(cfg, s, t, id, Shut, Died);
    case Handle(k) =>
      match Effect(cfg.host, s.clock, s.tasks[k].m) {
        case Some(e) => IdsChanged(cfg, s, t, s.tasks[k].id, e.0, e.1);
        case None => SameIds(s, t);
      }
    case _ => IdsMoved(cfg, s, step);
  }

  lemma SameIds(s: State, t: State)
    requires IdsOk(s) && t == s.(tasks := t.tasks)
    ensures IdsOk(t)
  {
  }

  lemma {:induction false} ClockKept(cfg: Config, s: State, step: Step)
    requires Inv(cfg, s) && Enabled(s, step)
    ensures ClockOk(Apply(cfg, s, step))
  {
    hide CapacityOk, OwnersOk, IdsOk, HistoryOk, ScanOk;
  }

  lemma LatestAppend(log: seq<Event>, e: Event, id: NodeId)
    ensures Latest(log + [e], id) == if e.id == id then Some(e) else Latest(log, id)
  {
    assert (log + [e])[..|log|] == log;
  }

  lemma {:induction false} LatestUnheard(log: seq<Event>, e: Event, id: NodeId, lastSeen: nat)
    requires LastSeenIsLatest(log, id, lastSeen) && !Sets(e, id)
    ensures LastSeenIsLatest(log + [e], id, lastSeen)
  {
    var k :| 0 <= k < |log| && Sets(log[k], id) && log[k].time == lastSeen;
    assert (log + [e])[k] == log[k];
  }

  lemma {:induction false} LatestHeard(log: seq<Event>, e: Event, id: NodeId)
    requires forall k :: 0 <= k < |log| && Sets(log[k], id) ==> log[k].time <= e.time
    requires Sets(e, id)
    ensures LastSeenIsLatest(log + [e], id, e.time)
  {
    assert (log + [e])[|log|] == e;
  }

  lemma {:induction false} HistoryChanged(s: State, t: State, id: NodeId, kind: Kind, fn: NodeInfo -> NodeInfo)
    requires HistoryOk(s) && ClockOk(s) && Changes(s, t, id, kind, fn)
    ensures HistoryOk(t)
  {
    if id in s.nodes {
      var e := Event(id, s.clock, kind);
      forall k | k in s.nodes
        ensures LastSeenIsLatest(t.log, k, t.nodes[k].lastSeen)
        ensures Latest(t.log, k) == if k == id then Some(e) else Latest(s.log, k)
      {
        LatestAppend(s.log, e, k);
        if Sets(e, k) {
          LatestHeard(s.log, e, k);
        } else {
          LatestUnheard(s.log, e, k, s.nodes[k].lastSeen);
        }
      }
    }
  }

  lemma {:induction false} HistoryJoined(cfg: Config, s: State)
    requires Inv(cfg, s) && s.accepting.Stamped?
    ensures HistoryOk(Apply(cfg, s, Insert))
  {
    var t := Apply(cfg, s, Insert);
    var e := Event(s.accepting.id, s.accepting.info.lastSeen, Joined);
    forall k | k in t.nodes
      ensures LastSeenIsLatest(t.log, k, t.nodes[k].lastSeen)
      ensures Latest(t.log, k) == if k == e.id then Some(e) else Latest(s.log, k)
    {
      LatestAppend(s.log, e, k);
      if k == e.id {
        LatestHeard(s.log, e, k);
      } else {
        LatestUnheard(s.log, e, k, s.nodes[k].lastSeen);
      }
    }
  }

  lemma {:induction false} HistoryKept(cfg: Config, s: State, step: Step)
    requires Inv(cfg, s) && Enabled(s, step)
    ensures HistoryOk(Apply(cfg, s, step))
  {
    var t := Apply(cfg, s, step);
    match step
    case Insert => HistoryJoined(cfg, s);
    case ReceiveFails(id) => HistoryChanged(s, t, id, Shut, Died);
    case Handle(k) =>
      match Effect(cfg.host, s.clock, s.tasks[k].m) {
        case Some(e) => HistoryChanged(s, t, s.tasks[k].id, e.0, e.1);
        case None =>
      }
    case _ =>
  }

  lemma {:induction false} ScanChanged(cfg: Config, s: State, t: State, id: NodeId, kind: Kind,
                                       fn: NodeInfo -> NodeInfo)
    requires Inv(cfg, s) && Changes(s, t, id, kind, fn) && t.reaping == s.reaping
    ensures ScanOk(cfg, t)
  {
  }

  lemma {:induction false} ScanKept(cfg: Config, s: State, step: Step)
    requires Inv(cfg, s) && Enabled(s, step)
    ensures ScanOk(cfg, Apply(cfg, s, step))
  {
    var t := Apply(cfg, s, step);
    match step
    case Insert => ScanJoined(cfg, s);
    case ReceiveFails(id) => ScanChanged(cfg, s, t, id, Shut, Died);
    case Handle(k) =>
      match Effect(cfg.host, s.clock, s.tasks[k].m) {
        case Some(e) => ScanChanged(cfg, s, t, s.tasks[k].id, e.0, e.1);
        case None =>
      }
    case TakeSnapshot => ScanStarted(cfg, s);
    case Reap(id) =>
    case _ =>
  }

  /** A node that joins during a scan is not in the scan's copy. */
  lemma {:induction false} ScanJoined(cfg: Config, s: State)
    requires Inv(cfg, s) && s.accepting.Stamped?
    ensures ScanOk(cfg, Apply(cfg, s, Insert))
  {
    assert Pending(s, s.accepting.id);
  }

  /** The copy holds the time of the last message of every node. */
  lemma {:induction false} ScanStarted(cfg: Config, s: State)
    requires Inv(cfg, s) && s.reaping.Timed?
    ensures ScanOk(cfg, Apply(cfg, s, TakeSnapshot))
  {
    forall k | 0 <= k < |s.log| && s.log[k].id in s.nodes && Sets(s.log[k], s.log[k].id)
      ensures s.log[k].time <= s.nodes[s.log[k].id].lastSeen
    {
      assert LastSeenIsLatest(s.log, s.log[k].id, s.nodes[s.log[k].id].lastSeen);
    }
  }

  lemma {:induction false} StepKeepsInv(cfg: Config, s: State, step: Step)
    requires Inv(cfg, s) && Enabled(s, step)
    ensures Inv(cfg, Apply(cfg, s, step))
  {
    CapacityKept(cfg, s, step);
    OwnersKept(cfg, s, step);
    IdsKept(cfg, s, step);
    ClockKept(cfg, s, step);
    HistoryKept(cfg, s, step);
    ScanKept(cfg, s, step);
  }

  lemma {:induction false} RunKeepsInv(cfg: Config, s: State, steps: seq<Step>)
    requires Inv(cfg, s) && RunsFrom(cfg, s, steps)
    ensures Inv(cfg, After(cfg, s, steps))
    decreases |steps|
  {
    if steps != [] {
      StepKeepsInv(cfg, s, steps[0]);
      RunKeepsInv(cfg, Apply(cfg, s, steps[0]), steps[1..]);
    }
  }

  lemma {:induction false} RunsOn(cfg: Config, s: State, steps: seq<Step>, step: Step)
    requires RunsFrom(cfg, s, steps) && Enabled(After(cfg, s, steps), step)
    ensures RunsFrom(cfg, s, steps + [step])
    ensures After(cfg, s, steps + [step]) == Apply(cfg, After(cfg, s, steps), step)
    decreases |steps|
  {
    if steps == [] {
      assert steps + [step] == [step] && [step][1..] == [];
      assert After(cfg, Apply(cfg, s, step), [step][1..]) == Apply(cfg, s, step);
    } else {
      RunsOn(cfg, Apply(cfg, s, steps[0]), steps[1..], step);
      assert (steps + [step])[1..] == steps[1..] + [step];
    }
  }

  lemma NoSteps(cfg: Config, s: State)
    ensures RunsFrom(cfg, s, []) && After(cfg, s, []) == s
  {
  }

  lemma RunsFromStep(cfg: Config, s: State, step: Step, steps: seq<Step>)
    requires Enabled(s, step) && RunsFrom(cfg, Apply(cfg, s, step), steps)
    ensures RunsFrom(cfg, s, [step] + steps)
    ensures After(cfg, s, [step] + steps) == After(cfg, Apply(cfg, s, step), steps)
  {
    assert ([step] + steps)[1..] == steps;
  }

  lemma {:induction false} RunsTogether(cfg: Config, s: State, first: seq<Step>, second: seq<Step>)
    requires RunsFrom(cfg, s, first) && RunsFrom(cfg, After(cfg, s, first), second)
    ensures RunsFrom(cfg, s, first + second)
    ensures After(cfg, s, first + second) == After(cfg, After(cfg, s, first), second)
    decreases |first|
  {
    if first == [] {
      assert first + second == second;
    } else {
      RunsTogether(cfg, Apply(cfg, s, first[0]), first[1..], second);
      assert (first + second)[1..] == first[1..] + second;
    }
  }
}
