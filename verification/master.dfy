/** The master as an object: its threads change its fields one critical section at a time. */
module Masters {
  import opened Registries
  import opened Framing
  import opened MasterModel
  import opened MasterInvariant
  import opened MasterResults

  class MasterServer {
    const cfg: Config
    const registry: ConnectionRegistry
    var stopping: bool
    var tasks: seq<Task>
    // What the model records about the threads, the clock and the past.
    var clock: nat
    var accepting: Accepting
    var used: set<NodeId>
    var loops: map<NodeId, LoopPc>
    var reaping: Reaping
    var log: seq<Event>

    function View(): State
      reads this, registry
    {
      State(clock, stopping, registry.nodes, accepting, used, loops, tasks, reaping, log)
    }

    ghost predicate Valid()
      reads this, registry
    {
      registry.maxNodes == cfg.maxNodes && Inv(cfg, View())
    }

    constructor (cfg: Config, now: nat)
      ensures this.cfg == cfg && fresh(registry)
      ensures Valid() && View() == Initial(now)
    {
      this.cfg := cfg;
      var nodes := new ConnectionRegistry();
      registry := nodes;
      stopping, tasks, clock, accepting, used, loops, reaping, log := false, [], now, Waiting, {}, map[], Pausing, [];
      new;
      registry.SetMax(cfg.maxNodes);
      InitialInv(cfg, now);
    }

    // ----- The accept thread -----

    /** The size check after accept; a connection too many is closed. */
    method CheckRoom()
      requires Valid() && Enabled(View(), CheckSize)
      modifies this
      ensures Valid() && View() == Apply(cfg, old(View()), CheckSize)
    {
      StepKeepsInv(cfg, View(), CheckSize);
      var n := registry.Size();
      if n >= cfg.maxNodes {
        accepting := Waiting;
      } else {
        accepting := Checked(accepting.id, accepting.ip);
      }
    }

    /** The insertion, whose result the code ignores: it never fails. */
    method InsertNode() returns (ok: bool)
      requires Valid() && Enabled(View(), Insert)
      modifies this, registry`nodes
      ensures Valid() && View() == Apply(cfg, old(View()), Insert)
      ensures ok
    {
      StepKeepsInv(cfg, View(), Insert);
      var id, info := accepting.id, accepting.info;
      ok := registry.Insert(id, info);
      if ok {
        log := log + [Event(id, info.lastSeen, Joined)];
      }
      accepting := Inserted(id);
    }

    // ----- Connection threads -----

    /** recvMessage has returned false. */
    method ConnectionFailed(id: NodeId)
      requires Valid() && Enabled(View(), ReceiveFails(id))
      modifies this, registry`nodes
      ensures Valid() && View() == Apply(cfg, old(View()), ReceiveFails(id))
    {
      StepKeepsInv(cfg, View(), ReceiveFails(id));
      log := Recorded(View(), id, Shut);
      registry.MarkDead(id);
      loops := loops[id := Leaving];
    }

    /** The last act of a connection thread. */
    method LeaveRegistry(id: NodeId)
      requires Valid() && Enabled(View(), Leave(id))
      modifies this, registry`nodes
      ensures Valid() && View() == Apply(cfg, old(View()), Leave(id))
    {
      StepKeepsInv(cfg, View(), Leave(id));
      registry.Erase(id);
      loops := loops - {id};
    }

    // ----- The pool -----

    /** A worker of the pool handles one of the waiting messages. */
    method HandleTask(k: nat)
      requires Valid() && Enabled(View(), Handle(k))
      modifies this, registry`nodes
      ensures Valid() && View() == Apply(cfg, old(View()), Handle(k))
    {
      hide Inv;
      StepKeepsInv(cfg, View(), Handle(k));
      var task := tasks[k];
      tasks := Without(tasks, k);
      if task.m.kind == RESOURCE_REPORT {
        match DecodeReport(cfg.host, task.m.payload) {
          case Ok(rpt) =>
            log := Recorded(View(), task.id, Heard);
            registry.Update(task.id, Reported(clock, rpt));
          case Err(_) =>
        }
      } else if task.m.kind == PONG {
        log := Recorded(View(), task.id, Heard);
        registry.Update(task.id, Ponged(clock));
      } else if task.m.kind == SHUTDOWN {
        log := Recorded(View(), task.id, Shut);
        registry.MarkDead(task.id);
      }
    }

    // ----- The heartbeat thread -----

    method ReadClock()
      requires Valid() && Enabled(View(), ReadNow)
      modifies this
      ensures Valid() && View() == Apply(cfg, old(View()), ReadNow)
      ensures reaping == Timed(old(clock))
    {
      StepKeepsInv(cfg, View(), ReadNow);
      reaping := Timed(clock);
    }

    method EndRound()
      requires Valid() && Enabled(View(), EndScan)
      modifies this
      ensures Valid() && View() == Apply(cfg, old(View()), EndScan)
      ensures reaping.Pausing?
    {
      StepKeepsInv(cfg, View(), EndScan);
      reaping := Pausing;
    }

    method CopyRegistry() returns (entries: seq<(NodeId, NodeInfo)>)
      requires Valid() && Enabled(View(), TakeSnapshot)
      modifies this
      ensures Valid() && View() == Apply(cfg, old(View()), TakeSnapshot)
      ensures reaping == Scanning(old(reaping.now), registry.nodes, registry.nodes.Keys)
      ensures forall i :: 0 <= i < |entries| ==>
                entries[i].0 in registry.nodes && entries[i].1 == registry.nodes[entries[i].0]
      ensures forall i, j :: 0 <= i < j < |entries| ==> entries[i].0 != entries[j].0
      ensures forall id :: id in registry.nodes ==> Listed(entries, id)
    {
      StepKeepsInv(cfg, View(), TakeSnapshot);
      entries := registry.Snapshot();
      reaping := Scanning(reaping.now, registry.nodes, registry.nodes.Keys);
    }

    /** The reaper's verdict on one entry of its copy. */
    method ReapOne(id: NodeId, info: NodeInfo)
      requires Valid() && Enabled(View(), Reap(id)) && info == reaping.taken[id]
      modifies this, registry`nodes
      ensures Valid() && View() == Apply(cfg, old(View()), Reap(id))
    {
      StepKeepsInv(cfg, View(), Reap(id));
      var elapsed := Milliseconds(reaping.now - info.lastSeen);
      if elapsed > cfg.timeoutMs {
        registry.Erase(id);
      }
      reaping := reaping.(left := reaping.left - {id});
    }

    /**
     One round of the heartbeat while the other threads go on: before the snapshot and before each of
     the reaper's turns they take the steps `others` lists for that moment. `from` is the state in which
     the copy was taken, `ran` what happened from then on. Of the nodes that were registered in `from`,
     exactly those remain that were recently heard and whose own thread did not leave.
     */
    method HeartbeatRound(others: seq<seq<Step>>)
      returns (ghost waited: seq<Step>, ghost from: State, ghost ran: seq<Step>)
      requires Valid() && reaping.Pausing?
      modifies this, registry`nodes
      ensures Valid() && reaping.Pausing?
      ensures RunsFrom(cfg, old(View()), [ReadNow] + waited) && from == After(cfg, old(View()), [ReadNow] + waited)
      ensures from.reaping == Timed(old(clock))
      ensures RunsFrom(cfg, from, [TakeSnapshot] + ran + [EndScan])
      ensures View() == After(cfg, from, [TakeSnapshot] + ran + [EndScan])
      ensures forall id :: id in from.nodes ==>
                (id in registry.nodes <==>
                   && old(clock) - from.nodes[id].lastSeen < Deadline(cfg.timeoutMs)
                   && Leave(id) !in ran)
    {
      hide Inv, ScanSoFar, Apply, RunsFrom, After;
      ReadClock();
      waited := Meanwhile(others, 0);
      from := View();
      RunsFromStep(cfg, old(View()), ReadNow, waited);
      var entries := CopyRegistry();
      ScanBegins(cfg, from);
      ran := JudgeAll(entries, others, from);
      ScanEnds(cfg, from, ran, View());
      EndRound();
      RunsOn(cfg, Apply(cfg, from, TakeSnapshot), ran, EndScan);
      RunsFromStep(cfg, from, TakeSnapshot, ran + [EndScan]);
      assert [TakeSnapshot] + (ran + [EndScan]) == [TakeSnapshot] + ran + [EndScan];
    }

    /** The reaper goes through its copy, in whatever order the copy lists the nodes. */
    method JudgeAll(entries: seq<(NodeId, NodeInfo)>, others: seq<seq<Step>>, ghost from: State)
      returns (ghost ran: seq<Step>)
      requires Valid() && from.reaping.Timed? && View() == Apply(cfg, from, TakeSnapshot)
      requires ScanSoFar(cfg, from, [], View())
      requires reaping == Scanning(from.reaping.now, from.nodes, from.nodes.Keys)
      requires forall i :: 0 <= i < |entries| ==>
                 entries[i].0 in from.nodes && entries[i].1 == from.nodes[entries[i].0]
      requires forall i, j :: 0 <= i < j < |entries| ==> entries[i].0 != entries[j].0
      requires forall id :: id in from.nodes ==> Listed(entries, id)
      modifies this, registry`nodes
      ensures Valid() && ScanSoFar(cfg, from, ran, View())
      ensures RunsFrom(cfg, old(View()), ran) && View() == After(cfg, old(View()), ran)
      ensures reaping.Scanning? && reaping.left == {}
    {
      hide Inv, ScanSoFar, RunsFrom, After, Apply;
      ghost var start := View();
      ran := [];
      NoSteps(cfg, start);
      for i := 0 to |entries|
        invariant Valid() && ScanSoFar(cfg, from, ran, View()) && reaping.Scanning? && reaping.taken == from.nodes
        invariant RunsFrom(cfg, start, ran) && View() == After(cfg, start, ran)
        invariant forall id :: id in reaping.left <==> Listed(entries[i..], id)
      {
        ghost var before := View();
        ghost var more := Meanwhile(others, i + 1);
        ScanRuns(cfg, from, ran, before, more);
        RunsTogether(cfg, start, ran, more);
        ran := ran + more;
        assert entries[i..][0] == entries[i];
        before := View();
        ReapOne(entries[i].0, entries[i].1);
        StillScanning(cfg, before, Reap(entries[i].0));
        ScanGoesOn(cfg, from, ran, before, Reap(entries[i].0));
        RunsOn(cfg, start, ran, Reap(entries[i].0));
        ran := ran + [Reap(entries[i].0)];
        forall id {
          ListedTail(entries, i, id);
        }
      }
      assert forall id :: !Listed(entries[|entries|..], id);
      assert forall id :: id !in reaping.left;
      assert reaping.left == {};
    }

    /** What the other threads do at one moment: of the steps listed, those that are possible then. */
    method Meanwhile(others: seq<seq<Step>>, moment: nat) returns (ghost ran: seq<Step>)
      requires Valid()
      modifies this, registry`nodes
      ensures Valid() && reaping == old(reaping)
      ensures RunsFrom(cfg, old(View()), ran) && View() == After(cfg, old(View()), ran)
      ensures forall step :: step in ran ==> !Heartbeat(step)
    {
      hide Inv;
      ran := [];
      if moment < |others| {
        for i := 0 to |others[moment]|
          invariant Valid() && reaping == old(reaping)
          invariant RunsFrom(cfg, old(View()), ran) && View() == After(cfg, old(View()), ran)
          invariant forall step :: step in ran ==> !Heartbeat(step)
        {
          var step := others[moment][i];
          if !Heartbeat(step) && Enabled(View(), step) {
            RunsOn(cfg, old(View()), ran, step);
            Perform(step);
            ran := ran + [step];
          }
        }
      }
    }

    /** Any thread takes its next step. */
    method Perform(step: Step)
      requires Valid() && Enabled(View(), step)
      modifies this, registry`nodes
      ensures Valid() && View() == Apply(cfg, old(View()), step)
    {
      hide Inv;
      StepKeepsInv(cfg, View(), step);
      match step
      case Tick(nanos) => clock := clock + nanos;
      case BeginStop => stopping := true;
      case Accept(id, ip) => accepting, used := Accepted(id, ip), used + {id};
      case AcceptFails => accepting := Closed;
      case CheckSize => CheckRoom();
      case Stamp => accepting := Stamped(accepting.id, NodeInfo(accepting.ip, 0, 0, clock, true));
      case Insert =>
        var ok := InsertNode();
      case Spawn => accepting, loops := Waiting, loops[accepting.id := Head];
      case LookAtStop(id) => loops := loops[id := if stopping then Leaving else Receiving];
      case Receive(id, m) => loops, tasks := loops[id := Head], tasks + [Task(id, m)];
      case ReceiveFails(id) => ConnectionFailed(id);
      case Leave(id) => LeaveRegistry(id);
      case Handle(k) => HandleTask(k);
      case ReadNow => ReadClock();
      case TakeSnapshot =>
        var entries := CopyRegistry();
      case Reap(id) => ReapOne(id, reaping.taken[id]);
      case EndScan => EndRound();
      case EndHeartbeat => reaping := Ended;
    }
  }
}
