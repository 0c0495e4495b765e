/** What the entry of a node says: the specifications of its last report, and the address accept returned. */
module MasterEntries {
  import opened Options
  import opened Registries
  import opened Framing
  import opened MasterModel
  import opened MasterInvariant
  import opened MasterResults

  // ----- One message -----

  /** The entry n of a node after the message m of that node has been handled. */
  function Answered(cfg: Config, clock: nat, m: Message, n: NodeInfo): NodeInfo {
    if m.kind == 1 && |m.payload| == 12 then
      var r := DecodeReport(cfg.host, m.payload).value;
      NodeInfo(n.ip, r.ramBytes, r.threads, clock, true)
    else if m.kind == 3 then NodeInfo(n.ip, n.ramBytes, n.threads, clock, true)
    else if m.kind == 4 then NodeInfo(n.ip, n.ramBytes, n.threads, n.lastSeen, false)
    else n
  }

  /**
   A message takes its place in the queue and changes the entry of its sender, if there is one, by its
   type: 1 is a report, 3 a pong, 4 a shutdown; every other type, and a report that is not 12 bytes
   long, changes nothing.
   */
  lemma {:induction false} HandleLaw(cfg: Config, s: State, k: nat)
    requires k < |s.tasks|
    ensures var t := Apply(cfg, s, Handle(k));
            && t == s.(tasks := s.tasks[..k] + s.tasks[k + 1..], nodes := t.nodes, log := t.log)
            && t.nodes.Keys == s.nodes.Keys
            && forall id :: id in s.nodes ==>
                 t.nodes[id] == if id == s.tasks[k].id then Answered(cfg, s.clock, s.tasks[k].m, s.nodes[id])
                                else s.nodes[id]
  {
  }

  /** A report from a host of the master's byte order is stored as it was sent. */
  lemma {:induction false} ReportIsStored(cfg: Config, s: State, k: nat, r: Report)
    requires InRange(r) && k < |s.tasks| && s.tasks[k].id in s.nodes
    requires s.tasks[k].m == Message(1, EncodeReport(cfg.host, r))
    ensures var id := s.tasks[k].id;
            Apply(cfg, s, Handle(k)).nodes ==
              s.nodes[id := NodeInfo(s.nodes[id].ip, r.ramBytes, r.threads, s.clock, true)]
  {
    HandleLaw(cfg, s, k);
    ReportRoundTrip(cfg.host, cfg.host, r);
  }

  // ----- The last report -----

  /** The report that a step handles for a registered node. */
  function ReportIn(cfg: Config, s: State, step: Step, id: NodeId): Option<Report>
    requires Enabled(s, step)
  {
    if step.Handle? && id in s.nodes && s.tasks[step.k].id == id
       && s.tasks[step.k].m.kind == 1 && |s.tasks[step.k].m.payload| == 12 then
      Some(DecodeReport(cfg.host, s.tasks[step.k].m.payload).value)
    else None
  }

  /** The last report that a run handles for a node while it is registered. */
  function LastReport(cfg: Config, s: State, steps: seq<Step>, id: NodeId): Option<Report>
    requires RunsFrom(cfg, s, steps)
    decreases |steps|
  {
    if steps == [] then None
    else
      var later := LastReport(cfg, Apply(cfg, s, steps[0]), steps[1..], id);
      if later.Some? then later else ReportIn(cfg, s, steps[0], id)
  }

  /** The report is what n tells; without one, n tells what `before` told. */
  predicate Tells(n: NodeInfo, r: Option<Report>, before: (nat, nat)) {
    (n.ramBytes, n.threads) == if r.Some? then (r.value.ramBytes, r.value.threads) else before
  }

  function Specs(s: State, id: NodeId): (nat, nat) {
    if id in s.nodes then (s.nodes[id].ramBytes, s.nodes[id].threads) else (0, 0)
  }

  /** Addresses come from accept, and what is about to be inserted has no specifications yet. */
  ghost predicate IpsKnown(s: State, ran: seq<Step>) {
    && (s.accepting.Accepted? || s.accepting.Checked? ==> Accept(s.accepting.id, s.accepting.ip) in ran)
    && (s.accepting.Stamped? ==>
          && Accept(s.accepting.id, s.accepting.info.ip) in ran
          && s.accepting.info.ramBytes == 0 && s.accepting.info.threads == 0)
    && (forall id :: id in s.nodes ==> Accept(id, s.nodes[id].ip) in ran)
  }

  /** What a step does to an entry that stays. */
  lemma {:induction false} EntryStep(cfg: Config, s: State, step: Step, id: NodeId)
    requires Enabled(s, step) && id in s.nodes && id in Apply(cfg, s, step).nodes
    requires !Pending(s, id)
    ensures var n, n' := s.nodes[id], Apply(cfg, s, step).nodes[id];
            n'.ip == n.ip && Tells(n', ReportIn(cfg, s, step, id), (n.ramBytes, n.threads))
  {
    hide HandleStep;
    if step.Handle? {
      HandleLaw(cfg, s, step.k);
    }
  }

  /** Only an insertion adds an entry. */
  lemma {:induction false} EntryAppears(cfg: Config, s: State, step: Step, id: NodeId)
    requires Enabled(s, step) && id !in s.nodes && id in Apply(cfg, s, step).nodes
    ensures s.accepting.Stamped? && s.accepting.id == id && Apply(cfg, s, step).nodes[id] == s.accepting.info
  {
  }

  lemma {:induction false} IpsAccepted(cfg: Config, s: State, step: Step, ran: seq<Step>)
    requires Enabled(s, step) && IpsKnown(s, ran)
    ensures var t := Apply(cfg, s, step);
            && (t.accepting.Accepted? || t.accepting.Checked? ==>
                  Accept(t.accepting.id, t.accepting.ip) in ran + [step])
            && (t.accepting.Stamped? ==>
                  && Accept(t.accepting.id, t.accepting.info.ip) in ran + [step]
                  && t.accepting.info.ramBytes == 0 && t.accepting.info.threads == 0)
  {
  }

  lemma {:induction false} IpsStayKnown(cfg: Config, s: State, step: Step, ran: seq<Step>)
    requires Inv(cfg, s) && Enabled(s, step) && IpsKnown(s, ran)
    ensures IpsKnown(Apply(cfg, s, step), ran + [step])
  {
    hide Inv, Apply, Enabled;
    var t := Apply(cfg, s, step);
    IpsAccepted(cfg, s, step, ran);
    forall id | id in t.nodes ensures Accept(id, t.nodes[id].ip) in ran + [step] {
      if id in s.nodes {
        NotPending(cfg, s, id);
        EntryStep(cfg, s, step, id);
      } else {
        EntryAppears(cfg, s, step, id);
      }
    }
  }

  lemma {:induction false} IpsKnownAfter(cfg: Config, s: State, steps: seq<Step>, ran: seq<Step>)
    requires Inv(cfg, s) && IpsKnown(s, ran) && RunsFrom(cfg, s, steps)
    ensures IpsKnown(After(cfg, s, steps), ran + steps)
    decreases |steps|
  {
    if steps == [] {
      assert ran + steps == ran;
    } else {
      StepKeepsInv(cfg, s, steps[0]);
      IpsStayKnown(cfg, s, steps[0], ran);
      IpsKnownAfter(cfg, Apply(cfg, s, steps[0]), steps[1..], ran + [steps[0]]);
      assert ran + [steps[0]] + steps[1..] == ran + steps;
    }
  }

  /** Over any run, the specifications of a registered node are those of its last report. */
  lemma {:induction false} SpecsAfter(cfg: Config, s: State, steps: seq<Step>, ran: seq<Step>, id: NodeId)
    requires Inv(cfg, s) && IpsKnown(s, ran) && RunsFrom(cfg, s, steps)
    requires id in After(cfg, s, steps).nodes
    ensures Tells(After(cfg, s, steps).nodes[id], LastReport(cfg, s, steps, id), Specs(s, id))
    decreases |steps|
  {
    hide Inv, Apply, Enabled;
    if steps != [] {
      var t := Apply(cfg, s, steps[0]);
      StepKeepsInv(cfg, s, steps[0]);
      IpsStayKnown(cfg, s, steps[0], ran);
      SpecsAfter(cfg, t, steps[1..], ran + [steps[0]], id);
      SpecsStep(cfg, s, steps[0], steps[1..], ran, id);
    }
  }

  /** A step that handles no report for the node leaves its specifications as they are. */
  lemma {:induction false} SpecsStep(cfg: Config, s: State, step: Step, later: seq<Step>, ran: seq<Step>, id: NodeId)
    requires Inv(cfg, s) && IpsKnown(s, ran) && Enabled(s, step) && RunsFrom(cfg, Apply(cfg, s, step), later)
    requires id in After(cfg, Apply(cfg, s, step), later).nodes
    ensures var r := ReportIn(cfg, s, step, id);
            Specs(Apply(cfg, s, step), id) == if r.Some? then (r.value.ramBytes, r.value.threads) else Specs(s, id)
  {
    hide Inv, Apply, Enabled, RunsFrom, After;
    var t := Apply(cfg, s, step);
    if id in s.nodes {
      NotPending(cfg, s, id);
      if id !in t.nodes {
        RemovedIsGone(cfg, s, step, id);
        GoneForGood(cfg, t, later, id);
        assert false;
      }
      EntryStep(cfg, s, step, id);
    } else if id in t.nodes {
      EntryAppears(cfg, s, step, id);
    }
  }

  lemma {:induction false} RemovedIsGone(cfg: Config, s: State, step: Step, id: NodeId)
    requires Inv(cfg, s) && Enabled(s, step) && id in s.nodes && id !in Apply(cfg, s, step).nodes
    ensures Gone(Apply(cfg, s, step), id)
  {
    NotPending(cfg, s, id);
    NeverPendingAgain(cfg, s, step, id);
  }

  /**
   After any run of the master, a registered entry has the address that accept returned for it and the
   specifications of the last report that was handled for it, zeros if there was none.
   */
  lemma {:induction false} EntryTells(cfg: Config, start: nat, steps: seq<Step>, id: NodeId)
    requires RunsFrom(cfg, Initial(start), steps)
    requires id in After(cfg, Initial(start), steps).nodes
    ensures var n := After(cfg, Initial(start), steps).nodes[id];
            && Accept(id, n.ip) in steps
            && Tells(n, LastReport(cfg, Initial(start), steps, id), (0, 0))
  {
    InitialInv(cfg, start);
    IpsKnownAfter(cfg, Initial(start), steps, []);
    assert [] + steps == steps;
    SpecsAfter(cfg, Initial(start), steps, [], id);
  }

  // ----- Every message once -----

  /** The messages that the connection threads hand to the pool in a run. */
  function Received(steps: seq<Step>): multiset<Task> {
    if steps == [] then multiset{}
    else
      (if steps[0].Receive? then multiset{Task(steps[0].id, steps[0].m)} else multiset{}) + Received(steps[1..])
  }

  /** The messages that the pool handles in a run. */
  function Handled(cfg: Config, s: State, steps: seq<Step>): multiset<Task>
    requires RunsFrom(cfg, s, steps)
    decreases |steps|
  {
    if steps == [] then multiset{}
    else
      (if steps[0].Handle? then multiset{s.tasks[steps[0].k]} else multiset{})
      + Handled(cfg, Apply(cfg, s, steps[0]), steps[1..])
  }

  /** Every message received in a run is handled once or still waits; nothing else is handled. */
  lemma {:induction false} MessagesHandledOnce(cfg: Config, s: State, steps: seq<Step>)
    requires RunsFrom(cfg, s, steps)
    ensures multiset(s.tasks) + Received(steps) == Handled(cfg, s, steps) + multiset(After(cfg, s, steps).tasks)
    decreases |steps|
  {
    hide Apply, Enabled;
    if steps != [] {
      TasksAfterStep(cfg, s, steps[0]);
      var t := Apply(cfg, s, steps[0]);
      MessagesHandledOnce(cfg, t, steps[1..]);
      var now := if steps[0].Handle? then multiset{s.tasks[steps[0].k]} else multiset{};
      var arrived := if steps[0].Receive? then multiset{Task(steps[0].id, steps[0].m)} else multiset{};
      calc {
        multiset(s.tasks) + Received(steps);
        multiset(s.tasks) + arrived + Received(steps[1..]);
        multiset(t.tasks) + now + Received(steps[1..]);
        now + (multiset(t.tasks) + Received(steps[1..]));
        now + (Handled(cfg, t, steps[1..]) + multiset(After(cfg, t, steps[1..]).tasks));
        Handled(cfg, s, steps) + multiset(After(cfg, s, steps).tasks);
      }
    }
  }

  lemma {:induction false} TasksAfterStep(cfg: Config, s: State, step: Step)
    requires Enabled(s, step)
    ensures step.Handle? ==> step.k < |s.tasks|
    ensures multiset(s.tasks) + (if step.Receive? then multiset{Task(step.id, step.m)} else multiset{})
         == multiset(Apply(cfg, s, step).tasks) + if step.Handle? then multiset{s.tasks[step.k]} else multiset{}
  {
    hide HandleStep;
    if step.Handle? {
      HandleLaw(cfg, s, step.k);
      assert s.tasks == s.tasks[..step.k] + [s.tasks[step.k]] + s.tasks[step.k + 1..];
    }
  }
}
