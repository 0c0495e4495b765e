/**
 The master as a step system. A step is one critical section under the registry's mutex, one read of
 the clock or of the stop flag, or one hand-over between threads; a run is any sequence of enabled
 steps, so it covers every interleaving of the accept thread, the connection threads, the pool's
 workers and the heartbeat thread.
 */
module MasterModel {
  import opened Options
  import opened Registries
  import opened Wire
  import opened Framing

  const NANOS_PER_MILLI := 1_000_000

  datatype Config = Config(maxNodes: nat, timeoutMs: int, host: Endian)

  /** Where the accept thread is. */
  datatype Accepting =
    | Waiting
    | Accepted(id: NodeId, ip: string)
    | Checked(id: NodeId, ip: string)
    | Stamped(id: NodeId, info: NodeInfo)
    | Inserted(id: NodeId)
    | Closed

  /** Where a connection thread is; a thread that has returned is in no table. */
  datatype LoopPc = Head | Receiving | Leaving

  /** Where the heartbeat thread is. `taken` is its copy of the registry, `left` what it has not looked at. */
  datatype Reaping =
    | Pausing
    | Timed(now: nat)
    | Scanning(now: nat, taken: Nodes, left: set<NodeId>)
    | Ended

  /** A message that waits for a worker of the pool. */
  datatype Task = Task(id: NodeId, m: Message)

  /** What happened to an entry of the registry. */
  datatype Kind = Joined | Heard | Shut
  datatype Event = Event(id: NodeId, time: nat, kind: Kind)

  datatype State = State(
    clock: nat,
    stopping: bool,
    nodes: Nodes,
    accepting: Accepting,
    used: set<NodeId>,
    loops: map<NodeId, LoopPc>,
    tasks: seq<Task>,
    reaping: Reaping,
    log: seq<Event>)

  function Initial(start: nat): State {
    State(start, false, map[], Waiting, {}, map[], [], Pausing, [])
  }

  datatype Step =
    | Tick(nanos: nat)
    | BeginStop
    | Accept(id: NodeId, ip: string)
    | AcceptFails
    | CheckSize
    | Stamp
    | Insert
    | Spawn
    | LookAtStop(id: NodeId)
    | Receive(id: NodeId, m: Message)
    | ReceiveFails(id: NodeId)
    | Leave(id: NodeId)
    | Handle(k: nat)
    | ReadNow
    | TakeSnapshot
    | Reap(id: NodeId)
    | EndScan
    | EndHeartbeat

  // ----- Time -----

  /** duration_cast to milliseconds truncates toward zero. */
  function Milliseconds(nanos: int): int {
    if nanos >= 0 then nanos / NANOS_PER_MILLI else -(-nanos / NANOS_PER_MILLI)
  }

  predicate Expired(now: int, lastSeen: int, timeoutMs: int) {
    Milliseconds(now - lastSeen) > timeoutMs
  }

  /**
   Because of the truncation a node expires one millisecond later than the timeout says: after more
   than timeoutMs but less than timeoutMs + 1 milliseconds of silence it is still spared. A negative
   timeout is exceeded as soon as the silence is.
   */
  lemma {:induction false} ExpiryThreshold(now: int, lastSeen: int, timeoutMs: int)
    ensures timeoutMs >= 0 ==> (Expired(now, lastSeen, timeoutMs) <==> now - lastSeen >= (timeoutMs + 1) * 1_000_000)
    ensures timeoutMs < 0 ==> (Expired(now, lastSeen, timeoutMs) <==> now - lastSeen > timeoutMs * 1_000_000)
  {
    var d := now - lastSeen;
    if d >= 0 {
      assert d == d / NANOS_PER_MILLI * NANOS_PER_MILLI + d % NANOS_PER_MILLI;
    } else {
      assert -d == -d / NANOS_PER_MILLI * NANOS_PER_MILLI + -d % NANOS_PER_MILLI;
    }
  }

  /** The silence, in nanoseconds, after which a node is removed. */
  function Deadline(timeoutMs: int): int {
    if timeoutMs >= 0 then (timeoutMs + 1) * NANOS_PER_MILLI else timeoutMs * NANOS_PER_MILLI + 1
  }

  lemma ExpiredAtDeadline(now: int, lastSeen: int, timeoutMs: int)
    ensures Expired(now, lastSeen, timeoutMs) <==> now - lastSeen >= Deadline(timeoutMs)
  {
    ExpiryThreshold(now, lastSeen, timeoutMs);
  }

  // ----- Handling a message -----

  function Reported(time: nat, r: Report): NodeInfo -> NodeInfo {
    (n: NodeInfo) => n.(ramBytes := r.ramBytes, threads := r.threads, lastSeen := time, alive := true)
  }

  function Ponged(time: nat): NodeInfo -> NodeInfo {
    (n: NodeInfo) => n.(lastSeen := time, alive := true)
  }

  /** What the entry of a node becomes, if the message concerns the registry at all. */
  function Effect(host: Endian, clock: nat, m: Message): (r: Option<(Kind, NodeInfo -> NodeInfo)>)
    ensures r.Some? ==> !r.value.0.Joined? && forall n ::
      && r.value.1(n).lastSeen == (if r.value.0.Heard? then clock else n.lastSeen)
      && r.value.1(n).alive == r.value.0.Heard?
  {
    if m.kind == RESOURCE_REPORT then
      match DecodeReport(host, m.payload)
      case Ok(rpt) => Some((Heard, Reported(clock, rpt)))
      case Err(_) => None
    else if m.kind == PONG then Some((Heard, Ponged(clock)))
    else if m.kind == SHUTDOWN then Some((Shut, Died))
    else None
  }

  /** The history records a message only if the node was in the registry when it was handled. */
  function Recorded(s: State, id: NodeId, kind: Kind): seq<Event> {
    if id in s.nodes then s.log + [Event(id, s.clock, kind)] else s.log
  }

  function Without<T>(s: seq<T>, k: nat): (r: seq<T>)
    requires k < |s|
    ensures |r| == |s| - 1
  {
    s[..k] + s[k + 1..]
  }

  function HandleStep(cfg: Config, s: State, k: nat): State
    requires k < |s.tasks|
  {
    var t := s.(tasks := Without(s.tasks, k));
    var id := s.tasks[k].id;
    match Effect(cfg.host, s.clock, s.tasks[k].m)
    case Some(e) => t.(nodes := Updated(s.nodes, id, e.1), log := Recorded(s, id, e.0))
    case None => t
  }

  // ----- Steps -----

  predicate Enabled(s: State, step: Step) {
    match step
    case Tick(_) => true
    case BeginStop => true
    // The operating system hands out a number that no earlier connection had.
    case Accept(id, _) => s.accepting.Waiting? && id !in s.used
    case AcceptFails => s.accepting.Waiting?
    case CheckSize => s.accepting.Accepted?
    case Stamp => s.accepting.Checked?
    case Insert => s.accepting.Stamped?
    case Spawn => s.accepting.Inserted?
    case LookAtStop(id) => id in s.loops && s.loops[id].Head?
    case Receive(id, _) => id in s.loops && s.loops[id].Receiving?
    case ReceiveFails(id) => id in s.loops && s.loops[id].Receiving?
    case Leave(id) => id in s.loops && s.loops[id].Leaving?
    case Handle(k) => k < |s.tasks|
    case ReadNow => s.reaping.Pausing?
    case TakeSnapshot => s.reaping.Timed?
    case Reap(id) => s.reaping.Scanning? && id in s.reaping.left && id in s.reaping.taken
    case EndScan => s.reaping.Scanning? && s.reaping.left == {}
    case EndHeartbeat => s.reaping.Pausing? && s.stopping
  }

  function Apply(cfg: Config, s: State, step: Step): State
    requires Enabled(s, step)
  {
    match step
    case Tick(nanos) => s.(clock := s.clock + nanos)
    case BeginStop => s.(stopping := true)
    case Accept(id, ip) => s.(accepting := Accepted(id, ip), used := s.used + {id})
    case AcceptFails => s.(accepting := Closed)
    case CheckSize =>
      s.(accepting := if |s.nodes| >= cfg.maxNodes then Waiting else Checked(s.accepting.id, s.accepting.ip))
    case Stamp =>
      s.(accepting := Stamped(s.accepting.id, NodeInfo(s.accepting.ip, 0, 0, s.clock, true)))
    case Insert =>
      var id, info := s.accepting.id, s.accepting.info;
      if |s.nodes| < cfg.maxNodes then
        s.(accepting := Inserted(id), nodes := s.nodes[id := info], log := s.log + [Event(id, info.lastSeen, Joined)])
      else
        s.(accepting := Inserted(id))
    case Spawn => s.(accepting := Waiting, loops := s.loops[s.accepting.id := Head])
    case LookAtStop(id) => s.(loops := s.loops[id := if s.stopping then Leaving else Receiving])
    case Receive(id, m) => s.(loops := s.loops[id := Head], tasks := s.tasks + [Task(id, m)])
    case ReceiveFails(id) =>
      s.(loops := s.loops[id := Leaving], nodes := Updated(s.nodes, id, Died), log := Recorded(s, id, Shut))
    case Leave(id) => s.(loops := s.loops - {id}, nodes := s.nodes - {id})
    case Handle(k) => HandleStep(cfg, s, k)
    case ReadNow => s.(reaping := Timed(s.clock))
    case TakeSnapshot => s.(reaping := Scanning(s.reaping.now, s.nodes, s.nodes.Keys))
    case Reap(id) =>
      var r := s.reaping;
      s.(reaping := r.(left := r.left - {id}),
         nodes := if Expired(r.now, r.taken[id].lastSeen, cfg.timeoutMs) then s.nodes - {id} else s.nodes)
    case EndScan => s.(reaping := Pausing)
    case EndHeartbeat => s.(reaping := Ended)
  }

  /** The steps of the heartbeat thread. */
  predicate Heartbeat(step: Step) {
    step.ReadNow? || step.TakeSnapshot? || step.Reap? || step.EndScan? || step.EndHeartbeat?
  }

  predicate RunsFrom(cfg: Config, s: State, steps: seq<Step>)
    decreases |steps|
  {
    steps == [] || (Enabled(s, steps[0]) && RunsFrom(cfg, Apply(cfg, s, steps[0]), steps[1..]))
  }

  function After(cfg: Config, s: State, steps: seq<Step>): State
    requires RunsFrom(cfg, s, steps)
    decreases |steps|
  {
    if steps == [] then s else After(cfg, Apply(cfg, s, steps[0]), steps[1..])
  }

  // ----- The invariant -----

  /** The connection that accept has returned and that is not in the registry yet. */
  predicate Pending(s: State, id: NodeId) {
    (s.accepting.Accepted? || s.accepting.Checked? || s.accepting.Stamped?) && s.accepting.id == id
  }

  /** The registry never holds more than maxNodes, and keeps a place for the connection being accepted. */
  ghost predicate CapacityOk(cfg: Config, s: State) {
    && |s.nodes| <= cfg.maxNodes
    && (s.accepting.Checked? || s.accepting.Stamped? ==> |s.nodes| < cfg.maxNodes)
  }

  /** Every entry has a connection thread that will erase it, or is about to get one. */
  ghost predicate OwnersOk(s: State) {
    forall id :: id in s.nodes ==> id in s.loops || s.accepting == Inserted(id)
  }

  /** What accept has not returned is nowhere, and what it is still working on only there. */
  ghost predicate IdsOk(s: State) {
    && s.loops.Keys <= s.used
    && (s.accepting.Waiting? || s.accepting.Closed? || s.accepting.id in s.used)
    && (forall k :: 0 <= k < |s.log| ==> s.log[k].id in s.used && !Pending(s, s.log[k].id))
    && (s.reaping.Scanning? ==> forall id :: id in s.reaping.taken ==> id in s.used && !Pending(s, id))
    && (forall id :: id in s.loops ==> !Pending(s, id) && s.accepting != Inserted(id))
  }

  /** No recorded time lies ahead of the clock. */
  ghost predicate ClockOk(s: State) {
    && (forall id :: id in s.nodes ==> s.nodes[id].lastSeen <= s.clock)
    && (s.accepting.Stamped? ==> s.accepting.info.lastSeen <= s.clock && s.accepting.info.alive)
    && (s.reaping.Timed? || s.reaping.Scanning? ==> s.reaping.now <= s.clock)
  }

  /** The last thing that happened to the entry of a node. */
  function Latest(log: seq<Event>, id: NodeId): Option<Event> {
    if log == [] then None
    else if log[|log| - 1].id == id then Some(log[|log| - 1])
    else Latest(log[..|log| - 1], id)
  }

  /** An event at which lastSeen is set. */
  predicate Sets(e: Event, id: NodeId) {
    e.id == id && !e.kind.Shut?
  }

  ghost predicate LastSeenIsLatest(log: seq<Event>, id: NodeId, lastSeen: nat) {
    && (forall k :: 0 <= k < |log| && Sets(log[k], id) ==> log[k].time <= lastSeen)
    && (exists k :: 0 <= k < |log| && Sets(log[k], id) && log[k].time == lastSeen)
  }

  /** Entries tell the truth: when the node was last heard, and whether its last word was a shutdown. */
  ghost predicate HistoryOk(s: State) {
    forall id :: id in s.nodes ==>
      && LastSeenIsLatest(s.log, id, s.nodes[id].lastSeen)
      && Latest(s.log, id).Some?
      && (s.nodes[id].alive <==> !Latest(s.log, id).value.kind.Shut?)
  }

  /** During a scan: expired nodes that were looked at are gone, and copies are only ever out of date. */
  ghost predicate ScanOk(cfg: Config, s: State) {
    s.reaping.Scanning? ==>
      var r := s.reaping;
      && r.left <= r.taken.Keys
      && (forall id :: id in r.taken && id !in r.left && Expired(r.now, r.taken[id].lastSeen, cfg.timeoutMs) ==>
            id !in s.nodes)
      && (forall id :: id in r.taken && id in s.nodes ==> r.taken[id].lastSeen <= s.nodes[id].lastSeen)
      && (forall k :: 0 <= k < |s.log| && s.log[k].id in r.taken && Sets(s.log[k], s.log[k].id) ==>
            s.log[k].time <= r.taken[s.log[k].id].lastSeen || s.log[k].time >= r.now)
  }

  ghost predicate Inv(cfg: Config, s: State) {
    CapacityOk(cfg, s) && OwnersOk(s) && IdsOk(s) && ClockOk(s) && HistoryOk(s) && ScanOk(cfg, s)
  }

  lemma InitialInv(cfg: Config, start: nat)
    ensures Inv(cfg, Initial(start))
  {
  }
}
