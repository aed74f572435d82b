/**
 * The whole system: the manager's sessions, forwarder and spec collector, one scheduler per session's
 * node, and the result store, taking steps in any order. The streams keep their order; replies may get lost.
 */
module System {
  import opened Common
  import opened Proto
  import R = Routing
  import L = Lifecycle
  import N = Scheduler
  import Store
  import opened Decimal

  datatype State = State(
    manager: R.State,
    nodes: seq<N.State>,           // the node side of each session
    read: seq<nat>,                // how far into each node's outbox the session has read
    writes: seq<Store.Write>)      // everything given to the store

  const INIT := State(R.INIT, [], [], [])

  datatype Action =
    | Connect(node: string, cfg: N.Config)
    | Forward(req: TaskRequest, targets: map<string, bool>, data: string, committed: bool)
    | Collect(req: TaskRequest, targets: map<string, bool>)   // the spec collector asks nodes by itself
    | Hear(i: nat, p: nat, committed: bool)   // receive the p-th message of the node's outbox and store it
    | Manager(step: R.Action)
    | Node(i: nat, move: N.Action)

  /** The group of some forwarded request. */
  predicate IsGroup(forwards: seq<R.Forward>, id: int) {
    exists k | 0 <= k < |forwards| :: forwards[k].req.groupID == Some(id)
  }

  /** Ids and groups are nanosecond clock readings: positive 64-bit numbers, taken to be pairwise distinct. */
  predicate FreshReading(m: R.State, id: int) {
    0 < id <= MAX_INT64 && !IsGroup(m.forwards, id) && !R.Used(m.issued, id)
  }

  predicate OwnStep(m: R.State, step: R.Action) {
    match step
    case Session(life) => !life.OpenStream?
    case NewForward(_, _) => false
    case Receive(_, _) => false
    case SendToNode(_, id) => FreshReading(m, id)
    case _ => true
  }

  /** A node takes in what it was sent, in order. */
  predicate NextInOrder(sent: seq<TaskRequest>, node: N.State, step: N.Action) {
    step.Receive? ==> |node.jobs| < |sent| && step.req == sent[|node.jobs|]
  }

  // That there is one node and one position per session is shown to hold always.
  predicate Enabled(s: State, a: Action) {
    && |s.nodes| == |s.read| == |s.manager.routes| == |s.manager.life.lives|
    && match a
       case Connect(_, _) => true
       case Forward(req, targets, _, _) =>
         && req.groupID.Some? && FreshReading(s.manager, req.groupID.value)
         && R.Enabled(s.manager, R.NewForward(req, targets))
       case Collect(req, targets) => req.groupID.None? && R.Enabled(s.manager, R.NewForward(req, targets))
       case Hear(i, p, _) =>
         && i < |s.nodes| && s.read[i] <= p < |s.nodes[i].outbox|
         && R.Enabled(s.manager, R.Receive(i, s.nodes[i].outbox[p].resp))
       case Manager(step) => OwnStep(s.manager, step) && R.Enabled(s.manager, step)
       case Node(i, move) =>
         && i < |s.nodes| && N.Enabled(s.nodes[i], move)
         && NextInOrder(s.manager.routes[i].sent, s.nodes[i], move)
  }

  /** The manager's part of a step. */
  function ManagerStep(s: State, a: Action): Option<R.Action>
    requires Enabled(s, a)
  {
    match a
    case Connect(node, _) => Some(R.Session(L.OpenStream(node)))
    case Forward(req, targets, _, _) => Some(R.NewForward(req, targets))
    case Collect(req, targets) => Some(R.NewForward(req, targets))
    case Hear(i, p, _) => Some(R.Receive(i, s.nodes[i].outbox[p].resp))
    case Manager(step) => Some(step)
    case Node(_, _) => None
  }

  function NextManager(s: State, a: Action): R.State
    requires Enabled(s, a)
  {
    match ManagerStep(s, a)
    case None => s.manager
    case Some(step) => R.Next(s.manager, step)
  }

  function NextNodes(s: State, a: Action): seq<N.State>
    requires Enabled(s, a)
  {
    match a
    case Connect(_, cfg) => s.nodes + [N.Init(cfg)]
    case Node(i, move) => s.nodes[i := N.Next(s.nodes[i], move)]
    case _ => s.nodes
  }

  function NextRead(s: State, a: Action): seq<nat>
    requires Enabled(s, a)
  {
    match a
    case Connect(_, _) => s.read + [0]
    case Hear(i, p, _) => s.read[i := p + 1]
    case _ => s.read
  }

  /**
   * A reply is stored unless it only says that the task overran its timeout; a request is stored when it was
   * forwarded, and not when the collector made it.
   */
  function NextWrites(s: State, a: Action): seq<Store.Write>
    requires Enabled(s, a)
  {
    match a
    case Forward(req, _, data, committed) => s.writes + [Store.Request(req, data, committed)]
    case Hear(i, p, committed) =>
      var msg := s.nodes[i].outbox[p].resp;
      if msg.internalError.StartedTimeout? then s.writes
      else s.writes + [Store.Result(s.manager.life.lives[i].node, msg, committed)]
    case _ => s.writes
  }

  function Next(s: State, a: Action): State
    requires Enabled(s, a)
  {
    State(NextManager(s, a), NextNodes(s, a), NextRead(s, a), NextWrites(s, a))
  }

  // -------------------------------------------------------------------- runs

  ghost predicate CanRun(s: State, actions: seq<Action>)
    decreases |actions|
  {
    actions == [] || (Enabled(s, actions[0]) && CanRun(Next(s, actions[0]), actions[1..]))
  }

  ghost function Run(s: State, actions: seq<Action>): State
    requires CanRun(s, actions)
    decreases |actions|
  {
    if actions == [] then s else Run(Next(s, actions[0]), actions[1..])
  }

  ghost predicate IsRun(actions: seq<Action>, s: State) {
    CanRun(INIT, actions) && Run(INIT, actions) == s
  }

  ghost predicate Reachable(s: State) {
    exists actions :: IsRun(actions, s)
  }
}
