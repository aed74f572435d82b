/**
 * Requests and replies: the forwarder starts one caller per connected target; each session assigns ids,
 * keeps a table from ids to the callers' reply channels, and delivers what its node answers. Built on
 * `Lifecycle`, whose sessions these are.
 */
module Routing {
  import opened Common
  import opened Proto
  import D = Dispatch
  import L = Lifecycle

  type CallerId = L.CallerId

  /** The sending loop between fetching the channel and leaving it. */
  datatype Sender =
    | Ranging
    | Holding(c: CallerId)                 // took a task, has not sent it yet
    | Recording(id: int, c: CallerId)      // sent it, has not recorded the reply channel yet

  /** The receiving loop. */
  datatype Inbox =
    | Idle
    | Got(msg: TaskResponse)
    | Delivering(msg: TaskResponse, c: CallerId)
    | Deleting(id: int)

  datatype Route = Route(
    sender: Sender,
    inbox: Inbox,
    replies: map<int, CallerId>,           // responsesCh
    cleanups: set<int>,                    // delayed cleanups that have not happened yet
    removed: set<int>,                     // ids whose entry was deleted, by a cleanup or after a reply
    sent: seq<TaskRequest>,                // everything sent to the node
    received: seq<TaskResponse>)           // everything received from it

  datatype Outcome = Synthetic(error: InternalError) | Reply(msg: TaskResponse)

  datatype CallerPc = Starting | Sending | Awaiting | Done(outcome: Outcome)

  /** `buffer` is the reply channel, of capacity one; `delivered` is everything ever put into it. */
  datatype Caller = Caller(pc: CallerPc, buffer: seq<TaskResponse>, delivered: seq<TaskResponse>)

  /** A forwarded request: its targets with their readiness, and the results so far. */
  datatype Forward = Forward(req: TaskRequest, targets: map<string, bool>, results: map<string, Outcome>)

  datatype State = State(
    life: L.State,
    routes: seq<Route>,                    // one per session
    forwards: seq<Forward>,
    callers: map<CallerId, Caller>,
    issued: map<CallerId, (nat, int)>)   // the session and id each sent task got

  const INIT := State(L.INIT, [], [], map[], map[])

  const FRESH_ROUTE := Route(Ranging, Idle, map[], {}, {}, [], [])
  const FRESH_CALLER := Caller(Starting, [], [])

  /** What the node is sent: the caller's lock mode is not passed on. */
  function Forwarded(req: TaskRequest, id: int): TaskRequest {
    TaskRequest(id, req.groupID, Unspecified, req.timeout, req.task, req.input)
  }

  // ----------------------------------------------------------------- actions

  datatype Action =
    | Session(step: L.Action)              // the session's own life, as in Lifecycle
    | TakeTask(i: nat, c: CallerId)        // the sending loop and a caller meet on the channel
    | SendToNode(i: nat, id: int)
    | FailToSend(i: nat)
    | RecordReply(i: nat)
    | CleanUp(i: nat, id: int)             // the delayed cleanup of one id
    | Receive(i: nat, msg: TaskResponse)
    | LookUp(i: nat)
    | Deliver(i: nat)
    | GiveUpDelivery(i: nat)
    | DeleteEntry(i: nat)
    | NewForward(req: TaskRequest, targets: map<string, bool>)
    | StartSend(c: CallerId)
    | TimeOutSend(c: CallerId)
    | TakeReply(c: CallerId)
    | TimeOutWait(c: CallerId)

  /** Steps of a session that its two loops take by themselves. */
  predicate OwnStep(s: State, step: L.Action) {
    match step
    case BeginSend(_) => false
    case EndSend(_) => false
    case FailStream(_) => false
    case EndRange(i) => i < |s.routes| && s.routes[i].sender.Ranging?
    case EndStream(i) => i < |s.routes| && s.routes[i].inbox.Idle?
    case _ => true
  }

  predicate Ranges(s: State, i: nat) {
    && i < |s.routes| && i < |s.life.lives|
    && s.life.lives[i].phase.Active? && !s.life.lives[i].senderDone
    && s.life.lives[i].channel.Some? && s.life.lives[i].channel.value.Open?
  }

  predicate Receives(s: State, i: nat) {
    i < |s.routes| && i < |s.life.lives| && s.life.lives[i].phase.Active? && s.life.lives[i].receiver.Receiving?
  }

  predicate At(s: State, c: CallerId, pc: CallerPc) {
    c in s.callers && s.callers[c].pc == pc && c.0 < |s.forwards|
  }

  predicate Used(issued: map<CallerId, (nat, int)>, id: int) {
    exists c | c in issued :: issued[c].1 == id
  }

  // Bounds of sequences and maps are part of a step's condition only to give it a meaning; the invariant
  // shows that they always hold.
  predicate Enabled(s: State, a: Action) {
    match a
    case Session(step) => OwnStep(s, step) && L.Enabled(s.life, step)
    case TakeTask(i, c) =>
      && Ranges(s, i) && s.routes[i].sender.Ranging? && At(s, c, Sending)
      && c in s.life.sending && s.life.sending[c] == s.life.lives[i].channel.value.gen
    case SendToNode(i, id) => Ranges(s, i) && s.routes[i].sender.Holding? && !Used(s.issued, id)
                              && s.routes[i].sender.c.0 < |s.forwards|
    case FailToSend(i) => Ranges(s, i) && s.routes[i].sender.Holding?
    case RecordReply(i) => Ranges(s, i) && s.routes[i].sender.Recording?
    case CleanUp(i, id) => i < |s.routes| && id in s.routes[i].cleanups
    case Receive(i, _) => Receives(s, i) && s.routes[i].inbox.Idle?
    case LookUp(i) => Receives(s, i) && s.routes[i].inbox.Got?
    case Deliver(i) =>
      && Receives(s, i) && s.routes[i].inbox.Delivering? && s.routes[i].inbox.c in s.callers
      && |s.callers[s.routes[i].inbox.c].buffer| < 1
    case GiveUpDelivery(i) => Receives(s, i) && s.routes[i].inbox.Delivering?
    case DeleteEntry(i) => Receives(s, i) && s.routes[i].inbox.Deleting?
    case NewForward(_, targets) =>
      && s.life.pending.None?            // targeting reads under the lock, and so does the start of a send
      && forall node | node in targets :: targets[node] == D.IsReady(s.life.table, node)
    case StartSend(c) => At(s, c, Starting) && s.life.pending.None?
    case TimeOutSend(c) => At(s, c, Sending) && c in s.life.sending
    case TakeReply(c) => At(s, c, Awaiting) && s.callers[c].buffer != []
    case TimeOutWait(c) => At(s, c, Awaiting)
  }

  // -------------------------------------------------------------------- steps

  /** The part of a step that happens in `Lifecycle`. */
  function LifeStep(s: State, a: Action): Option<L.Action>
    requires Enabled(s, a)
  {
    match a
    case Session(step) => Some(step)
    case TakeTask(_, c) => Some(L.EndSend(c))
    case FailToSend(i) => Some(L.FailStream(i))
    case StartSend(c) =>
      if c !in s.life.sending && D.StartSend(s.life.table, c.1).SendTo? then Some(L.BeginSend(c)) else None
    case TimeOutSend(c) => Some(L.EndSend(c))
    case _ => None
  }

  function NextLife(s: State, a: Action): L.State
    requires Enabled(s, a)
  {
    match LifeStep(s, a)
    case None => s.life
    case Some(step) => L.Next(s.life, step)
  }

  function NextRoutes(s: State, a: Action): seq<Route>
    requires Enabled(s, a)
  {
    match a
    case Session(OpenStream(_)) => s.routes + [FRESH_ROUTE]
    case TakeTask(i, c) => s.routes[i := s.routes[i].(sender := Holding(c))]
    case SendToNode(i, id) =>
      var c := s.routes[i].sender.c;
      s.routes[i := s.routes[i].(sender := Recording(id, c),
                                 sent := s.routes[i].sent + [Forwarded(s.forwards[c.0].req, id)])]
    case FailToSend(i) => s.routes[i := s.routes[i].(sender := Ranging)]
    case RecordReply(i) =>
      var r := s.routes[i];
      s.routes[i := r.(sender := Ranging, replies := r.replies[r.sender.id := r.sender.c],
                       cleanups := r.cleanups + {r.sender.id})]
    case CleanUp(i, id) =>
      var r := s.routes[i];
      s.routes[i := r.(replies := r.replies - {id}, cleanups := r.cleanups - {id}, removed := r.removed + {id})]
    case Receive(i, msg) =>
      s.routes[i := s.routes[i].(inbox := Got(msg), received := s.routes[i].received + [msg])]
    case LookUp(i) =>
      var r := s.routes[i];
      var msg := r.inbox.msg;
      s.routes[i := r.(inbox := if msg.id in r.replies then Delivering(msg, r.replies[msg.id]) else Idle)]
    case Deliver(i) => s.routes[i := s.routes[i].(inbox := Deleting(s.routes[i].inbox.msg.id))]
    case GiveUpDelivery(i) => s.routes[i := s.routes[i].(inbox := Deleting(s.routes[i].inbox.msg.id))]
    case DeleteEntry(i) =>
      var r := s.routes[i];
      s.routes[i := r.(inbox := Idle, replies := r.replies - {r.inbox.id}, removed := r.removed + {r.inbox.id})]
    case _ => s.routes
  }

  /** The error a caller reports when it cannot send. */
  function SendError(start: D.SendStart): InternalError {
    match start
    case NodeNotFound => Disconnecting
    case ClosedChannel => Disconnecting
    case SendTo(_) => UnknownError
  }

  /** The outcome a step gives the caller it concludes. */
  function Concludes(s: State, a: Action): Option<(CallerId, Outcome)>
    requires Enabled(s, a)
  {
    match a
    case StartSend(c) =>
      var start := D.StartSend(s.life.table, c.1);
      if LifeStep(s, a).Some? then None else Some((c, Synthetic(SendError(start))))
    case TimeOutSend(c) => Some((c, Synthetic(Timeout)))
    case TakeReply(c) => Some((c, Reply(s.callers[c].buffer[0])))
    case TimeOutWait(c) => Some((c, Synthetic(Timeout)))
    case _ => None
  }

  function Connected(targets: map<string, bool>): set<string> {
    set node | node in targets && targets[node]
  }

  /** A caller's own part of its conclusion; a reply is taken out of its channel. */
  function Concluded(caller: Caller, outcome: Outcome): Caller {
    Caller(Done(outcome), if outcome.Reply? && caller.buffer != [] then caller.buffer[1..] else caller.buffer,
           caller.delivered)
  }

  function NextCallers(s: State, a: Action): map<CallerId, Caller>
    requires Enabled(s, a)
  {
    match a
    case NewForward(_, targets) =>
      s.callers + map node | node in Connected(targets) :: (|s.forwards|, node) := FRESH_CALLER
    case TakeTask(_, c) => s.callers[c := s.callers[c].(pc := Awaiting)]
    case Deliver(i) =>
      var c, msg := s.routes[i].inbox.c, s.routes[i].inbox.msg;
      var caller := s.callers[c];
      s.callers[c := caller.(buffer := caller.buffer + [msg], delivered := caller.delivered + [msg])]
    case StartSend(c) =>
      if LifeStep(s, a).Some? then s.callers[c := s.callers[c].(pc := Sending)]
      else s.callers[c := Concluded(s.callers[c], Concludes(s, a).value.1)]
    case TimeOutSend(c) => s.callers[c := Concluded(s.callers[c], Concludes(s, a).value.1)]
    case TakeReply(c) => s.callers[c := Concluded(s.callers[c], Concludes(s, a).value.1)]
    case TimeOutWait(c) => s.callers[c := Concluded(s.callers[c], Concludes(s, a).value.1)]
    case _ => s.callers
  }

  /** A concluding caller writes its outcome under its node's name. */
  function Note(forwards: seq<Forward>, conclusion: Option<(CallerId, Outcome)>): seq<Forward> {
    match conclusion
    case Some((c, outcome)) =>
      if c.0 < |forwards| then
        forwards[c.0 := forwards[c.0].(results := forwards[c.0].results[c.1 := outcome])]
      else forwards
    case None => forwards
  }

  /** A new request; its targets that are not connected are answered at once. */
  function FreshForward(req: TaskRequest, targets: map<string, bool>): Forward {
    Forward(req, targets, map node | node in targets && !targets[node] :: Synthetic(Disconnected))
  }

  function NextForwards(s: State, a: Action): seq<Forward>
    requires Enabled(s, a)
  {
    match a
    case NewForward(req, targets) => s.forwards + [FreshForward(req, targets)]
    case _ => Note(s.forwards, Concludes(s, a))
  }

  function NextIssued(s: State, a: Action): map<CallerId, (nat, int)>
    requires Enabled(s, a)
  {
    match a
    case SendToNode(i, id) => s.issued[s.routes[i].sender.c := (i, id)]
    case _ => s.issued
  }

  function Next(s: State, a: Action): State
    requires Enabled(s, a)
  {
    State(NextLife(s, a), NextRoutes(s, a), NextForwards(s, a), NextCallers(s, a), NextIssued(s, a))
  }

  // -------------------------------------------------------------------- runs

  ghost predicate CanRun(s: State, actions: seq<Action>)
    decreases |actions|
  {
    actions == [] || (Enabled(s, actions[0]) && CanRun(Next(s, actions[0]), actions[1..]))
  }

  ghost function Run(s: State, actions: seq<Action>): State
    requires CanRun(s, actions)
    decreases |actions|
  {
    if actions == [] then s else Run(Next(s, actions[0]), actions[1..])
  }

  ghost predicate IsRun(actions: seq<Action>, s: State) {
    CanRun(INIT, actions) && Run(INIT, actions) == s
  }

  ghost predicate Reachable(s: State) {
    exists actions :: IsRun(actions, s)
  }
}
