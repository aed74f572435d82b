/**
 * Task streams and the dispatcher: concurrent sessions, possibly with the same node id, register, fetch
 * their channel, close it and unregister, while callers send under the dispatcher's read lock.
 *
 * A session has a main goroutine, which registers, serves requests and unregisters, and a receiving
 * goroutine, which closes the channel when the stream ends.
 */
module Lifecycle {
  import opened Common
  import opened Dispatch

  /** A caller is one goroutine of a forwarded request: the request's number and the target. */
  type CallerId = (nat, string)

  datatype Phase = Opening | Refused | Active | Finishing | Gone
  datatype Receiver = Receiving | Stopping | Closed

  datatype Life = Life(
    node: string,
    phase: Phase,
    gen: nat,                    // the channel made by this session's registration
    channel: Option<Slot>,       // what the main goroutine fetched, once it has
    senderDone: bool,
    receiver: Receiver)

  /** Who waits for the dispatcher's write lock, or holds it. */
  datatype Writer = OfSession(i: nat) | OfForget(node: string)

  datatype State = State(
    table: Table,
    made: nat,
    closed: map<nat, nat>,       // closed channels, and the session that closed each
    lives: seq<Life>,
    sending: map<CallerId, nat>, // callers blocked in Send: read lock holders, and their channel
    pending: Option<Writer>,     // once a writer waits, no new reader gets in
    panicked: bool)

  const INIT := State(EMPTY, 0, map[], [], map[], None, false)

  datatype Action =
    | OpenStream(node: string)
    | AnnounceWriter(w: Writer)
    | RegisterSession(i: nat)
    | FetchChannel(i: nat)
    | EndRange(i: nat)           // the channel the main goroutine ranges over was closed
    | FailStream(i: nat)         // sending to the node failed
    | EndStream(i: nat)
    | CloseSession(i: nat)
    | FinishSession(i: nat)      // both goroutines are done
    | UnregisterSession(i: nat)
    | ForgetNode(node: string)
    | BeginSend(c: CallerId)
    | EndSend(c: CallerId)

  predicate In(s: State, i: nat) {
    i < |s.lives|
  }

  /** A goroutine of the session is about to take the write lock. */
  predicate WantsLock(life: Life) {
    life.phase.Opening? || (life.phase.Active? && life.receiver.Stopping?) || life.phase.Finishing?
  }

  predicate Wants(s: State, w: Writer) {
    match w case OfSession(i) => In(s, i) && WantsLock(s.lives[i]) case OfForget(_) => true
  }

  /** The writer whose turn it is waits for every caller in Send. */
  predicate CanLock(s: State, w: Writer) {
    s.pending == Some(w) && s.sending == map[]
  }

  predicate Enabled(s: State, a: Action) {
    match a
    case OpenStream(_) => true
    case AnnounceWriter(w) => s.pending.None? && Wants(s, w)
    case RegisterSession(i) => In(s, i) && s.lives[i].phase.Opening? && CanLock(s, OfSession(i))
    case FetchChannel(i) =>
      && In(s, i) && s.lives[i].phase.Active? && s.lives[i].channel.None? && !s.lives[i].senderDone
      && s.pending.None?
    case EndRange(i) =>
      && In(s, i) && s.lives[i].phase.Active? && !s.lives[i].senderDone
      && s.lives[i].channel.Some? && s.lives[i].channel.value.Open?
      && s.lives[i].channel.value.gen in s.closed
    case FailStream(i) =>
      && In(s, i) && s.lives[i].phase.Active? && !s.lives[i].senderDone
      && s.lives[i].channel.Some? && s.lives[i].channel.value.Open?
    case EndStream(i) => In(s, i) && s.lives[i].phase.Active? && s.lives[i].receiver.Receiving?
    case CloseSession(i) =>
      In(s, i) && s.lives[i].phase.Active? && s.lives[i].receiver.Stopping? && CanLock(s, OfSession(i))
    case FinishSession(i) =>
      In(s, i) && s.lives[i].phase.Active? && s.lives[i].senderDone && s.lives[i].receiver.Closed?
    case UnregisterSession(i) => In(s, i) && s.lives[i].phase.Finishing? && CanLock(s, OfSession(i))
    case ForgetNode(node) => CanLock(s, OfForget(node))
    case BeginSend(c) => s.pending.None? && c !in s.sending && StartSend(s.table, c.1).SendTo?
    case EndSend(c) => c in s.sending
  }

  function SetLife(s: State, i: nat, life: Life): State
    requires In(s, i)
  {
    s.(lives := s.lives[i := life])
  }

  function Next(s: State, a: Action): State
    requires Enabled(s, a)
  {
    match a
    case OpenStream(node) => s.(lives := s.lives + [Life(node, Opening, 0, None, false, Receiving)])
    case AnnounceWriter(w) => s.(pending := Some(w))
    case RegisterSession(i) =>
      (match Register(s.table, s.lives[i].node, s.made)
       case None => SetLife(s, i, s.lives[i].(phase := Refused)).(pending := None)
       case Some(table) =>
         SetLife(s, i, s.lives[i].(phase := Active, gen := s.made))
           .(table := table, made := s.made + 1, pending := None))
    case FetchChannel(i) =>
      (match Lookup(s.table, s.lives[i].node)
       case None => SetLife(s, i, s.lives[i].(senderDone := true))
       case Some(slot) => SetLife(s, i, s.lives[i].(channel := Some(slot))))
    case EndRange(i) => SetLife(s, i, s.lives[i].(senderDone := true))
    case FailStream(i) => SetLife(s, i, s.lives[i].(senderDone := true))
    case EndStream(i) => SetLife(s, i, s.lives[i].(receiver := Stopping))
    case CloseSession(i) =>
      var (table, channel) := Close(s.table, s.lives[i].node);
      var s' := SetLife(s, i, s.lives[i].(receiver := Closed)).(table := table, pending := None);
      (match channel
       case None => s'.(panicked := true)
       case Some(gen) =>
         if gen in s.closed then s'.(panicked := true) else s'.(closed := s.closed[gen := i]))
    case FinishSession(i) => SetLife(s, i, s.lives[i].(phase := Finishing))
    case UnregisterSession(i) =>
      SetLife(s, i, s.lives[i].(phase := Gone)).(table := Unregister(s.table, s.lives[i].node), pending := None)
    case ForgetNode(node) =>
      (match Forget(s.table, node)
       case None => s.(pending := None)
       case Some(table) => s.(table := table, pending := None))
    case BeginSend(c) => s.(sending := s.sending[c := StartSend(s.table, c.1).gen])
    case EndSend(c) => s.(sending := s.sending - {c})
  }

  ghost predicate CanRun(s: State, actions: seq<Action>)
    decreases |actions|
  {
    actions == [] || (Enabled(s, actions[0]) && CanRun(Next(s, actions[0]), actions[1..]))
  }

  ghost function Run(s: State, actions: seq<Action>): State
    requires CanRun(s, actions)
    decreases |actions|
  {
    if actions == [] then s else Run(Next(s, actions[0]), actions[1..])
  }

  ghost predicate IsRun(actions: seq<Action>, s: State) {
    CanRun(INIT, actions) && Run(INIT, actions) == s
  }

  ghost predicate Reachable(s: State) {
    exists actions :: IsRun(actions, s)
  }

  // --------------------------------------------------------------- invariant

  /** The session has an entry in the dispatcher. */
  predicate Owns(life: Life) {
    life.phase.Active? || life.phase.Finishing?
  }

  predicate Registered(life: Life) {
    Owns(life) || life.phase.Gone?
  }

  /** The entry of a session: its own open channel until it closes it, then nil. */
  function SlotOf(life: Life): Slot {
    if life.receiver.Closed? then Nil else Open(life.gen)
  }

  /** What one session looks like, given the table, the number of channels made and the closed ones. */
  predicate LifeOk(table: Table, made: nat, closed: map<nat, nat>, life: Life) {
    && (Owns(life) ==> Lookup(table, life.node) == Some(SlotOf(life)))
    && (Registered(life) ==> life.gen < made)
    && (Registered(life) ==> (life.receiver.Closed? <==> life.gen in closed))
    && (life.channel.Some? ==> Registered(life))
    && (life.channel == Some(Nil) ==> life.receiver.Closed? && !life.senderDone && life.phase.Active?)
    && (life.channel.Some? && life.channel.value.Open? ==> life.channel.value.gen == life.gen)
    && (life.senderDone ==> Registered(life) && life.channel.Some?)
    && (life.phase.Finishing? || life.phase.Gone? ==> life.senderDone && life.receiver.Closed?)
    && (!Registered(life) ==> life.receiver.Receiving?)
  }

  predicate Apart(a: Life, b: Life) {
    && (Registered(a) && Registered(b) ==> a.gen != b.gen)
    && (Owns(a) && Owns(b) ==> a.node != b.node)
  }

  ghost predicate LivesOk(s: State) {
    forall i | 0 <= i < |s.lives| :: LifeOk(s.table, s.made, s.closed, s.lives[i])
  }

  ghost predicate AllApart(lives: seq<Life>) {
    forall i, j | 0 <= i < j < |lives| :: Apart(lives[i], lives[j])
  }

  ghost predicate OwnedBy(lives: seq<Life>, node: string, i: nat) {
    i < |lives| && Owns(lives[i]) && lives[i].node == node
  }

  ghost predicate Owned(lives: seq<Life>, node: string) {
    exists i: nat :: OwnedBy(lives, node, i)
  }

  /** Every entry belongs to a session. */
  ghost predicate EntriesOwned(s: State) {
    forall node | node in s.table.dispatch :: Owned(s.lives, node)
  }

  ghost predicate ReadyIffOpen(table: Table) {
    forall node :: IsReady(table, node) <==> StartSend(table, node).SendTo?
  }

  /** Whoever closed a channel had registered it. */
  ghost predicate ClosersOk(s: State) {
    forall gen | gen in s.closed ::
      gen < s.made && In(s, s.closed[gen]) && Registered(s.lives[s.closed[gen]]) && s.lives[s.closed[gen]].gen == gen
  }

  ghost predicate SendsOk(s: State) {
    forall c | c in s.sending :: StartSend(s.table, c.1) == SendTo(s.sending[c])
  }

  /** A waiting writer goes on wanting the lock. */
  ghost predicate WriterOk(s: State) {
    s.pending.Some? ==> Wants(s, s.pending.value)
  }

  ghost predicate Inv(s: State) {
    && !s.panicked && LivesOk(s) && AllApart(s.lives) && EntriesOwned(s)
    && ReadyIffOpen(s.table) && ClosersOk(s) && SendsOk(s) && WriterOk(s)
  }
}
