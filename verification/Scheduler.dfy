/**
 * The node's request scheduler: one receive loop that starts a goroutine per request, three token
 * channels, a read/write lock and one timer per request.
 *
 * Goroutines interleave, so the scheduler is a machine: a `State`, the `Action`s that can happen in it,
 * when each is enabled, and what it does. Blocking operations are actions that are not enabled.
 */
module Scheduler {
  import opened Common
  import opened Proto
  import Text

  const DEFAULT_MAX_CONCURRENT_TASKS := 2
  const DEFAULT_MAX_WAITING_REQUESTS := 100
  const INSTANT_PING := "health:instant-ping"

  datatype Config = Config(maxConcurrentTasks: int, maxWaitingRequests: int) {
    function Slots(): nat {
      if maxConcurrentTasks <= 0 then DEFAULT_MAX_CONCURRENT_TASKS else maxConcurrentTasks
    }

    function QueueSize(): nat {
      if maxWaitingRequests <= 0 then DEFAULT_MAX_WAITING_REQUESTS else maxWaitingRequests
    }
  }

  // ------------------------------------------------------------ routing a task

  /** "plugin.task", or one name standing for both. */
  function TaskName(task: string): Option<(string, string)> {
    var parts := Text.Split(task, ".");
    if |parts| == 1 then Some((parts[0], parts[0]))
    else if |parts| == 2 then Some((parts[0], parts[1]))
    else None
  }

  /** `declared` is the lock mode the plugin registry gives for the task, if it knows the task. */
  function EffectiveLockMode(req: TaskRequest, declared: Option<LockMode>): LockMode {
    if req.lockMode != Unspecified then req.lockMode
    else if TaskName(req.task).None? then NoLock
    else match declared
         case None => NoLock
         case Some(mode) => mode
  }

  /** What the plugin registry and the plugin did with a task. */
  datatype PluginRun =
    | NotRegistered
    | Ran(output: string, error: string, retcode: int, failure: Option<string>)

  function DoTask(req: TaskRequest, run: PluginRun): TaskResponse {
    if TaskName(req.task).None? || run.NotRegistered? then
      Bare(req.id, req.groupID, UnknownTask)
    else
      match run.failure
      case None => TaskResponse(req.id, req.groupID, run.output, run.error, run.retcode, OK, "")
      case Some(message) =>
        TaskResponse(req.id, req.groupID, run.output, run.error, run.retcode, ModuleError, message)
  }

  // ------------------------------------------------------------------- state

  datatype Pc =
    | Answered                            // no goroutine: replied to by the receive loop itself
    | Waiting                             // selecting on a task slot, the timer and the context
    | WantLock                            // holds a task slot
    | LockPending                         // an exclusive task that blocks new readers, waiting for the old ones
    | Running                             // inside doTask
    | ReplyingResult(resp: TaskResponse)
    | ReplyingTimeout
    | Unlocking                           // deferred calls, last to first
    | FreeingSlot
    | FreeingQueue
    | Done

  datatype Timer = Armed | Fired | Spent | Stopped
  datatype Watcher = NotStarted | Watching | Overran | Exited(reported: bool)
  datatype Fate = Undecided | Ponged | Refused | TimedOut | Cancelled | Completed

  /** One received request, and the goroutine that serves it. */
  datatype Job = Job(
    req: TaskRequest,
    mode: LockMode,
    pc: Pc,
    timer: Timer,
    watcher: Watcher,
    entered: bool,
    ran: Option<PluginRun>,              // what came of the task, once it has returned
    fate: Fate)

  /** A reply handed to the stream, and the arrival number of the request it answers. */
  datatype Sent = Sent(job: nat, resp: TaskResponse)

  /** The token channels' fill levels and the state of the read/write lock. */
  datatype Tokens = Tokens(
    queue: int,              // requestsQueue
    readSlots: int,          // runningTasks
    writeSlots: int,         // runningWriteTask
    readers: int,            // read holders of exclusiveLock
    writer: bool,            // exclusiveLock is held for writing
    writerPending: bool)     // a writer has announced itself and blocks new readers

  datatype State = State(
    cfg: Config,
    jobs: seq<Job>,          // in order of arrival
    tokens: Tokens,
    outbox: seq<Sent>,
    receiving: bool,
    ctxClosed: bool)

  function Init(cfg: Config): State {
    State(cfg, [], Tokens(0, 0, 0, 0, false, false), [], true, false)
  }

  // ----------------------------------------------------------------- actions

  /** What one goroutine, its timer or its watcher does next. */
  datatype Move =
    | FireTimer
    | TakeSlot
    | GiveUp                   // the timer won the select
    | Cancel                   // the closed context won the select
    | AnnounceWriter
    | TakeLock
    | Finish(run: PluginRun)
    | Reply
    | ReleaseLock
    | ReleaseSlot
    | ReleaseQueue
    | NoticeOverrun            // the watcher saw the timer
    | ReportOverrun            // and sends its notice, perhaps after the result
    | EndWatch                 // the watcher saw the task finish

  datatype Action =
    | Receive(req: TaskRequest, declared: Option<LockMode>)
    | StopReceiving
    | CloseContext
    | Step(job: nat, move: Move)

  predicate TaskOver(pc: Pc) {
    pc.ReplyingResult? || pc.Unlocking? || pc.FreeingSlot? || pc.FreeingQueue? || pc.Done?
  }

  /** The goroutine is at the statement that makes the move. */
  predicate Ready(job: Job, move: Move, ctxClosed: bool) {
    match move
    case FireTimer => job.timer.Armed? && !job.pc.Answered?
    case TakeSlot => job.pc.Waiting?
    case GiveUp => job.pc.Waiting? && job.timer.Fired?
    case Cancel => job.pc.Waiting? && ctxClosed
    case AnnounceWriter => job.pc.WantLock? && job.mode.Exclusive?
    case TakeLock => if job.mode.Exclusive? then job.pc.LockPending? else job.pc.WantLock?
    case Finish(_) => job.pc.Running?
    case Reply => job.pc.ReplyingResult? || job.pc.ReplyingTimeout?
    case ReleaseLock => job.pc.Unlocking?
    case ReleaseSlot => job.pc.FreeingSlot?
    case ReleaseQueue => job.pc.FreeingQueue?
    case NoticeOverrun => job.watcher.Watching? && job.timer.Fired?
    case ReportOverrun => job.watcher.Overran?
    case EndWatch => job.watcher.Watching? && TaskOver(job.pc)
  }

  /** The channels and the lock let the move through. */
  predicate Unblocked(cfg: Config, t: Tokens, mode: LockMode, move: Move) {
    match move
    case TakeSlot => if mode.NoLock? then t.readSlots < cfg.Slots() else t.writeSlots < 1
    case AnnounceWriter => !t.writer && !t.writerPending
    case TakeLock => if mode.Exclusive? then t.readers == 0 else !t.writer && !t.writerPending
    case ReleaseLock => if mode.Exclusive? then t.writer else t.readers > 0
    case ReleaseSlot => if mode.NoLock? then t.readSlots > 0 else t.writeSlots > 0
    case ReleaseQueue => t.queue > 0
    case _ => true
  }

  predicate Enabled(s: State, a: Action) {
    match a
    case Receive(_, _) => s.receiving
    case StopReceiving => s.receiving
    case CloseContext => !s.ctxClosed
    case Step(j, move) =>
      && j < |s.jobs|
      && Ready(s.jobs[j], move, s.ctxClosed)
      && Unblocked(s.cfg, s.tokens, s.jobs[j].mode, move)
  }

  function MoveJob(job: Job, move: Move): Job {
    match move
    case FireTimer => job.(timer := Fired)
    case TakeSlot => job.(pc := WantLock)
    case GiveUp => job.(pc := ReplyingTimeout, timer := Spent)
    case Cancel => job.(pc := FreeingQueue, fate := Cancelled)
    case AnnounceWriter => job.(pc := LockPending)
    case TakeLock => job.(pc := Running, watcher := Watching, entered := true)
    case Finish(run) =>
      // Stopping the timer also drops a tick nobody has received yet.
      job.(pc := ReplyingResult(DoTask(job.req, run)), ran := Some(run),
           timer := if job.timer.Spent? then Spent else Stopped)
    case Reply =>
      if job.pc.ReplyingResult? then job.(pc := Unlocking, fate := Completed)
      else job.(pc := FreeingQueue, fate := TimedOut)
    case ReleaseLock => job.(pc := FreeingSlot)
    case ReleaseSlot => job.(pc := FreeingQueue)
    case ReleaseQueue => job.(pc := Done)
    case NoticeOverrun => job.(watcher := Overran, timer := Spent)
    case ReportOverrun => job.(watcher := Exited(true))
    case EndWatch => job.(watcher := Exited(false))
  }

  function MoveTokens(t: Tokens, mode: LockMode, move: Move): Tokens {
    match move
    case TakeSlot =>
      if mode.NoLock? then t.(readSlots := t.readSlots + 1) else t.(writeSlots := t.writeSlots + 1)
    case AnnounceWriter => t.(writerPending := true)
    case TakeLock =>
      if mode.Exclusive? then t.(writer := true, writerPending := false) else t.(readers := t.readers + 1)
    case ReleaseLock =>
      if mode.Exclusive? then t.(writer := false) else t.(readers := t.readers - 1)
    case ReleaseSlot =>
      if mode.NoLock? then t.(readSlots := t.readSlots - 1) else t.(writeSlots := t.writeSlots - 1)
    case ReleaseQueue => t.(queue := t.queue - 1)
    case _ => t
  }

  /** What the move hands to the stream. */
  function Output(job: Job, move: Move): seq<TaskResponse> {
    match move
    case Reply =>
      if job.pc.ReplyingResult? then [job.pc.resp] else [Bare(job.req.id, job.req.groupID, Timeout)]
    case ReportOverrun => [Bare(job.req.id, job.req.groupID, StartedTimeout)]
    case _ => []
  }

  function Post(outbox: seq<Sent>, j: nat, resps: seq<TaskResponse>): seq<Sent> {
    if resps == [] then outbox else outbox + [Sent(j, resps[0])]
  }

  /** What the receive loop makes of a request: the job it records and its own immediate answer, if any. */
  function Admit(cfg: Config, t: Tokens, req: TaskRequest, mode: LockMode): (Job, seq<TaskResponse>) {
    var job := Job(req, mode, Answered, Armed, NotStarted, false, None, Undecided);
    if req.task == INSTANT_PING then
      (job.(fate := Ponged), [TaskResponse(req.id, req.groupID, "true", "", 0, OK, "")])
    else if t.queue < cfg.QueueSize() then
      (job.(pc := Waiting), [])
    else
      (job.(fate := Refused), [Bare(req.id, req.groupID, FullQueue)])
  }

  function Accept(s: State, req: TaskRequest, mode: LockMode): State {
    var (job, answer) := Admit(s.cfg, s.tokens, req, mode);
    s.(jobs := s.jobs + [job],
       tokens := if job.pc.Waiting? then s.tokens.(queue := s.tokens.queue + 1) else s.tokens,
       outbox := Post(s.outbox, |s.jobs|, answer))
  }

  function Next(s: State, a: Action): State
    requires Enabled(s, a)
  {
    match a
    case Receive(req, declared) => Accept(s, req, EffectiveLockMode(req, declared))
    case StopReceiving => s.(receiving := false)
    case CloseContext => s.(ctxClosed := true)
    case Step(j, move) =>
      var job := s.jobs[j];
      s.(jobs := s.jobs[j := MoveJob(job, move)],
         tokens := MoveTokens(s.tokens, job.mode, move),
         outbox := Post(s.outbox, j, Output(job, move)))
  }

  // -------------------------------------------------------------------- runs

  ghost predicate CanRun(s: State, actions: seq<Action>)
    decreases |actions|
  {
    actions == [] || (Enabled(s, actions[0]) && CanRun(Next(s, actions[0]), actions[1..]))
  }

  ghost function Run(s: State, actions: seq<Action>): State
    requires CanRun(s, actions)
    decreases |actions|
  {
    if actions == [] then s else Run(Next(s, actions[0]), actions[1..])
  }

  /** `s` is reached by some run of a freshly started node. */
  ghost predicate Reachable(s: State) {
    exists cfg, actions :: IsRun(cfg, actions, s)
  }

  ghost predicate IsRun(cfg: Config, actions: seq<Action>, s: State) {
    CanRun(Init(cfg), actions) && Run(Init(cfg), actions) == s
  }
}
