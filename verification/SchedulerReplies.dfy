/**
 * What the node sends back: exactly one final reply attempt per received request, at most one notice that
 * a started task overran its timeout, and no refusal of a request whose task was started.
 */
module SchedulerReplies {
  import opened Common
  import opened Proto
  import opened Scheduler
  import Text

  /** Replies sent for the `j`-th received request: overrun notices, or everything else. */
  function Replies(outbox: seq<Sent>, j: nat, overrun: bool): nat {
    if outbox == [] then 0
    else
      var last := outbox[|outbox| - 1];
      Replies(outbox[..|outbox| - 1], j, overrun)
        + Bit(last.job == j && last.resp.internalError.StartedTimeout? == overrun)
  }

  /** The request was answered for good. */
  predicate Settled(job: Job) {
    !job.fate.Undecided? && !job.fate.Cancelled?
  }

  predicate Echoes(req: TaskRequest, resp: TaskResponse) {
    resp.id == req.id && resp.groupID == req.groupID
  }

  /** The task's name is not one of a plugin and one of its tasks, or the plugin is not there. */
  predicate Unknown(req: TaskRequest, run: PluginRun) {
    TaskName(req.task).None? || run.NotRegistered?
  }

  /** The reply says what the plugin did with the request, and nothing else. */
  predicate Reports(req: TaskRequest, run: PluginRun, resp: TaskResponse) {
    && Echoes(req, resp)
    && (resp.internalError.UnknownTask? <==> Unknown(req, run))
    && (Unknown(req, run) ==> resp.output == "" && resp.error == "" && resp.retcode == 0 && resp.moduleError == "")
    && (!Unknown(req, run) ==>
          && resp.output == run.output && resp.error == run.error && resp.retcode == run.retcode
          && (resp.internalError.OK? <==> run.failure.None?)
          && (resp.internalError.ModuleError? <==> run.failure.Some?)
          && resp.moduleError == if run.failure.Some? then run.failure.value else "")
  }

  /** The instant answer to a ping. */
  predicate IsPong(req: TaskRequest, resp: TaskResponse) {
    && Echoes(req, resp) && resp.internalError.OK?
    && resp.output == "true" && resp.error == "" && resp.retcode == 0 && resp.moduleError == ""
  }

  /** A task's reply says what the plugin did. */
  lemma DoTaskReports(req: TaskRequest, run: PluginRun)
    ensures Reports(req, run, DoTask(req, run))
  {}

  /** A task name the registry cannot resolve takes no lock and is answered UNKNOWN_TASK. */
  lemma UnresolvableTask(req: TaskRequest, declared: Option<LockMode>, run: PluginRun)
    requires TaskName(req.task).None?
    ensures DoTask(req, run).internalError == UnknownTask && Echoes(req, DoTask(req, run))
    ensures req.lockMode == Unspecified ==> EffectiveLockMode(req, declared) == NoLock
  {}

  /**
   * A received request is served under the lock mode it asks for, else under the one its plugin declares,
   * and without either under none.
   */
  lemma LockModePrecedence(s: State, req: TaskRequest, declared: Option<LockMode>)
    requires Enabled(s, Receive(req, declared))
    ensures |Next(s, Receive(req, declared)).jobs| == |s.jobs| + 1
    ensures var job := Next(s, Receive(req, declared)).jobs[|s.jobs|];
      && job.req == req
      && (req.lockMode != Unspecified ==> job.mode == req.lockMode)
      && (req.lockMode == Unspecified && TaskName(req.task).Some? && declared.Some? ==> job.mode == declared.value)
      && (req.lockMode == Unspecified && (TaskName(req.task).None? || declared.None?) ==> job.mode == NoLock)
  {}

  /**
   * "plugin.task" names a plugin and its task, a name without a dot stands for both, and whatever else is
   * asked for does not resolve.
   */
  lemma TaskNameMeaning(task: string, plugin: string, name: string)
    ensures TaskName(task) == Some((plugin, name)) <==>
      && '.' !in plugin && '.' !in name
      && (task == plugin + "." + name || (task == plugin && plugin == name))
  {
    var parts := Text.Split(task, ".");
    Text.JoinSplit(task, ".");
    Text.PartsHaveNoSeparator(task, '.');
    if '.' !in plugin && '.' !in name {
      Text.CharIsClean(plugin, '.');
      Text.CharIsClean(name, '.');
      if task == plugin + "." + name {
        assert Text.Join([plugin, name], ".") == task by { assert [plugin, name][1..] == [name]; }
        Text.SplitJoin([plugin, name], ".");
      } else if task == plugin {
        Text.SplitJoin([plugin], ".");
      }
    }
    if |parts| == 2 { assert parts[1..] == [parts[1]]; }
  }

  // --------------------------------------------------------------- invariant

  /** How far a goroutine is decides what it has done. */
  predicate Consistent(job: Job) {
    && (job.watcher.NotStarted? <==> !job.entered)
    && (job.watcher.Overran? || job.watcher == Exited(true) ==> job.timer.Spent?)
    && match job.pc
       case Answered => !job.entered && (job.fate.Ponged? || job.fate.Refused?)
       case Waiting | WantLock | LockPending | ReplyingTimeout => !job.entered && job.fate.Undecided?
       case Running => job.entered && job.fate.Undecided?
       case ReplyingResult(resp) =>
         job.entered && job.fate.Undecided? && job.ran.Some? && Reports(job.req, job.ran.value, resp)
       case Unlocking | FreeingSlot => job.entered && job.fate.Completed?
       case FreeingQueue | Done =>
         && (job.fate.TimedOut? || job.fate.Cancelled? || job.fate.Completed?)
         && (job.entered <==> job.fate.Completed?)
  }

  /** A reply in the outbox tells the truth about the request it answers. */
  predicate Truthful(job: Job, resp: TaskResponse) {
    && Echoes(job.req, resp)
    && match resp.internalError
       case StartedTimeout => job.entered
       case Timeout => job.fate.TimedOut?
       case FullQueue => job.fate.Refused?
       case _ =>
         || (job.fate.Ponged? && IsPong(job.req, resp))
         || (job.fate.Completed? && job.ran.Some? && Reports(job.req, job.ran.value, resp))
  }

  predicate Counted(outbox: seq<Sent>, j: nat, job: Job) {
    && Replies(outbox, j, false) == Bit(Settled(job))
    && Replies(outbox, j, true) == Bit(job.watcher == Exited(true))
  }

  predicate Inv(s: State) {
    && (forall j | 0 <= j < |s.jobs| :: Consistent(s.jobs[j]))
    && (forall j | 0 <= j < |s.jobs| :: Counted(s.outbox, j, s.jobs[j]))
    && (forall j | 0 <= j < |s.jobs| :: s.jobs[j].fate.Cancelled? ==> s.ctxClosed)
    && (forall k | 0 <= k < |s.outbox| ::
          s.outbox[k].job < |s.jobs| && Truthful(s.jobs[s.outbox[k].job], s.outbox[k].resp))
  }

  // ------------------------------------------------------------ preservation

  lemma PostCounts(outbox: seq<Sent>, j: nat, resps: seq<TaskResponse>, k: nat, overrun: bool)
    requires |resps| <= 1
    ensures Replies(Post(outbox, j, resps), k, overrun)
         == Replies(outbox, k, overrun)
              + Bit(resps != [] && j == k && resps[0].internalError.StartedTimeout? == overrun)
  {
    if resps != [] {
      var outbox' := Post(outbox, j, resps);
      assert outbox'[..|outbox'| - 1] == outbox;
    }
  }

  /** Nothing can have been sent yet for a request that has not arrived. */
  lemma {:induction false} NothingBeforeArrival(outbox: seq<Sent>, j: nat, overrun: bool)
    requires forall k | 0 <= k < |outbox| :: outbox[k].job < j
    ensures Replies(outbox, j, overrun) == 0
  {
    if outbox != [] {
      NothingBeforeArrival(outbox[..|outbox| - 1], j, overrun);
    }
  }

  lemma MoveIsConsistent(job: Job, move: Move, ctxClosed: bool)
    requires Consistent(job) && Ready(job, move, ctxClosed)
    ensures Consistent(MoveJob(job, move))
    ensures MoveJob(job, move).req == job.req
    ensures MoveJob(job, move).fate.Cancelled? ==> job.fate.Cancelled? || ctxClosed
    ensures job.entered ==> MoveJob(job, move).entered
    ensures !job.fate.Undecided? ==> MoveJob(job, move).fate == job.fate
  {
    if move.Finish? {
      DoTaskReports(job.req, move.run);
    }
  }

  /** A move sends what it counts, and what it sends is true of the job afterwards. */
  lemma MoveSendsTruth(job: Job, move: Move, ctxClosed: bool)
    requires Consistent(job) && Ready(job, move, ctxClosed)
    ensures var out, job' := Output(job, move), MoveJob(job, move);
      && |out| <= 1
      && (out != [] ==> Truthful(job', out[0]))
      && Bit(Settled(job')) == Bit(Settled(job)) + Bit(out != [] && !out[0].internalError.StartedTimeout?)
      && Bit(job'.watcher == Exited(true))
           == Bit(job.watcher == Exited(true)) + Bit(out != [] && out[0].internalError.StartedTimeout?)
  {}

  lemma AdmitIsConsistent(cfg: Config, t: Tokens, req: TaskRequest, mode: LockMode)
    ensures var (job, out) := Admit(cfg, t, req, mode);
      && job.req == req && Consistent(job) && !job.fate.Cancelled?
      && |out| <= 1
      && (out != [] ==> Truthful(job, out[0]) && !out[0].internalError.StartedTimeout?)
      && (Settled(job) <==> out != []) && job.watcher.NotStarted?
  {}

  lemma AcceptKeepsInv(s: State, req: TaskRequest, mode: LockMode)
    requires Inv(s)
    ensures Inv(Accept(s, req, mode))
  {
    var (job, out) := Admit(s.cfg, s.tokens, req, mode);
    var s' := Accept(s, req, mode);
    AdmitIsConsistent(s.cfg, s.tokens, req, mode);
    forall j | 0 <= j < |s'.jobs|
      ensures Counted(s'.outbox, j, s'.jobs[j])
    {
      PostCounts(s.outbox, |s.jobs|, out, j, false);
      PostCounts(s.outbox, |s.jobs|, out, j, true);
      if j == |s.jobs| {
        NothingBeforeArrival(s.outbox, j, false);
        NothingBeforeArrival(s.outbox, j, true);
      } else {
        assert Counted(s.outbox, j, s.jobs[j]);
      }
    }
  }

  lemma MoveKeepsTruth(job: Job, move: Move, ctxClosed: bool, resp: TaskResponse)
    requires Consistent(job) && Ready(job, move, ctxClosed) && Truthful(job, resp)
    ensures Truthful(MoveJob(job, move), resp)
  {
    MoveIsConsistent(job, move, ctxClosed);
  }

  lemma MoveKeepsCounts(s: State, a: Action, j: nat)
    requires Inv(s) && a.Step? && Enabled(s, a) && j < |s.jobs|
    ensures Counted(Next(s, a).outbox, j, Next(s, a).jobs[j])
  {
    var job := s.jobs[a.job];
    assert Counted(s.outbox, j, s.jobs[j]) && Consistent(job);
    MoveSendsTruth(job, a.move, s.ctxClosed);
    PostCounts(s.outbox, a.job, Output(job, a.move), j, false);
    PostCounts(s.outbox, a.job, Output(job, a.move), j, true);
  }

  lemma MoveKeepsOutbox(s: State, a: Action, k: nat)
    requires Inv(s) && a.Step? && Enabled(s, a) && k < |Next(s, a).outbox|
    ensures var s' := Next(s, a);
      s'.outbox[k].job < |s'.jobs| && Truthful(s'.jobs[s'.outbox[k].job], s'.outbox[k].resp)
  {
    var job := s.jobs[a.job];
    assert Consistent(job);
    if k < |s.outbox| {
      assert Next(s, a).outbox[k] == s.outbox[k];
      assert Truthful(s.jobs[s.outbox[k].job], s.outbox[k].resp);
      if s.outbox[k].job == a.job {
        MoveKeepsTruth(job, a.move, s.ctxClosed, s.outbox[k].resp);
      }
    } else {
      MoveSendsTruth(job, a.move, s.ctxClosed);
    }
  }

  lemma MoveKeepsInv(s: State, a: Action)
    requires Inv(s) && a.Step? && Enabled(s, a)
    ensures Inv(Next(s, a))
  {
    assert Consistent(s.jobs[a.job]);
    MoveIsConsistent(s.jobs[a.job], a.move, s.ctxClosed);
    forall j | 0 <= j < |s.jobs|
      ensures Counted(Next(s, a).outbox, j, Next(s, a).jobs[j])
    {
      MoveKeepsCounts(s, a, j);
    }
    forall k | 0 <= k < |Next(s, a).outbox|
      ensures Next(s, a).outbox[k].job < |s.jobs|
      ensures Truthful(Next(s, a).jobs[Next(s, a).outbox[k].job], Next(s, a).outbox[k].resp)
    {
      MoveKeepsOutbox(s, a, k);
    }
  }

  lemma StepKeepsInv(s: State, a: Action)
    requires Inv(s) && Enabled(s, a)
    ensures Inv(Next(s, a))
  {
    match a
    case Receive(req, declared) => AcceptKeepsInv(s, req, EffectiveLockMode(req, declared));
    case StopReceiving =>
    case CloseContext =>
    case Step(_, _) => MoveKeepsInv(s, a);
  }

  lemma {:induction false} RunKeepsInv(s: State, actions: seq<Action>)
    requires Inv(s) && CanRun(s, actions)
    ensures Inv(Run(s, actions))
    decreases |actions|
  {
    if actions != [] {
      StepKeepsInv(s, actions[0]);
      RunKeepsInv(Next(s, actions[0]), actions[1..]);
    }
  }

  lemma ReachableInv(s: State)
    requires Reachable(s)
    ensures Inv(s)
  {
    var cfg, actions :| IsRun(cfg, actions, s);
    RunKeepsInv(Init(cfg), actions);
  }

  // ----------------------------------------------------------------- results

  /** The goroutine serving the request has returned, or there never was one. */
  predicate Over(job: Job) {
    job.pc.Answered? || job.pc.Done?
  }

  /**
   * Over every run: at most one final reply and at most one overrun notice per received request; once a
   * request is over it has its final reply unless the context closed while it waited for a slot.
   */
  lemma OneFinalReply(s: State, j: nat)
    requires Reachable(s) && j < |s.jobs|
    ensures Replies(s.outbox, j, false) <= 1
    ensures Replies(s.outbox, j, true) <= 1
    ensures Over(s.jobs[j]) ==> (Replies(s.outbox, j, false) == 1 <==> !s.jobs[j].fate.Cancelled?)
    ensures s.jobs[j].fate.Cancelled? ==> s.ctxClosed && !s.jobs[j].entered
  {
    ReachableInv(s);
    assert Consistent(s.jobs[j]) && Counted(s.outbox, j, s.jobs[j]);
  }

  /** A request answered TIMEOUT or FULL_QUEUE never entered doTask, one answered STARTED_TIMEOUT did. */
  lemma RefusalMeansNotRun(s: State, k: nat)
    requires Reachable(s) && k < |s.outbox|
    ensures s.outbox[k].job < |s.jobs|
    ensures var job, error := s.jobs[s.outbox[k].job], s.outbox[k].resp.internalError;
      && (error.Timeout? || error.FullQueue? ==> !job.entered)
      && (error.StartedTimeout? ==> job.entered)
  {
    ReachableInv(s);
    assert Consistent(s.jobs[s.outbox[k].job]);
  }

  /**
   * Every reply says the truth in full: what the plugin did, if it is the task's result; that it was a ping;
   * or the one scheduler error that applies.
   */
  lemma RepliesAreTrue(s: State, k: nat)
    requires Reachable(s) && k < |s.outbox|
    ensures s.outbox[k].job < |s.jobs| && Truthful(s.jobs[s.outbox[k].job], s.outbox[k].resp)
  {
    ReachableInv(s);
  }

  /** A node without sensible limits runs two tasks at a time and lets a hundred wait. */
  lemma DefaultLimits(cfg: Config)
    ensures cfg.Slots() == if cfg.maxConcurrentTasks > 0 then cfg.maxConcurrentTasks else 2
    ensures cfg.QueueSize() == if cfg.maxWaitingRequests > 0 then cfg.maxWaitingRequests else 100
  {}

  /** A ping is answered at once, takes no place in the queue and starts nothing. */
  lemma PingIsAnsweredAtOnce(s: State, req: TaskRequest, mode: LockMode)
    requires req.task == "health:instant-ping"
    ensures var s' := Accept(s, req, mode);
      && |s'.outbox| == |s.outbox| + 1 && s'.outbox[|s.outbox|].job == |s.jobs|
      && IsPong(req, s'.outbox[|s.outbox|].resp) && s'.tokens == s.tokens
      && s'.jobs[|s.jobs|].pc.Answered?
  {}

  /** Every reply carries the id and the group of the request it answers. */
  lemma RepliesEcho(s: State, k: nat)
    requires Reachable(s) && k < |s.outbox|
    ensures s.outbox[k].job < |s.jobs|
    ensures Echoes(s.jobs[s.outbox[k].job].req, s.outbox[k].resp)
  {
    ReachableInv(s);
  }
}
