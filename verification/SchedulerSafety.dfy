/**
 * Lock safety of the scheduler: tokens and lock state always match the positions of the goroutines,
 * and from that an exclusive task runs alone.
 */
module SchedulerSafety {
  import opened Common
  import opened Proto
  import opened Scheduler

  // --------------------------------------------------- who holds what, by position

  predicate HoldsLock(pc: Pc) {
    pc.Running? || pc.ReplyingResult? || pc.Unlocking?
  }

  predicate HoldsSlot(pc: Pc) {
    HoldsLock(pc) || pc.WantLock? || pc.LockPending? || pc.FreeingSlot?
  }

  /** The goroutine has not returned yet. */
  predicate Live(job: Job) {
    !job.pc.Answered? && !job.pc.Done?
  }

  /** How many goroutines are live, hold each kind of token or lock, and run a task. */
  datatype Tally = Tally(
    live: int,
    readSlots: int,
    writeSlots: int,
    readers: int,
    writers: int,
    pending: int,
    runningUnlocked: int,
    runningLocked: int)

  function Weight(job: Job): Tally {
    Tally(
      Bit(Live(job)),
      Bit(HoldsSlot(job.pc) && job.mode.NoLock?),
      Bit(HoldsSlot(job.pc) && !job.mode.NoLock?),
      Bit(HoldsLock(job.pc) && !job.mode.Exclusive?),
      Bit(HoldsLock(job.pc) && job.mode.Exclusive?),
      Bit(job.pc.LockPending? && job.mode.Exclusive?),
      Bit(job.pc.Running? && job.mode.NoLock?),
      Bit(job.pc.Running? && !job.mode.NoLock?))
  }

  function Plus(a: Tally, b: Tally): Tally {
    Tally(a.live + b.live, a.readSlots + b.readSlots, a.writeSlots + b.writeSlots, a.readers + b.readers,
          a.writers + b.writers, a.pending + b.pending, a.runningUnlocked + b.runningUnlocked,
          a.runningLocked + b.runningLocked)
  }

  function Minus(a: Tally, b: Tally): Tally {
    Tally(a.live - b.live, a.readSlots - b.readSlots, a.writeSlots - b.writeSlots, a.readers - b.readers,
          a.writers - b.writers, a.pending - b.pending, a.runningUnlocked - b.runningUnlocked,
          a.runningLocked - b.runningLocked)
  }

  predicate AtMost(a: Tally, b: Tally) {
    && a.live <= b.live && a.readSlots <= b.readSlots && a.writeSlots <= b.writeSlots
    && a.readers <= b.readers && a.writers <= b.writers && a.pending <= b.pending
    && a.runningUnlocked <= b.runningUnlocked && a.runningLocked <= b.runningLocked
  }

  const ZERO := Tally(0, 0, 0, 0, 0, 0, 0, 0)

  function Sum(weights: seq<Tally>): Tally {
    if weights == [] then ZERO else Plus(weights[0], Sum(weights[1..]))
  }

  function Weights(jobs: seq<Job>): (weights: seq<Tally>)
    ensures |weights| == |jobs|
    ensures forall j | 0 <= j < |jobs| :: weights[j] == Weight(jobs[j])
  {
    seq(|jobs|, j requires 0 <= j < |jobs| => Weight(jobs[j]))
  }

  function TallyOf(jobs: seq<Job>): Tally {
    Sum(Weights(jobs))
  }

  // ---------------------------------------------------------------- counting

  lemma {:induction false} SumUpdate(ws: seq<Tally>, j: nat, w: Tally)
    requires j < |ws|
    ensures Sum(ws[j := w]) == Plus(Minus(Sum(ws), ws[j]), w)
  {
    if j == 0 {
      assert ws[j := w][1..] == ws[1..];
    } else {
      assert ws[j := w][1..] == ws[1..][j - 1 := w];
      SumUpdate(ws[1..], j - 1, w);
    }
  }

  lemma {:induction false} SumAppend(ws: seq<Tally>, w: Tally)
    ensures Sum(ws + [w]) == Plus(Sum(ws), w)
  {
    if ws == [] {
      assert ws + [w] == [w];
    } else {
      assert (ws + [w])[1..] == ws[1..] + [w];
      SumAppend(ws[1..], w);
    }
  }

  /** Relations that hold of one job's weight and are closed under addition. */
  predicate Shape(t: Tally) {
    && AtMost(ZERO, t)
    && t.writers + t.pending <= t.writeSlots
    && t.runningLocked <= t.writeSlots
    && t.runningUnlocked <= t.readSlots
  }

  lemma {:induction false} SumShape(ws: seq<Tally>)
    requires forall k | 0 <= k < |ws| :: Shape(ws[k])
    ensures Shape(Sum(ws))
  {
    if ws != [] {
      SumShape(ws[1..]);
    }
  }

  lemma {:induction false} SumIncludes(ws: seq<Tally>, j: nat)
    requires j < |ws| && forall k | 0 <= k < |ws| :: Shape(ws[k])
    ensures AtMost(ws[j], Sum(ws))
  {
    SumShape(ws[1..]);
    if j > 0 {
      SumIncludes(ws[1..], j - 1);
    }
  }

  lemma {:induction false} SumIncludesBoth(ws: seq<Tally>, i: nat, j: nat)
    requires i < j < |ws| && forall k | 0 <= k < |ws| :: Shape(ws[k])
    ensures AtMost(Plus(ws[i], ws[j]), Sum(ws))
  {
    if i == 0 {
      SumIncludes(ws[1..], j - 1);
    } else {
      SumIncludesBoth(ws[1..], i - 1, j - 1);
    }
  }

  lemma TallyUpdate(jobs: seq<Job>, j: nat, job: Job)
    requires j < |jobs|
    ensures TallyOf(jobs[j := job]) == Plus(Minus(TallyOf(jobs), Weight(jobs[j])), Weight(job))
  {
    assert Weights(jobs[j := job]) == Weights(jobs)[j := Weight(job)];
    SumUpdate(Weights(jobs), j, Weight(job));
  }

  lemma TallyAppend(jobs: seq<Job>, job: Job)
    ensures TallyOf(jobs + [job]) == Plus(TallyOf(jobs), Weight(job))
  {
    assert Weights(jobs + [job]) == Weights(jobs) + [Weight(job)];
    SumAppend(Weights(jobs), Weight(job));
  }

  lemma TallyShape(jobs: seq<Job>)
    ensures Shape(TallyOf(jobs))
  {
    SumShape(Weights(jobs));
  }

  lemma TallyIncludes(jobs: seq<Job>, j: nat)
    requires j < |jobs|
    ensures AtMost(Weight(jobs[j]), TallyOf(jobs))
  {
    SumIncludes(Weights(jobs), j);
  }

  lemma TallyIncludesBoth(jobs: seq<Job>, i: nat, j: nat)
    requires i < j < |jobs|
    ensures AtMost(Plus(Weight(jobs[i]), Weight(jobs[j])), TallyOf(jobs))
  {
    SumIncludesBoth(Weights(jobs), i, j);
  }

  // ---------------------------------------------------------------- invariant

  /** Every token and every lock holder is accounted for by a goroutine, and conversely. */
  predicate Accounted(tokens: Tokens, t: Tally) {
    && tokens.queue == t.live
    && tokens.readSlots == t.readSlots
    && tokens.writeSlots == t.writeSlots
    && tokens.readers == t.readers
    && Bit(tokens.writer) == t.writers
    && Bit(tokens.writerPending) == t.pending
  }

  predicate WithinLimits(cfg: Config, tokens: Tokens) {
    && tokens.queue <= cfg.QueueSize()
    && tokens.readSlots <= cfg.Slots()
    && tokens.writeSlots <= 1
    && (tokens.writer ==> tokens.readers == 0)
  }

  predicate OnlyWritersPend(jobs: seq<Job>) {
    forall j | 0 <= j < |jobs| :: jobs[j].pc.LockPending? ==> jobs[j].mode.Exclusive?
  }

  predicate Inv(s: State) {
    Accounted(s.tokens, TallyOf(s.jobs)) && WithinLimits(s.cfg, s.tokens) && OnlyWritersPend(s.jobs)
  }

  // ------------------------------------------------------------- preservation

  /** A move shifts the tokens exactly as it shifts the weight of the job that makes it. */
  lemma MoveShiftsTokens(cfg: Config, tokens: Tokens, t: Tally, job: Job, move: Move, ctxClosed: bool)
    requires Ready(job, move, ctxClosed) && Unblocked(cfg, tokens, job.mode, move)
    requires Accounted(tokens, t) && WithinLimits(cfg, tokens) && Shape(t) && AtMost(Weight(job), t)
    requires job.pc.LockPending? ==> job.mode.Exclusive?
    ensures Accounted(MoveTokens(tokens, job.mode, move), Plus(Minus(t, Weight(job)), Weight(MoveJob(job, move))))
    ensures WithinLimits(cfg, MoveTokens(tokens, job.mode, move))
    ensures MoveJob(job, move).pc.LockPending? ==> job.mode.Exclusive?
    ensures MoveJob(job, move).mode == job.mode
  {}

  lemma AdmitShiftsTokens(cfg: Config, tokens: Tokens, t: Tally, req: TaskRequest, mode: LockMode)
    requires Accounted(tokens, t) && WithinLimits(cfg, tokens)
    ensures var job := Admit(cfg, tokens, req, mode).0;
      && Accounted(tokens.(queue := tokens.queue + Bit(job.pc.Waiting?)), Plus(t, Weight(job)))
      && WithinLimits(cfg, tokens.(queue := tokens.queue + Bit(job.pc.Waiting?)))
      && !job.pc.LockPending?
  {}

  lemma StepKeepsInv(s: State, a: Action)
    requires Inv(s) && Enabled(s, a)
    ensures Inv(Next(s, a))
  {
    var t := TallyOf(s.jobs);
    if a.Receive? {
      var mode := EffectiveLockMode(a.req, a.declared);
      AdmitShiftsTokens(s.cfg, s.tokens, t, a.req, mode);
      TallyAppend(s.jobs, Admit(s.cfg, s.tokens, a.req, mode).0);
    } else if a.Step? {
      var job := s.jobs[a.job];
      TallyShape(s.jobs);
      TallyIncludes(s.jobs, a.job);
      TallyUpdate(s.jobs, a.job, MoveJob(job, a.move));
      MoveShiftsTokens(s.cfg, s.tokens, t, job, a.move, s.ctxClosed);
    }
  }

  lemma {:induction false} RunKeepsInv(s: State, actions: seq<Action>)
    requires Inv(s) && CanRun(s, actions)
    ensures Inv(Run(s, actions))
    decreases |actions|
  {
    if actions != [] {
      StepKeepsInv(s, actions[0]);
      RunKeepsInv(Next(s, actions[0]), actions[1..]);
    }
  }

  lemma ReachableInv(s: State)
    requires Reachable(s)
    ensures Inv(s)
  {
    var cfg, actions :| IsRun(cfg, actions, s);
    RunKeepsInv(Init(cfg), actions);
  }

  // ------------------------------------------------------------------ results

  /** In every reachable state an exclusive task that is running is the only task running. */
  lemma ExclusiveRunsAlone(s: State, i: nat, j: nat)
    requires Reachable(s)
    requires i < |s.jobs| && j < |s.jobs| && i != j
    requires s.jobs[i].pc.Running? && s.jobs[i].mode.Exclusive?
    ensures !s.jobs[j].pc.Running?
  {
    ReachableInv(s);
    if i < j {
      TallyIncludesBoth(s.jobs, i, j);
    } else {
      TallyIncludesBoth(s.jobs, j, i);
    }
  }

  /**
   * In every reachable state: at most one task that takes a lock runs, at most the configured number of
   * NO_LOCK tasks run, and at most the configured number of goroutines exist at all.
   */
  lemma ConcurrencyBounds(s: State)
    requires Reachable(s)
    ensures TallyOf(s.jobs).runningLocked <= 1
    ensures TallyOf(s.jobs).runningUnlocked <= s.cfg.Slots()
    ensures TallyOf(s.jobs).live <= s.cfg.QueueSize()
  {
    ReachableInv(s);
    TallyShape(s.jobs);
  }

  /** A request that is not a ping is refused exactly when the queue is full of live goroutines. */
  lemma RefusedExactlyWhenFull(s: State, req: TaskRequest, mode: LockMode)
    requires Reachable(s) && req.task != INSTANT_PING
    ensures Accept(s, req, mode).jobs[|s.jobs|].fate.Refused?
       <==> TallyOf(s.jobs).live == s.cfg.QueueSize()
  {
    ReachableInv(s);
  }
}
