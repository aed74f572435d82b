/**
 * The scheduler cannot deadlock, and once the stream has ended it comes to rest: queue token, slot, lock
 * are always taken in that order, and every move brings its job closer to the end.
 */
module SchedulerProgress {
  import opened Common
  import opened Proto
  import opened Scheduler
  import Safety = SchedulerSafety
  import Replies = SchedulerReplies

  // -------------------------------------------------------- deadlock freedom

  /** A step of the goroutine itself, as opposed to its timer or its watcher. */
  predicate GoroutineMove(move: Move) {
    !move.FireTimer? && !move.NoticeOverrun? && !move.ReportOverrun? && !move.EndWatch?
  }

  predicate CanStep(s: State, j: nat, move: Move) {
    GoroutineMove(move) && Enabled(s, Step(j, move))
  }

  predicate AtRest(pc: Pc) {
    pc.Waiting? || pc.WantLock? || pc.LockPending?
  }

  /** Past the lock nothing blocks: the token a goroutine gives back is there. */
  lemma ReleaseNeverBlocks(s: State, j: nat) returns (move: Move)
    requires Safety.Inv(s)
    requires j < |s.jobs| && Safety.Live(s.jobs[j]) && !AtRest(s.jobs[j].pc)
    ensures CanStep(s, j, move)
  {
    Safety.TallyIncludes(s.jobs, j);
    match s.jobs[j].pc
    case Running => move := Finish(NotRegistered);
    case ReplyingResult(_) => move := Reply;
    case ReplyingTimeout => move := Reply;
    case Unlocking => move := ReleaseLock;
    case FreeingSlot => move := ReleaseSlot;
    case FreeingQueue => move := ReleaseQueue;
  }

  /** With no goroutine past the lock, the lock is free. */
  lemma {:induction false} NobodyHoldsTheLock(jobs: seq<Job>)
    requires forall j | 0 <= j < |jobs| :: Safety.Live(jobs[j]) ==> AtRest(jobs[j].pc)
    ensures Safety.TallyOf(jobs).readers == 0 && Safety.TallyOf(jobs).writers == 0
  {
    if jobs != [] {
      var init, last := jobs[..|jobs| - 1], jobs[|jobs| - 1];
      assert jobs == init + [last];
      assert Safety.Live(last) ==> AtRest(last.pc);
      Safety.TallyAppend(init, last);
      NobodyHoldsTheLock(init);
    }
  }

  lemma {:induction false} NobodyPending(jobs: seq<Job>)
    requires forall j | 0 <= j < |jobs| :: !jobs[j].pc.LockPending?
    ensures Safety.TallyOf(jobs).pending == 0
  {
    if jobs != [] {
      var init, last := jobs[..|jobs| - 1], jobs[|jobs| - 1];
      assert jobs == init + [last];
      Safety.TallyAppend(init, last);
      NobodyPending(init);
    }
  }

  lemma {:induction false} NobodyHoldsASlot(jobs: seq<Job>)
    requires forall j | 0 <= j < |jobs| :: Safety.Live(jobs[j]) ==> jobs[j].pc.Waiting?
    ensures Safety.TallyOf(jobs).readSlots == 0 && Safety.TallyOf(jobs).writeSlots == 0
  {
    if jobs != [] {
      var init, last := jobs[..|jobs| - 1], jobs[|jobs| - 1];
      assert jobs == init + [last];
      assert Safety.Live(last) ==> last.pc.Waiting?;
      Safety.TallyAppend(init, last);
      NobodyHoldsASlot(init);
    }
  }

  /**
   * In every reachable state with a live goroutine some goroutine can step, whatever the timers, the
   * watchers, the context and the receive loop do (tasks are taken to return).
   */
  lemma NeverDeadlocks(s: State, live: nat) returns (j: nat, move: Move)
    requires Reachable(s)
    requires live < |s.jobs| && Safety.Live(s.jobs[live])
    ensures CanStep(s, j, move)
  {
    Safety.ReachableInv(s);
    j, move := SomeoneCanStep(s, live);
  }

  lemma SomeoneCanStep(s: State, live: nat) returns (j: nat, move: Move)
    requires Safety.Inv(s)
    requires live < |s.jobs| && Safety.Live(s.jobs[live])
    ensures CanStep(s, j, move)
  {
    if k: nat :| k < |s.jobs| && Safety.Live(s.jobs[k]) && !AtRest(s.jobs[k].pc) {
      j := k;
      move := ReleaseNeverBlocks(s, k);
    } else {
      NobodyHoldsTheLock(s.jobs);
      if k: nat :| k < |s.jobs| && s.jobs[k].pc.LockPending? {
        j, move := k, TakeLock;
      } else {
        NobodyPending(s.jobs);
        if k: nat :| k < |s.jobs| && s.jobs[k].pc.WantLock? {
          j, move := k, if s.jobs[k].mode.Exclusive? then AnnounceWriter else TakeLock;
        } else {
          NobodyHoldsASlot(s.jobs);
          j, move := live, TakeSlot;
        }
      }
    }
  }

  // -------------------------------------------------------------- termination

  function Rank(job: Job): nat {
    (match job.pc
     case Waiting => 8
     case WantLock => 7
     case LockPending => 6
     case Running => 5
     case ReplyingResult(_) => 4
     case Unlocking => 3
     case FreeingSlot => 2
     case ReplyingTimeout => 2
     case FreeingQueue => 1
     case Done => 0
     case Answered => 0)
    + (if job.watcher.Exited? then 0 else if job.watcher.Overran? then 1 else 2)
    + (if job.timer.Armed? then 1 else 0)
  }

  function Work(jobs: seq<Job>): nat {
    if jobs == [] then 0 else Work(jobs[..|jobs| - 1]) + Rank(jobs[|jobs| - 1])
  }

  /** How many steps can still happen once no more requests arrive. */
  function Measure(s: State): nat {
    Work(s.jobs) + (if s.receiving then 1 else 0) + (if s.ctxClosed then 0 else 1)
  }

  lemma MoveLowersRank(job: Job, move: Move, ctxClosed: bool)
    requires Replies.Consistent(job) && Ready(job, move, ctxClosed)
    ensures Rank(MoveJob(job, move)) < Rank(job)
  {}

  lemma {:induction false} WorkUpdate(jobs: seq<Job>, j: nat, job: Job)
    requires j < |jobs|
    ensures Work(jobs[j := job]) == Work(jobs) - Rank(jobs[j]) + Rank(job)
  {
    var n := |jobs| - 1;
    if j == n {
      assert jobs[j := job][..n] == jobs[..n];
    } else {
      assert jobs[j := job][..n] == jobs[..n][j := job];
      WorkUpdate(jobs[..n], j, job);
    }
  }

  lemma StepLowersMeasure(s: State, a: Action)
    requires Replies.Inv(s) && Enabled(s, a) && !a.Receive?
    ensures Measure(Next(s, a)) < Measure(s)
  {
    if a.Step? {
      MoveLowersRank(s.jobs[a.job], a.move, s.ctxClosed);
      WorkUpdate(s.jobs, a.job, MoveJob(s.jobs[a.job], a.move));
    }
  }

  lemma {:induction false} RunIsBounded(s: State, actions: seq<Action>)
    requires Replies.Inv(s) && !s.receiving && CanRun(s, actions)
    ensures |actions| <= Measure(s)
    decreases |actions|
  {
    if actions != [] {
      StepLowersMeasure(s, actions[0]);
      Replies.StepKeepsInv(s, actions[0]);
      RunIsBounded(Next(s, actions[0]), actions[1..]);
    }
  }

  ghost predicate Stuck(s: State) {
    forall j: nat, move: Move :: !CanStep(s, j, move)
  }

  /**
   * Once receiving has stopped, every run is at most `Measure` steps long, and a run that no goroutine can
   * extend has finished all of them: the wait group's `Wait` returns.
   */
  lemma WaitReturns(s: State, actions: seq<Action>)
    requires Reachable(s) && !s.receiving && CanRun(s, actions)
    ensures |actions| <= Measure(s)
    ensures Stuck(Run(s, actions)) ==>
      forall j | 0 <= j < |Run(s, actions).jobs| :: !Safety.Live(Run(s, actions).jobs[j])
  {
    Replies.ReachableInv(s);
    RunIsBounded(s, actions);
    var t := Run(s, actions);
    ReachableExtends(s, actions);
    if j: nat :| j < |t.jobs| && Safety.Live(t.jobs[j]) {
      var k, move := NeverDeadlocks(t, j);
    }
  }

  lemma {:induction false} RunAppend(s: State, first: seq<Action>, second: seq<Action>)
    requires CanRun(s, first) && CanRun(Run(s, first), second)
    ensures CanRun(s, first + second) && Run(s, first + second) == Run(Run(s, first), second)
    decreases |first|
  {
    if first == [] {
      assert first + second == second;
    } else {
      assert (first + second)[1..] == first[1..] + second;
      RunAppend(Next(s, first[0]), first[1..], second);
    }
  }

  lemma ReachableExtends(s: State, actions: seq<Action>)
    requires Reachable(s) && CanRun(s, actions)
    ensures Reachable(Run(s, actions))
  {
    var cfg, before :| IsRun(cfg, before, s);
    RunAppend(Init(cfg), before, actions);
    assert IsRun(cfg, before + actions, Run(s, actions));
  }
}
