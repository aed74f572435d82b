/** Safety of sessions and dispatcher over every interleaving, and when a session can end. */
module LifecycleProofs {
  import opened Common
  import opened Dispatch
  import opened Lifecycle

  // ------------------------------------------------------------- preservation

  /** Actions that change one session and neither the table nor the closed channels. */
  predicate Local(a: Action) {
    a.FetchChannel? || a.EndRange? || a.FailStream? || a.EndStream? || a.FinishSession?
  }

  /** A session's new value keeps its identity and its entry. */
  predicate SameIdentity(before: Life, after: Life) {
    && after.node == before.node && after.gen == before.gen
    && (Owns(after) <==> Owns(before)) && (Registered(after) <==> Registered(before))
  }

  /** And it goes on wanting the lock if it did. */
  predicate Steady(before: Life, after: Life) {
    SameIdentity(before, after) && (WantsLock(before) ==> WantsLock(after))
  }

  lemma SteadyKeepsOthers(lives: seq<Life>, i: nat, life: Life)
    requires i < |lives| && AllApart(lives) && SameIdentity(lives[i], life)
    ensures AllApart(lives[i := life])
    ensures forall node :: Owned(lives, node) ==> Owned(lives[i := life], node)
  {
    var lives' := lives[i := life];
    forall j, k | 0 <= j < k < |lives'|
      ensures Apart(lives'[j], lives'[k])
    {
      assert Apart(lives[j], lives[k]);
    }
    forall node | Owned(lives, node)
      ensures Owned(lives[i := life], node)
    {
      var k: nat :| OwnedBy(lives, node, k);
      assert OwnedBy(lives[i := life], node, k);
    }
  }

  lemma LocalStep(s: State, a: Action)
    requires Inv(s) && Enabled(s, a) && Local(a)
    ensures var life := Next(s, a).lives[a.i];
      && Next(s, a) == s.(lives := s.lives[a.i := life])
      && LifeOk(s.table, s.made, s.closed, life) && Steady(s.lives[a.i], life)
  {
    assert LifeOk(s.table, s.made, s.closed, s.lives[a.i]);
  }

  lemma LocalKeepsInv(s: State, a: Action)
    requires Inv(s) && Enabled(s, a) && Local(a)
    ensures Inv(Next(s, a))
  {
    LocalStep(s, a);
    SteadyKeepsOthers(s.lives, a.i, Next(s, a).lives[a.i]);
  }

  lemma OpenKeepsInv(s: State, node: string)
    requires Inv(s)
    ensures Inv(Next(s, OpenStream(node)))
  {
    var s' := Next(s, OpenStream(node));
    forall n | Owned(s.lives, n)
      ensures Owned(s'.lives, n)
    {
      var k: nat :| OwnedBy(s.lives, n, k);
      assert OwnedBy(s'.lives, n, k);
    }
  }

  lemma RegisterNewcomer(s: State, i: nat)
    requires Inv(s) && Enabled(s, RegisterSession(i)) && s.lives[i].node !in s.table.dispatch
    ensures AllApart(Next(s, RegisterSession(i)).lives)
    ensures forall node :: Owned(s.lives, node) ==> Owned(Next(s, RegisterSession(i)).lives, node)
    ensures Owned(Next(s, RegisterSession(i)).lives, s.lives[i].node)
  {
    var s' := Next(s, RegisterSession(i));
    forall j, k | 0 <= j < k < |s'.lives|
      ensures Apart(s'.lives[j], s'.lives[k])
    {
      assert Apart(s.lives[j], s.lives[k]);
      assert LifeOk(s.table, s.made, s.closed, s.lives[j]) && LifeOk(s.table, s.made, s.closed, s.lives[k]);
    }
    forall node | Owned(s.lives, node)
      ensures Owned(s'.lives, node)
    {
      var k: nat :| OwnedBy(s.lives, node, k);
      assert OwnedBy(s'.lives, node, k);
    }
    assert OwnedBy(s'.lives, s.lives[i].node, i);
  }

  lemma RegisterLives(s: State, i: nat)
    requires Inv(s) && Enabled(s, RegisterSession(i)) && s.lives[i].node !in s.table.dispatch
    ensures LivesOk(Next(s, RegisterSession(i)))
  {
    var s' := Next(s, RegisterSession(i));
    assert LifeOk(s.table, s.made, s.closed, s.lives[i]);
    assert s.made !in s.closed;
    forall k | 0 <= k < |s'.lives|
      ensures LifeOk(s'.table, s'.made, s'.closed, s'.lives[k])
    {
      assert LifeOk(s.table, s.made, s.closed, s.lives[k]);
    }
  }

  lemma RefusalKeepsInv(s: State, i: nat)
    requires Inv(s) && Enabled(s, RegisterSession(i)) && s.lives[i].node in s.table.dispatch
    ensures Inv(Next(s, RegisterSession(i)))
  {
    assert LifeOk(s.table, s.made, s.closed, s.lives[i]);
    var life := s.lives[i].(phase := Refused);
    assert Next(s, RegisterSession(i)) == s.(lives := s.lives[i := life], pending := None);
    SteadyKeepsOthers(s.lives, i, life);
  }

  lemma RegisterKeepsInv(s: State, i: nat)
    requires Inv(s) && Enabled(s, RegisterSession(i))
    ensures Inv(Next(s, RegisterSession(i)))
  {
    if s.lives[i].node in s.table.dispatch {
      RefusalKeepsInv(s, i);
    } else {
      assert LifeOk(s.table, s.made, s.closed, s.lives[i]);
      RegisterLives(s, i);
      RegisterNewcomer(s, i);
      RegisterReady(s.table, s.lives[i].node, s.made);
    }
  }

  lemma RegisterReady(table: Table, node: string, gen: nat)
    requires ReadyIffOpen(table) && node !in table.dispatch
    ensures ReadyIffOpen(Register(table, node, gen).value)
  {
    var table' := Register(table, node, gen).value;
    forall n ensures IsReady(table', n) <==> StartSend(table', n).SendTo? {
      assert IsReady(table, n) <==> StartSend(table, n).SendTo?;
    }
  }

  lemma Distinct(lives: seq<Life>, i: nat, k: nat)
    requires AllApart(lives) && i < |lives| && k < |lives| && i != k
    ensures Apart(lives[i], lives[k])
  {
    assert if i < k then Apart(lives[i], lives[k]) else Apart(lives[k], lives[i]);
  }

  lemma CloseFindsOwnChannel(s: State, i: nat)
    requires Inv(s) && Enabled(s, CloseSession(i))
    ensures Close(s.table, s.lives[i].node).1 == Some(s.lives[i].gen)
    ensures s.lives[i].gen !in s.closed
  {
    assert LifeOk(s.table, s.made, s.closed, s.lives[i]);
  }

  lemma CloseStep(s: State, i: nat)
    requires Inv(s) && Enabled(s, CloseSession(i))
    ensures var node, life := s.lives[i].node, s.lives[i].(receiver := Closed);
      && Next(s, CloseSession(i)) ==
           s.(lives := s.lives[i := life],
              table := Table(s.table.dispatch[node := Nil], s.table.ready[node := false]),
              closed := s.closed[life.gen := i],
              pending := None)
      && SameIdentity(s.lives[i], life)
  {
    CloseFindsOwnChannel(s, i);
  }

  lemma CloseLives(s: State, i: nat)
    requires Inv(s) && Enabled(s, CloseSession(i))
    ensures LivesOk(Next(s, CloseSession(i)))
  {
    var s' := Next(s, CloseSession(i));
    CloseStep(s, i);
    assert LifeOk(s.table, s.made, s.closed, s.lives[i]);
    forall k | 0 <= k < |s'.lives|
      ensures LifeOk(s'.table, s'.made, s'.closed, s'.lives[k])
    {
      assert LifeOk(s.table, s.made, s.closed, s.lives[k]);
      if k != i { Distinct(s.lives, i, k); }
    }
  }

  lemma CloseReady(table: Table, node: string)
    requires ReadyIffOpen(table)
    ensures ReadyIffOpen(Table(table.dispatch[node := Nil], table.ready[node := false]))
  {
    var table' := Table(table.dispatch[node := Nil], table.ready[node := false]);
    forall n ensures IsReady(table', n) <==> StartSend(table', n).SendTo? {
      assert IsReady(table, n) <==> StartSend(table, n).SendTo?;
    }
  }

  lemma CloseKeepsInv(s: State, i: nat)
    requires Inv(s) && Enabled(s, CloseSession(i))
    ensures Inv(Next(s, CloseSession(i)))
  {
    CloseStep(s, i);
    CloseLives(s, i);
    CloseReady(s.table, s.lives[i].node);
    SteadyKeepsOthers(s.lives, i, s.lives[i].(receiver := Closed));
    assert LifeOk(s.table, s.made, s.closed, s.lives[i]);
    var s' := Next(s, CloseSession(i));
    forall n | n in s'.table.dispatch
      ensures Owned(s'.lives, n)
    {
      if n == s.lives[i].node {
        assert OwnedBy(s'.lives, n, i);
      }
    }
  }

  lemma UnregisterLife(s: State, i: nat, k: nat)
    requires Inv(s) && Enabled(s, UnregisterSession(i)) && k < |s.lives|
    ensures LifeOk(Unregister(s.table, s.lives[i].node), s.made, s.closed,
                   if k == i then s.lives[i].(phase := Gone) else s.lives[k])
  {
    assert LifeOk(s.table, s.made, s.closed, s.lives[i]);
    assert LifeOk(s.table, s.made, s.closed, s.lives[k]);
    if k != i { Distinct(s.lives, i, k); }
  }

  lemma GoneIsApart(lives: seq<Life>, i: nat)
    requires i < |lives| && AllApart(lives) && lives[i].phase.Finishing?
    ensures AllApart(lives[i := lives[i].(phase := Gone)])
  {
    var lives' := lives[i := lives[i].(phase := Gone)];
    forall j, k | 0 <= j < k < |lives'|
      ensures Apart(lives'[j], lives'[k])
    {
      assert Apart(lives[j], lives[k]);
    }
  }

  lemma UnregisterLives(s: State, i: nat)
    requires Inv(s) && Enabled(s, UnregisterSession(i))
    ensures LivesOk(Next(s, UnregisterSession(i)))
    ensures AllApart(Next(s, UnregisterSession(i)).lives)
  {
    forall k | 0 <= k < |s.lives|
      ensures LifeOk(Unregister(s.table, s.lives[i].node), s.made, s.closed,
                     if k == i then s.lives[i].(phase := Gone) else s.lives[k])
    {
      UnregisterLife(s, i, k);
    }
    GoneIsApart(s.lives, i);
  }

  lemma UnregisterEntries(s: State, i: nat, node: string)
    requires EntriesOwned(s) && Enabled(s, UnregisterSession(i))
    requires node in s.table.dispatch && node != s.lives[i].node
    ensures Owned(s.lives[i := s.lives[i].(phase := Gone)], node)
  {
    assert Owned(s.lives, node);
    var k: nat :| OwnedBy(s.lives, node, k);
    assert OwnedBy(s.lives[i := s.lives[i].(phase := Gone)], node, k);
  }

  lemma UnregisterReady(table: Table, node: string)
    requires ReadyIffOpen(table)
    ensures ReadyIffOpen(Unregister(table, node))
  {
    forall n ensures IsReady(Unregister(table, node), n) <==> StartSend(Unregister(table, node), n).SendTo? {
      assert IsReady(table, n) <==> StartSend(table, n).SendTo?;
    }
  }

  lemma UnregisterKeepsInv(s: State, i: nat)
    requires Inv(s) && Enabled(s, UnregisterSession(i))
    ensures Inv(Next(s, UnregisterSession(i)))
  {
    var s' := Next(s, UnregisterSession(i));
    assert s' == s.(lives := s.lives[i := s.lives[i].(phase := Gone)],
                    table := Unregister(s.table, s.lives[i].node), pending := None);
    UnregisterLives(s, i);
    UnregisterReady(s.table, s.lives[i].node);
    assert LifeOk(s.table, s.made, s.closed, s.lives[i]);
    forall n | n in s'.table.dispatch
      ensures Owned(s'.lives, n)
    {
      UnregisterEntries(s, i, n);
    }
  }

  lemma ForgetKeepsInv(s: State, node: string)
    requires Inv(s) && Enabled(s, ForgetNode(node))
    ensures Inv(Next(s, ForgetNode(node)))
  {
    var s' := Next(s, ForgetNode(node));
    forall k | 0 <= k < |s'.lives|
      ensures LifeOk(s'.table, s'.made, s'.closed, s'.lives[k])
    {
      assert LifeOk(s.table, s.made, s.closed, s.lives[k]);
    }
    forall n ensures IsReady(s'.table, n) <==> StartSend(s'.table, n).SendTo? {
      assert IsReady(s.table, n) <==> StartSend(s.table, n).SendTo?;
    }
  }

  lemma SendKeepsInv(s: State, a: Action)
    requires Inv(s) && Enabled(s, a) && (a.AnnounceWriter? || a.BeginSend? || a.EndSend?)
    ensures Inv(Next(s, a))
  {}

  lemma StepKeepsInv(s: State, a: Action)
    requires Inv(s) && Enabled(s, a)
    ensures Inv(Next(s, a))
  {
    match a
    case OpenStream(node) => OpenKeepsInv(s, node);
    case RegisterSession(i) => RegisterKeepsInv(s, i);
    case CloseSession(i) => CloseKeepsInv(s, i);
    case UnregisterSession(i) => UnregisterKeepsInv(s, i);
    case ForgetNode(node) => ForgetKeepsInv(s, node);
    case AnnounceWriter(_) => SendKeepsInv(s, a);
    case BeginSend(_) => SendKeepsInv(s, a);
    case EndSend(_) => SendKeepsInv(s, a);
    case _ => LocalKeepsInv(s, a);
  }

  lemma {:induction false} RunKeepsInv(s: State, actions: seq<Action>)
    requires Inv(s) && CanRun(s, actions)
    ensures Inv(Run(s, actions))
    decreases |actions|
  {
    if actions != [] {
      StepKeepsInv(s, actions[0]);
      RunKeepsInv(Next(s, actions[0]), actions[1..]);
    }
  }

  lemma ReachableInv(s: State)
    requires Reachable(s)
    ensures Inv(s)
  {
    var actions :| IsRun(actions, s);
    RunKeepsInv(INIT, actions);
  }

  // ----------------------------------------------------------------- results

  /**
   * Over every interleaving of any number of sessions, also with the same node id: no nil or closed
   * channel is ever closed; a channel is closed by the session that registered it, and by no other; a
   * session is unregistered only after it closed its channel; nobody sends on a closed channel; and a
   * node is ready exactly when its channel is open.
   */
  lemma ChannelsAreSafe(s: State)
    requires Reachable(s)
    ensures !s.panicked
    ensures forall gen | gen in s.closed ::
      In(s, s.closed[gen]) && Registered(s.lives[s.closed[gen]]) && s.lives[s.closed[gen]].gen == gen
    ensures forall i, j | 0 <= i < j < |s.lives| && Registered(s.lives[i]) && Registered(s.lives[j]) ::
      s.lives[i].gen != s.lives[j].gen
    ensures forall i | 0 <= i < |s.lives| :: s.lives[i].phase.Gone? ==> s.lives[i].gen in s.closed
    ensures forall c | c in s.sending :: s.sending[c] !in s.closed
    ensures forall node :: IsReady(s.table, node) <==>
      StartSend(s.table, node).SendTo? && StartSend(s.table, node).gen !in s.closed
  {
    ReachableInv(s);
    forall i, j | 0 <= i < j < |s.lives| && Registered(s.lives[i]) && Registered(s.lives[j])
      ensures s.lives[i].gen != s.lives[j].gen
    {
      Distinct(s.lives, i, j);
    }
    forall i | 0 <= i < |s.lives|
      ensures s.lives[i].phase.Gone? ==> s.lives[i].gen in s.closed
    {
      assert LifeOk(s.table, s.made, s.closed, s.lives[i]);
    }
    forall node | StartSend(s.table, node).SendTo?
      ensures StartSend(s.table, node).gen !in s.closed
    {
      OpenIsNotClosed(s, node);
    }
  }

  lemma OpenIsNotClosed(s: State, node: string)
    requires Inv(s) && StartSend(s.table, node).SendTo?
    ensures StartSend(s.table, node).gen !in s.closed
  {
    assert Owned(s.lives, node);
    var i: nat :| OwnedBy(s.lives, node, i);
    assert LifeOk(s.table, s.made, s.closed, s.lives[i]);
  }

  /** Closing a session's channel finds it open: never nil and never closed before. */
  lemma ClosesOwnChannel(s: State, i: nat)
    requires Reachable(s) && Enabled(s, CloseSession(i))
    ensures Close(s.table, s.lives[i].node).1 == Some(s.lives[i].gen)
    ensures s.lives[i].gen !in s.closed
  {
    ReachableInv(s);
    CloseFindsOwnChannel(s, i);
  }

  /** While a session has its entry, fetching the channel never fails; it gives nil exactly after the close. */
  lemma FetchNeverMisses(s: State, i: nat)
    requires Reachable(s) && Enabled(s, FetchChannel(i))
    ensures Lookup(s.table, s.lives[i].node) == Some(if s.lives[i].receiver.Closed? then Nil else Open(s.lives[i].gen))
  {
    ReachableInv(s);
    assert LifeOk(s.table, s.made, s.closed, s.lives[i]);
  }

  // ------------------------------------------------------- when a session can end

  /** The receiving goroutine closed the channel before the main goroutine had fetched it. */
  predicate Doomed(life: Life) {
    life.phase.Active? && !life.senderDone && life.receiver.Closed? && (life.channel.None? || life.channel == Some(Nil))
  }

  lemma OthersStepAside(s: State, a: Action, i: nat)
    requires Enabled(s, a) && In(s, i) && !ActsOn(a, i)
    ensures In(Next(s, a), i) && Next(s, a).lives[i] == s.lives[i]
  {}

  /** The action is the session's own. */
  predicate ActsOn(a: Action, i: nat) {
    match a
    case OpenStream(_) => false
    case AnnounceWriter(_) => false
    case ForgetNode(_) => false
    case BeginSend(_) => false
    case EndSend(_) => false
    case _ => a.i == i
  }

  lemma DoomIsForever(s: State, a: Action, i: nat)
    requires Inv(s) && Enabled(s, a) && In(s, i) && Doomed(s.lives[i])
    ensures In(Next(s, a), i) && Doomed(Next(s, a).lives[i]) && Next(s, a).lives[i].node == s.lives[i].node
  {
    assert LifeOk(s.table, s.made, s.closed, s.lives[i]);
    if a.FetchChannel? && a.i == i {
      assert Lookup(s.table, s.lives[i].node) == Some(Nil);
    } else {
      OthersStepAside(s, a, i);
    }
  }

  lemma {:induction false} DoomedThroughout(s: State, actions: seq<Action>, i: nat)
    requires Inv(s) && CanRun(s, actions) && In(s, i) && Doomed(s.lives[i])
    ensures Inv(Run(s, actions)) && In(Run(s, actions), i) && Doomed(Run(s, actions).lives[i])
    ensures Run(s, actions).lives[i].node == s.lives[i].node
    decreases |actions|
  {
    if actions != [] {
      StepKeepsInv(s, actions[0]);
      DoomIsForever(s, actions[0], i);
      DoomedThroughout(Next(s, actions[0]), actions[1..], i);
    }
  }

  /** A doomed session keeps its node out: every later registration of that node is refused. */
  lemma DoomedBlocksTheNode(s: State, actions: seq<Action>, i: nat, node: string)
    requires Reachable(s) && CanRun(s, actions) && In(s, i) && Doomed(s.lives[i]) && s.lives[i].node == node
    ensures Register(Run(s, actions).table, node, Run(s, actions).made).None?
  {
    ReachableInv(s);
    DoomedThroughout(s, actions, i);
    var t := Run(s, actions);
    assert LifeOk(t.table, t.made, t.closed, t.lives[i]);
  }

  lemma RunCons(s: State, a: Action, rest: seq<Action>)
    requires Enabled(s, a) && CanRun(Next(s, a), rest)
    ensures CanRun(s, [a] + rest) && Run(s, [a] + rest) == Run(Next(s, a), rest)
  {
    assert ([a] + rest)[1..] == rest;
  }

  /** The channel was closed before it was fetched, or is about to be: the closer holds off every fetch. */
  predicate Lost(s: State, i: nat)
    requires In(s, i)
  {
    var life := s.lives[i];
    Doomed(life) ||
    (s.pending == Some(OfSession(i)) && life.phase.Active? && life.receiver.Stopping?
     && life.channel.None? && !life.senderDone)
  }

  lemma LostIsForever(s: State, a: Action, i: nat)
    requires Inv(s) && Enabled(s, a) && In(s, i) && Lost(s, i)
    ensures In(Next(s, a), i) && Lost(Next(s, a), i) && Registered(Next(s, a).lives[i])
  {
    assert LifeOk(s.table, s.made, s.closed, s.lives[i]);
    if Doomed(s.lives[i]) {
      DoomIsForever(s, a, i);
    } else if ActsOn(a, i) {
      OwnStepWhileClosing(s, a, i);
    } else {
      OthersStepAside(s, a, i);
      PendingStays(s, a, OfSession(i));
    }
  }

  lemma OwnStepWhileClosing(s: State, a: Action, i: nat)
    requires Inv(s) && Enabled(s, a) && In(s, i) && Lost(s, i) && !Doomed(s.lives[i]) && ActsOn(a, i)
    ensures In(Next(s, a), i) && Doomed(Next(s, a).lives[i])
  {
    assert a == CloseSession(i);
    CloseStep(s, i);
  }

  /** A waiting writer keeps its turn, and the callers in Send only leave, until it takes the lock. */
  lemma PendingStays(s: State, a: Action, w: Writer)
    requires Enabled(s, a) && s.pending == Some(w)
    requires match w case OfSession(i) => !ActsOn(a, i) case OfForget(node) => a != ForgetNode(node)
    ensures Next(s, a).pending == Some(w) && Next(s, a).sending.Keys <= s.sending.Keys
  {}

  lemma {:induction false} LostThroughout(s: State, actions: seq<Action>, i: nat)
    requires Inv(s) && CanRun(s, actions) && In(s, i) && Lost(s, i)
    ensures In(Run(s, actions), i) && Lost(Run(s, actions), i)
    decreases |actions|
  {
    if actions != [] {
      StepKeepsInv(s, actions[0]);
      LostIsForever(s, actions[0], i);
      LostThroughout(Next(s, actions[0]), actions[1..], i);
    }
  }

  /** What is left to do for a session to be gone. */
  function Remaining(life: Life): nat {
    (if life.phase.Gone? then 0 else if life.phase.Finishing? then 1 else 2)
    + (if life.receiver.Closed? then 0 else if life.receiver.Stopping? then 1 else 2)
    + (if life.senderDone then 0 else if life.channel.Some? then 1 else 2)
  }

  /** What a writer does once it has the lock. */
  function WriterStep(s: State, w: Writer): Action
    requires w.OfSession? ==> In(s, w.i)
  {
    match w
    case OfForget(node) => ForgetNode(node)
    case OfSession(i) =>
      if s.lives[i].phase.Opening? then RegisterSession(i)
      else if s.lives[i].phase.Finishing? then UnregisterSession(i)
      else CloseSession(i)
  }

  /** A session's next step while nobody waits for the lock: fetch, stop, announce itself, and so on. */
  function NextStep(s: State, i: nat): Action
    requires In(s, i)
  {
    var life := s.lives[i];
    if life.phase.Active? && !life.senderDone && life.channel.None? then FetchChannel(i)
    else if WantsLock(life) then AnnounceWriter(OfSession(i))
    else if life.receiver.Receiving? then EndStream(i)
    else if !life.senderDone then EndRange(i)
    else FinishSession(i)
  }

  /** Whose turn it is: another writer's, nobody's, or the session's own. */
  function Turn(pending: Option<Writer>, i: nat): nat {
    if pending == Some(OfSession(i)) then 0 else if pending.None? then 1 else 2
  }

  /** While nobody waits for the lock the session can go on by itself. */
  lemma NextStepAdvances(s: State, i: nat)
    requires LivesOk(s) && s.pending.None? && In(s, i) && Owns(s.lives[i]) && !Doomed(s.lives[i])
    ensures Enabled(s, NextStep(s, i)) && In(Next(s, NextStep(s, i)), i)
    ensures var s' := Next(s, NextStep(s, i));
      && !Lost(s', i) && Registered(s'.lives[i]) && s'.sending == s.sending
      && if WantsLock(s.lives[i]) && NextStep(s, i).AnnounceWriter?
         then s'.lives == s.lives && s'.pending == Some(OfSession(i))
         else Remaining(s'.lives[i]) < Remaining(s.lives[i]) && s'.pending.None?
  {
    assert LifeOk(s.table, s.made, s.closed, s.lives[i]);
  }

  /** A waiting writer gets the lock once nobody is in Send, and gives it back at once. */
  lemma WriterGoesOn(s: State, w: Writer)
    requires Inv(s) && CanLock(s, w)
    ensures w.OfSession? ==> In(s, w.i)
    ensures Enabled(s, WriterStep(s, w)) && Next(s, WriterStep(s, w)).pending.None?
    ensures Next(s, WriterStep(s, w)).sending == s.sending
  {}

  /** Its own turn brings a session that has fetched its channel closer to its end. */
  lemma OwnTurn(s: State, i: nat)
    requires Inv(s) && CanLock(s, OfSession(i)) && In(s, i) && Registered(s.lives[i]) && !Lost(s, i)
    ensures Enabled(s, WriterStep(s, OfSession(i))) && In(Next(s, WriterStep(s, OfSession(i))), i)
    ensures var life := Next(s, WriterStep(s, OfSession(i))).lives[i];
      Registered(life) && !Doomed(life) && Remaining(life) < Remaining(s.lives[i])
  {
    assert LifeOk(s.table, s.made, s.closed, s.lives[i]);
    if s.lives[i].phase.Active? { CloseStep(s, i); }
  }

  lemma OthersTurn(s: State, w: Writer, i: nat)
    requires Inv(s) && CanLock(s, w) && In(s, i) && w != OfSession(i)
    ensures w.OfSession? ==> In(s, w.i)
    ensures Enabled(s, WriterStep(s, w)) && In(Next(s, WriterStep(s, w)), i)
    ensures Next(s, WriterStep(s, w)).lives[i] == s.lives[i]
  {
    WriterGoesOn(s, w);
    OthersStepAside(s, WriterStep(s, w), i);
  }

  /** A step towards the end of the session, somebody's if not its own. */
  lemma StepTowardsEnd(s: State, i: nat) returns (a: Action)
    requires Inv(s) && In(s, i) && Owns(s.lives[i]) && !Lost(s, i)
    ensures Enabled(s, a) && In(Next(s, a), i) && Registered(Next(s, a).lives[i]) && !Lost(Next(s, a), i)
    ensures var s' := Next(s, a);
      || Remaining(s'.lives[i]) < Remaining(s.lives[i])
      || (s'.lives[i] == s.lives[i] && Turn(s'.pending, i) < Turn(s.pending, i))
      || (s'.lives[i] == s.lives[i] && s'.pending == s.pending && s'.sending.Keys < s.sending.Keys)
  {
    if s.pending.None? {
      a := NextStep(s, i);
      NextStepAdvances(s, i);
    } else if s.sending != map[] {
      var c :| c in s.sending;
      a := EndSend(c);
      assert c !in Next(s, a).sending;
    } else if s.pending == Some(OfSession(i)) {
      a := WriterStep(s, OfSession(i));
      WriterGoesOn(s, OfSession(i));
      OwnTurn(s, i);
    } else {
      WriterGoesOn(s, s.pending.value);
      OthersTurn(s, s.pending.value, i);
      a := WriterStep(s, s.pending.value);
    }
  }

  lemma FewerKeys(a: map<CallerId, nat>, b: map<CallerId, nat>)
    requires a.Keys < b.Keys
    ensures |a| < |b|
  {
    var c :| c in b.Keys && c !in a.Keys;
    assert a.Keys <= b.Keys - {c};
    FewerElements(a.Keys, b.Keys - {c});
    assert |b.Keys - {c}| == |b.Keys| - 1;
  }

  lemma {:induction false} FewerElements(a: set<CallerId>, b: set<CallerId>)
    requires a <= b
    ensures |a| <= |b|
    decreases |a|
  {
    if a != {} {
      var c :| c in a;
      FewerElements(a - {c}, b - {c});
    }
  }

  lemma {:induction false} CanEnd(s: State, i: nat) returns (actions: seq<Action>)
    requires Inv(s) && In(s, i) && Registered(s.lives[i]) && !Lost(s, i)
    ensures EndsBy(s, actions, i)
    decreases Remaining(s.lives[i]), Turn(s.pending, i), |s.sending|
  {
    if s.lives[i].phase.Gone? {
      actions := [];
    } else {
      var a := StepTowardsEnd(s, i);
      StepKeepsInv(s, a);
      if Next(s, a).sending.Keys < s.sending.Keys { FewerKeys(Next(s, a).sending, s.sending); }
      var rest := CanEnd(Next(s, a), i);
      RunCons(s, a, rest);
      actions := [a] + rest;
    }
  }

  ghost predicate EndsBy(s: State, actions: seq<Action>, i: nat) {
    CanRun(s, actions) && In(Run(s, actions), i) && Run(s, actions).lives[i].phase.Gone?
  }

  /**
   * A registered session can end, that is some run from here unregisters it, exactly when its channel was
   * not closed, and is not just being closed, before it was fetched.
   */
  lemma EndsIffFetchedInTime(s: State, i: nat)
    requires Reachable(s) && In(s, i) && Registered(s.lives[i])
    ensures (exists actions :: EndsBy(s, actions, i)) <==> !Lost(s, i)
  {
    ReachableInv(s);
    if Lost(s, i) {
      forall actions
        ensures !EndsBy(s, actions, i)
      {
        if CanRun(s, actions) {
          LostThroughout(s, actions, i);
        }
      }
    } else {
      var actions := CanEnd(s, i);
    }
  }

  // ---------------------------------------------- sessions that fetched in time

  /** The main goroutine has fetched the session's own open channel. */
  predicate InTime(life: Life) {
    life.channel.Some? && life.channel.value.Open?
  }

  /** Nothing that anybody does takes such a session further from its end, or dooms it. */
  lemma NobodySetsSessionBack(s: State, a: Action, i: nat)
    requires Reachable(s) && Enabled(s, a) && In(s, i) && InTime(s.lives[i])
    ensures In(Next(s, a), i)
    ensures var life := Next(s, a).lives[i];
      InTime(life) && !Doomed(life) && Remaining(life) <= Remaining(s.lives[i])
  {
    ReachableInv(s);
    assert LifeOk(s.table, s.made, s.closed, s.lives[i]);
    InTimeStays(s, a, i);
  }

  lemma InTimeStays(s: State, a: Action, i: nat)
    requires Enabled(s, a) && In(s, i) && InTime(s.lives[i]) && Registered(s.lives[i])
    ensures In(Next(s, a), i)
    ensures InTime(Next(s, a).lives[i]) && Remaining(Next(s, a).lives[i]) <= Remaining(s.lives[i])
  {}

  /**
   * And as long as it is not gone, somebody's next step is enabled: its own, which brings it closer to its
   * end or announces it as a writer; or, while a writer waits, that writer's, once the callers in Send have
   * left, as each of them does when its time is up.
   */
  lemma SessionNeverStuck(s: State, i: nat)
    requires Reachable(s) && In(s, i) && InTime(s.lives[i]) && !s.lives[i].phase.Gone?
    ensures s.pending.None? ==>
      && Enabled(s, NextStep(s, i)) && In(Next(s, NextStep(s, i)), i)
      && var s' := Next(s, NextStep(s, i));
         Remaining(s'.lives[i]) < Remaining(s.lives[i]) || s'.pending == Some(OfSession(i))
    ensures CanLock(s, OfSession(i)) ==>
      && Enabled(s, WriterStep(s, OfSession(i))) && In(Next(s, WriterStep(s, OfSession(i))), i)
      && Remaining(Next(s, WriterStep(s, OfSession(i))).lives[i]) < Remaining(s.lives[i])
  {
    ReachableInv(s);
    assert LifeOk(s.table, s.made, s.closed, s.lives[i]);
    if s.pending.None? { NextStepAdvances(s, i); }
    if CanLock(s, OfSession(i)) { OwnTurn(s, i); }
  }

  /**
   * The lock is always handed on. While a writer waits nobody can start to send, so the callers in Send
   * only leave; each of them can; and once the last one has left the writer can take the lock, and is done.
   */
  lemma LockIsHandedOn(s: State, a: Action, w: Writer)
    requires Reachable(s) && s.pending == Some(w) && Enabled(s, a)
    ensures w.OfSession? ==> In(s, w.i)
    ensures Next(s, a).sending.Keys <= s.sending.Keys
    ensures Next(s, a).pending == Some(w) || (a == WriterStep(s, w) && Next(s, a).pending.None?)
    ensures forall c | c in s.sending :: Enabled(s, EndSend(c)) && Next(s, EndSend(c)).sending.Keys < s.sending.Keys
    ensures s.sending == map[] ==> Enabled(s, WriterStep(s, w)) && Next(s, WriterStep(s, w)).pending.None?
  {
    ReachableInv(s);
    if s.sending == map[] { WriterGoesOn(s, w); }
    SendersLeave(s, a, w);
    forall c | c in s.sending
      ensures Next(s, EndSend(c)).sending.Keys < s.sending.Keys
    {
      assert c !in Next(s, EndSend(c)).sending.Keys;
    }
  }

  lemma SendersLeave(s: State, a: Action, w: Writer)
    requires WriterOk(s) && s.pending == Some(w) && Enabled(s, a)
    ensures w.OfSession? ==> In(s, w.i)
    ensures Next(s, a).sending.Keys <= s.sending.Keys
    ensures Next(s, a).pending == Some(w) || (a == WriterStep(s, w) && Next(s, a).pending.None?)
  {}

  /** A stream that ends between the registration and the fetch. */
  function TooLate(node: string): seq<Action> {
    var me := AnnounceWriter(OfSession(0));
    [OpenStream(node), me, RegisterSession(0), EndStream(0), me, CloseSession(0)]
  }

  /** Such sessions do exist: any node gets one from a stream that ends too soon. */
  lemma DoomIsReachable(node: string)
    ensures CanRun(INIT, TooLate(node))
    ensures In(Run(INIT, TooLate(node)), 0) && Doomed(Run(INIT, TooLate(node)).lives[0])
    ensures Run(INIT, TooLate(node)).lives[0].node == node
  {
    var a := TooLate(node);
    var s1 := Next(INIT, a[0]);
    assert s1 == INIT.(lives := [Life(node, Opening, 0, None, false, Receiving)]);
    var s2 := Next(s1, a[1]);
    var s3 := Next(s2, a[2]);
    assert s3.lives == [Life(node, Active, 0, None, false, Receiving)];
    assert s3.table == Table(map[node := Open(0)], map[node := true]) && s3.closed == map[] && s3.sending == map[];
    var s4 := Next(s3, a[3]);
    assert s4.lives == [Life(node, Active, 0, None, false, Stopping)];
    var s5 := Next(s4, a[4]);
    var s6 := Next(s5, a[5]);
    assert s6.lives == [Life(node, Active, 0, None, false, Closed)];
    RunCons(s5, a[5], []);
    RunCons(s4, a[4], [a[5]]);
    RunCons(s3, a[3], [a[4]] + [a[5]]);
    RunCons(s2, a[2], [a[3]] + ([a[4]] + [a[5]]));
    RunCons(s1, a[1], [a[2]] + ([a[3]] + ([a[4]] + [a[5]])));
    RunCons(INIT, a[0], [a[1]] + ([a[2]] + ([a[3]] + ([a[4]] + [a[5]]))));
    assert a == [a[0]] + ([a[1]] + ([a[2]] + ([a[3]] + ([a[4]] + [a[5]]))));
    assert [a[5]] + [] == [a[5]];
  }
}
