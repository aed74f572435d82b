/** What callers of forwarded requests can rely on, in every reachable state. */
module RoutingResults {
  import opened Common
  import opened Proto
  import opened Routing
  import opened RoutingProofs
  import L = Lifecycle
  import LP = LifecycleProofs

  /** The message answers the task that caller c's request became on session i. */
  predicate AnswersCaller(s: State, c: CallerId, i: nat, msg: TaskResponse) {
    && SentAs(s.issued, c, i, msg.id)
    && c.0 < |s.forwards| && i < |s.routes| && i < |s.life.lives|
    && s.life.lives[i].node == c.1
    && (exists task | task in s.routes[i].sent :: Conveys(s.forwards[c.0].req, msg.id, task))
    && msg in s.routes[i].received
  }

  /**
   * Whatever the nodes send and however the loops interleave, a reply channel receives at most one message
   * in its life, and that message carries the id that the caller's own request was given, on a session of
   * the node the caller targets.
   */
  lemma AtMostOwnReply(s: State, c: CallerId)
    requires Reachable(s) && c in s.callers
    ensures |s.callers[c].delivered| <= 1
    ensures forall msg | msg in s.callers[c].delivered :: c in s.issued && AnswersCaller(s, c, s.issued[c].0, msg)
  {
    ReachableInv(s);
    assert CallerOk(c, s.callers[c], s.issued, s.routes);
    forall msg | msg in s.callers[c].delivered
      ensures c in s.issued && AnswersCaller(s, c, s.issued[c].0, msg)
    {
      OwnReply(s, c, msg);
    }
  }

  lemma OwnReply(s: State, c: CallerId, msg: TaskResponse)
    requires CallersOk(s) && IssuesOk(s) && c in s.callers && msg in s.callers[c].delivered
    ensures c in s.issued && AnswersCaller(s, c, s.issued[c].0, msg)
  {
    assert CallerOk(c, s.callers[c], s.issued, s.routes);
    assert IssueOk(s, c);
    assert Conveys(s.forwards[c.0].req, msg.id, Forwarded(s.forwards[c.0].req, msg.id));
  }

  /** Two callers never get the same id, so no message can be meant for both. */
  lemma AnswersOneCaller(s: State, c: CallerId, d: CallerId, i: nat, j: nat, msg: TaskResponse)
    requires Reachable(s) && AnswersCaller(s, c, i, msg) && AnswersCaller(s, d, j, msg)
    ensures c == d && i == j
  {
    ReachableInv(s);
  }

  /** The send into the reply channel never waits: the channel is empty whenever a reply is put into it. */
  lemma DeliveryNeverWaits(s: State, i: nat)
    requires Reachable(s) && Receives(s, i) && s.routes[i].inbox.Delivering?
    ensures Enabled(s, Deliver(i))
  {
    ReachableInv(s);
    assert RouteOk(i, s.routes[i], s.life.lives[i].node, s.callers, s.issued);
  }

  /** A reply that overtakes the recording of its channel is dropped. */
  lemma OvertakingReplyIsDropped(s: State, i: nat)
    requires Reachable(s) && Enabled(s, LookUp(i))
    requires s.routes[i].sender.Recording? && s.routes[i].inbox.msg.id == s.routes[i].sender.id
    ensures Next(s, LookUp(i)).routes[i].inbox.Idle?
    ensures Next(s, LookUp(i)).callers == s.callers
  {
    ReachableInv(s);
    assert RouteOk(i, s.routes[i], s.life.lives[i].node, s.callers, s.issued);
  }

  /** No two tasks sent to any nodes share an id, and each is some caller's request under that caller's own id. */
  lemma SentIsForwarded(s: State, i: nat, k: nat) returns (c: CallerId)
    requires Reachable(s) && i < |s.routes| && k < |s.routes[i].sent|
    ensures SentAs(s.issued, c, i, s.routes[i].sent[k].id) && c.0 < |s.forwards|
    ensures var task, req := s.routes[i].sent[k], s.forwards[c.0].req;
      && task.task == req.task && task.input == req.input && task.timeout == req.timeout
      && task.groupID == req.groupID && task.lockMode == Unspecified
    ensures i < |s.life.lives| && s.life.lives[i].node == c.1
    ensures forall j, l | 0 <= j < |s.routes| && 0 <= l < |s.routes[j].sent| ::
      s.routes[j].sent[l].id == s.routes[i].sent[k].id ==> j == i && l == k
  {
    ReachableInv(s);
    c := SentHasCaller(s, i, k);
  }

  lemma SentHasCaller(s: State, i: nat, k: nat) returns (c: CallerId)
    requires Inv(s) && i < |s.routes| && k < |s.routes[i].sent|
    ensures SentAs(s.issued, c, i, s.routes[i].sent[k].id) && c.0 < |s.forwards|
    ensures s.routes[i].sent[k] == Forwarded(s.forwards[c.0].req, s.routes[i].sent[k].id)
    ensures i < |s.life.lives| && s.life.lives[i].node == c.1
  {
    var id := s.routes[i].sent[k].id;
    assert SentOk(s.routes, s.issued, i, k);
    c :| c in s.issued && s.issued[c].1 == id;
    assert IssueOk(s, c);
    var j := s.issued[c].0;
    var task := Forwarded(s.forwards[c.0].req, id);
    var l :| 0 <= l < |s.routes[j].sent| && s.routes[j].sent[l] == task;
    assert s.routes[j].sent[l].id == id;
  }

  /** A session only takes tasks of callers that target its own node. */
  lemma SessionServesItsNode(s: State, i: nat, c: CallerId)
    requires Reachable(s) && Enabled(s, TakeTask(i, c))
    ensures c.1 == s.life.lives[i].node
  {
    ReachableInv(s);
    TakesOwnNode(s, i, c);
  }

  /** All goroutines of a forwarded request have returned. */
  predicate Joined(s: State, k: nat)
    requires k < |s.forwards|
  {
    forall node | node in s.forwards[k].targets && s.forwards[k].targets[node] ::
      (k, node) in s.callers && s.callers[(k, node)].pc.Done?
  }

  /** The outcome a connected target may have. */
  predicate Explained(s: State, k: nat, node: string, outcome: Outcome) {
    match outcome
    case Synthetic(e) => e == Disconnecting || e == Timeout
    case Reply(msg) => (k, node) in s.issued && AnswersCaller(s, (k, node), s.issued[(k, node)].0, msg)
  }

  lemma TargetExplained(s: State, k: nat, node: string)
    requires Inv(s) && k < |s.forwards| && node in s.forwards[k].targets && node in s.forwards[k].results
    ensures if s.forwards[k].targets[node] then Explained(s, k, node, s.forwards[k].results[node])
            else s.forwards[k].results[node] == Synthetic(Disconnected)
  {
    assert ForwardOk(k, s.forwards[k], s.callers);
    assert TargetOk(k, s.forwards[k], node, s.callers);
    if s.forwards[k].targets[node] {
      var c := (k, node);
      assert CallerOk(c, s.callers[c], s.issued, s.routes);
      assert c in s.issued ==> IssueOk(s, c);
      if c in s.issued {
        var id := s.issued[c].1;
        assert Conveys(s.forwards[k].req, id, Forwarded(s.forwards[k].req, id));
      }
    }
  }

  /**
   * When the join completes the results are for exactly the targets. The forwarder itself says
   * DISCONNECTED for exactly the targets that were not ready, and any reply from a node under a target
   * came from that node's own session for this very request.
   */
  lemma JoinIsComplete(s: State, k: nat)
    requires Reachable(s) && k < |s.forwards|
    ensures Joined(s, k) <==> s.forwards[k].results.Keys == s.forwards[k].targets.Keys
    ensures forall node | node in s.forwards[k].results :: node in s.forwards[k].targets
    ensures forall node | node in s.forwards[k].results ::
      (s.forwards[k].results[node] == Synthetic(Disconnected) <==> !s.forwards[k].targets[node])
      && (s.forwards[k].targets[node] ==> Explained(s, k, node, s.forwards[k].results[node]))
  {
    ReachableInv(s);
    var f := s.forwards[k];
    assert ForwardOk(k, f, s.callers);
    forall node | node in f.targets
      ensures TargetOk(k, f, node, s.callers)
      ensures node in f.results ==>
        (f.results[node] == Synthetic(Disconnected) <==> !f.targets[node])
        && (f.targets[node] ==> Explained(s, k, node, f.results[node]))
    {
      if node in f.results { TargetExplained(s, k, node); }
    }
    if f.results.Keys == f.targets.Keys {
      forall node | node in f.targets && f.targets[node]
        ensures (k, node) in s.callers && s.callers[(k, node)].pc.Done?
      {
        assert node in f.results.Keys;
        assert TargetOk(k, f, node, s.callers);
      }
    }
  }

  /** The node has no open channel, so it cannot be sent to. */
  predicate NotConnected(s: State, node: string) {
    node !in s.life.table.dispatch || s.life.table.dispatch[node].Nil?
  }

  /**
   * What a caller reports is decided by the step that ends it: DISCONNECTING if the node had no open
   * channel when it came to send, TIMEOUT if its time was up, and otherwise the message in its channel.
   */
  lemma OutcomeSaysWhy(s: State, a: Action, c: CallerId)
    requires Reachable(s) && Enabled(s, a) && !a.NewForward? && c in s.callers && !s.callers[c].pc.Done?
    requires c in NextCallers(s, a) && NextCallers(s, a)[c].pc.Done?
    ensures match NextCallers(s, a)[c].pc.outcome
            case Synthetic(e) =>
              && (e == Disconnecting <==> a == StartSend(c) && NotConnected(s, c.1))
              && (e == Timeout <==> a == TimeOutSend(c) || a == TimeOutWait(c))
            case Reply(msg) => a == TakeReply(c) && s.callers[c].buffer != [] && msg == s.callers[c].buffer[0]
  {
    ReachableInv(s);
    assert CallerOk(c, s.callers[c], s.issued, s.routes);
    EndingStep(s, a, c);
  }

  lemma EndingStep(s: State, a: Action, c: CallerId)
    requires Enabled(s, a) && !a.NewForward? && c in s.callers && !s.callers[c].pc.Done?
    requires a.StartSend? ==> a.c !in s.life.sending
    requires c in NextCallers(s, a) && NextCallers(s, a)[c].pc.Done?
    ensures match NextCallers(s, a)[c].pc.outcome
            case Synthetic(e) =>
              && (e == Disconnecting <==> a == StartSend(c) && NotConnected(s, c.1))
              && (e == Timeout <==> a == TimeOutSend(c) || a == TimeOutWait(c))
            case Reply(msg) => a == TakeReply(c) && s.callers[c].buffer != [] && msg == s.callers[c].buffer[0]
  {}

  // ------------------------------------------------------- the forwarder returns

  /** Steps a caller still has to take. */
  function Left(pc: CallerPc): nat {
    match pc
    case Starting => 3
    case Sending => 2
    case Awaiting => 1
    case Done(_) => 0
  }

  /** The step a caller can always take once its time is up. */
  function OwnStepOf(c: CallerId, pc: CallerPc): Action {
    match pc
    case Starting => StartSend(c)
    case Sending => TimeOutSend(c)
    case _ => TimeOutWait(c)
  }

  /**
   * Callers are never stuck: the next own step is enabled and brings the caller closer to its end, unless
   * it is about to read the dispatcher while a writer waits.
   */
  lemma CallerNeverStuck(s: State, c: CallerId)
    requires Reachable(s) && c in s.callers && !s.callers[c].pc.Done?
    ensures (s.callers[c].pc.Starting? && s.life.pending.Some?) || Enabled(s, OwnStepOf(c, s.callers[c].pc))
    ensures Enabled(s, OwnStepOf(c, s.callers[c].pc)) ==>
      var s' := Next(s, OwnStepOf(c, s.callers[c].pc));
      c in s'.callers && Left(s'.callers[c].pc) < Left(s.callers[c].pc)
  {
    ReachableInv(s);
    CallerIsKnown(s, c);
    OwnStepWaitsForLock(s, c);
    if Enabled(s, OwnStepOf(c, s.callers[c].pc)) {
      OwnStepFinishes(s, OwnStepOf(c, s.callers[c].pc));
    }
  }

  lemma OwnStepWaitsForLock(s: State, c: CallerId)
    requires c in s.callers && !s.callers[c].pc.Done? && c.0 < |s.forwards|
    requires s.callers[c].pc.Sending? ==> c in s.life.sending
    ensures (s.callers[c].pc.Starting? && s.life.pending.Some?) || Enabled(s, OwnStepOf(c, s.callers[c].pc))
  {}

  /** And that wait is short: every caller in Send can leave, and then the writer takes its turn. */
  lemma WriterNeverStuck(s: State, w: L.Writer)
    requires Reachable(s) && s.life.pending == Some(w)
    ensures w.OfSession? ==> L.In(s.life, w.i)
    ensures forall c | c in s.life.sending :: Enabled(s, TimeOutSend(c))
    ensures s.life.sending == map[] ==>
      && Enabled(s, Session(LP.WriterStep(s.life, w)))
      && Next(s, Session(LP.WriterStep(s.life, w))).life.pending.None?
  {
    ReachableInv(s);
    if s.life.sending == map[] { LP.WriterGoesOn(s.life, w); }
    forall c | c in s.life.sending
      ensures Enabled(s, TimeOutSend(c))
    {
      CallerIsKnown(s, c);
    }
  }

  lemma CallerIsKnown(s: State, c: CallerId)
    requires ForwardsOk(s.forwards, s.callers) && CallersOk(s) && c in s.callers
    ensures c.0 < |s.forwards|
    ensures s.callers[c].pc.Sending? <==> c in s.life.sending
  {}

  lemma OwnStepFinishes(s: State, a: Action)
    requires Enabled(s, a) && (a.StartSend? || a.TimeOutSend? || a.TimeOutWait?)
    ensures a.c in NextCallers(s, a) && Left(NextCallers(s, a)[a.c].pc) < Left(s.callers[a.c].pc)
  {}

  /** Nothing that any other goroutine does takes a caller further from its end. */
  lemma NobodySetsCallerBack(s: State, a: Action, c: CallerId)
    requires Reachable(s) && Enabled(s, a) && c in s.callers
    ensures c in Next(s, a).callers && Left(Next(s, a).callers[c].pc) <= Left(s.callers[c].pc)
  {
    ReachableInv(s);
    if a.NewForward? {
      assert NextCallers(s, a)[c] == s.callers[c];
    } else {
      CallerMoves(s, a, c);
    }
  }

  lemma CallerMoves(s: State, a: Action, c: CallerId)
    requires Enabled(s, a) && !a.NewForward? && c in s.callers
    ensures c in NextCallers(s, a) && Left(NextCallers(s, a)[c].pc) <= Left(s.callers[c].pc)
  {}
}
