/** Every caller gets at most the one reply meant for it, and every forwarded request is fully answered. */
module RoutingProofs {
  import opened Common
  import opened Proto
  import opened Routing
  import D = Dispatch
  import L = Lifecycle
  import LP = LifecycleProofs

  type Callers = map<CallerId, Caller>
  type Issued = map<CallerId, (nat, int)>

  // ---------------------------------------------------------------- invariant

  /** The caller has handed over its task and nothing was put into its reply channel yet. */
  predicate Unserved(callers: Callers, c: CallerId) {
    && c in callers && callers[c].delivered == [] && callers[c].buffer == []
    && !callers[c].pc.Starting? && !callers[c].pc.Sending?
  }

  predicate SentAs(issued: Issued, c: CallerId, i: nat, id: int) {
    c in issued && issued[c] == (i, id)
  }

  predicate SenderOk(i: nat, r: Route, node: string, callers: Callers, issued: Issued) {
    match r.sender
    case Ranging => true
    case Holding(c) => Unserved(callers, c) && c !in issued && c.1 == node
    case Recording(id, c) =>
      && Unserved(callers, c) && SentAs(issued, c, i, id) && id !in r.replies
      && !(r.inbox.Delivering? && r.inbox.c == c)
  }

  predicate InboxOk(i: nat, r: Route, callers: Callers, issued: Issued) {
    match r.inbox
    case Idle => true
    case Got(msg) => msg in r.received
    case Delivering(msg, c) => Unserved(callers, c) && SentAs(issued, c, i, msg.id) && msg in r.received
    case Deleting(_) => true
  }

  predicate EntryOk(i: nat, r: Route, id: int, callers: Callers, issued: Issued)
    requires id in r.replies
  {
    SentAs(issued, r.replies[id], i, id) && (Unserved(callers, r.replies[id]) || r.inbox == Deleting(id))
  }

  ghost predicate RouteOk(i: nat, r: Route, node: string, callers: Callers, issued: Issued) {
    && SenderOk(i, r, node, callers, issued) && InboxOk(i, r, callers, issued)
    && forall id | id in r.replies :: EntryOk(i, r, id, callers, issued)
  }

  ghost predicate RoutesOk(s: State) {
    && |s.routes| == |s.life.lives|
    && forall i | 0 <= i < |s.routes| :: RouteOk(i, s.routes[i], s.life.lives[i].node, s.callers, s.issued)
  }

  predicate Holds(r: Route, c: CallerId) {
    r.sender == Holding(c)
  }

  ghost predicate HeldOnce(routes: seq<Route>) {
    forall i, j, c | 0 <= i < |routes| && 0 <= j < |routes| && Holds(routes[i], c) && Holds(routes[j], c) :: i == j
  }

  predicate Answered(c: CallerId, msg: TaskResponse, issued: Issued, routes: seq<Route>) {
    && c in issued && issued[c].1 == msg.id && issued[c].0 < |routes|
    && msg in routes[issued[c].0].received
  }

  predicate CallerOk(c: CallerId, caller: Caller, issued: Issued, routes: seq<Route>) {
    && (caller.pc.Starting? || caller.pc.Sending? ==> c !in issued && caller.delivered == [])
    && (caller.buffer == caller.delivered || caller.buffer == [])
    && (caller.delivered == [] || (|caller.delivered| == 1 && Answered(c, caller.delivered[0], issued, routes)))
    && (caller.pc.Done? ==>
          match caller.pc.outcome
          case Reply(m) => caller.delivered == [m]
          case Synthetic(e) => e == Disconnecting || e == Timeout)
  }

  ghost predicate CallersOk(s: State) {
    && (forall c | c in s.callers :: CallerOk(c, s.callers[c], s.issued, s.routes))
    && (forall c | c in s.callers :: s.callers[c].pc.Sending? <==> c in s.life.sending)
    && s.life.sending.Keys <= s.callers.Keys
  }

  /** Ids are given once; a task goes to a session of the targeted node, as the forwarder's request. */
  predicate IssueOk(s: State, c: CallerId)
    requires c in s.issued
  {
    var (i, id) := s.issued[c];
    && c in s.callers && c.0 < |s.forwards| && i < |s.routes| && i < |s.life.lives| && s.life.lives[i].node == c.1
    && Forwarded(s.forwards[c.0].req, id) in s.routes[i].sent
  }

  ghost predicate IssuesOk(s: State) {
    forall c | c in s.issued :: IssueOk(s, c)
  }

  ghost predicate Injective(issued: Issued) {
    forall c, d | c in issued && d in issued && issued[c].1 == issued[d].1 :: c == d
  }

  predicate TargetOk(k: nat, f: Forward, node: string, callers: Callers)
    requires node in f.targets
  {
    if f.targets[node] then
      && (k, node) in callers && (node in f.results <==> callers[(k, node)].pc.Done?)
      && (node in f.results ==> f.results[node] == callers[(k, node)].pc.outcome)
    else node in f.results && f.results[node] == Synthetic(Disconnected)
  }

  ghost predicate ForwardOk(k: nat, f: Forward, callers: Callers) {
    && f.results.Keys <= f.targets.Keys
    && forall node | node in f.targets :: TargetOk(k, f, node, callers)
  }

  ghost predicate ForwardsOk(forwards: seq<Forward>, callers: Callers) {
    && (forall k | 0 <= k < |forwards| :: ForwardOk(k, forwards[k], callers))
    && forall c | c in callers ::
         c.0 < |forwards| && c.1 in forwards[c.0].targets && forwards[c.0].targets[c.1]
  }

  predicate SentOk(routes: seq<Route>, issued: Issued, i: nat, k: nat)
    requires i < |routes| && k < |routes[i].sent|
  {
    Used(issued, routes[i].sent[k].id)
  }

  ghost predicate SentOnce(routes: seq<Route>, issued: Issued) {
    && (forall i, k | 0 <= i < |routes| && 0 <= k < |routes[i].sent| :: SentOk(routes, issued, i, k))
    && forall i, k, j, l | 0 <= i < |routes| && 0 <= k < |routes[i].sent|
                           && 0 <= j < |routes| && 0 <= l < |routes[j].sent| ::
         routes[i].sent[k].id == routes[j].sent[l].id ==> i == j && k == l
  }

  ghost predicate Inv(s: State) {
    && L.Inv(s.life) && RoutesOk(s) && HeldOnce(s.routes) && CallersOk(s) && IssuesOk(s) && Injective(s.issued)
    && ForwardsOk(s.forwards, s.callers) && SentOnce(s.routes, s.issued)
  }

  // ------------------------------------------------------------ sessions' lives

  lemma LifeStepEnabled(s: State, a: Action)
    requires Enabled(s, a) && LifeStep(s, a).Some?
    ensures L.Enabled(s.life, LifeStep(s, a).value)
  {}

  lemma LifeKept(s: State, a: Action)
    requires L.Inv(s.life) && Enabled(s, a)
    ensures L.Inv(NextLife(s, a))
  {
    if LifeStep(s, a).Some? {
      LifeStepEnabled(s, a);
      LP.StepKeepsInv(s.life, LifeStep(s, a).value);
    }
  }

  lemma LivesKept(s: L.State, a: L.Action)
    requires L.Enabled(s, a)
    ensures |L.Next(s, a).lives| == |s.lives| + if a.OpenStream? then 1 else 0
    ensures forall i | 0 <= i < |s.lives| :: L.Next(s, a).lives[i].node == s.lives[i].node
  {}

  lemma SendingAfter(s: L.State, a: L.Action)
    requires L.Enabled(s, a)
    ensures L.Next(s, a).sending ==
      if a.BeginSend? then s.sending[a.c := D.StartSend(s.table, a.c.1).gen]
      else if a.EndSend? then s.sending - {a.c} else s.sending
  {}

  lemma NodesKept(s: State, a: Action)
    requires RoutesOk(s) && Enabled(s, a)
    ensures |NextLife(s, a).lives| == |NextRoutes(s, a)| >= |s.routes|
    ensures forall i | 0 <= i < |s.routes| :: NextLife(s, a).lives[i].node == s.life.lives[i].node
  {
    if LifeStep(s, a).Some? {
      LivesKept(s.life, LifeStep(s, a).value);
    }
  }

  /** Everything a session's life can do here, it does as described by `Lifecycle`. */
  lemma {:induction false} RunIsALife(s: State, actions: seq<Action>) returns (steps: seq<L.Action>)
    requires CanRun(s, actions)
    ensures L.CanRun(s.life, steps) && L.Run(s.life, steps) == Run(s, actions).life
    decreases |actions|
  {
    if actions == [] {
      steps := [];
    } else {
      var rest := RunIsALife(Next(s, actions[0]), actions[1..]);
      match LifeStep(s, actions[0])
      case None => steps := rest;
      case Some(step) =>
        LifeStepEnabled(s, actions[0]);
        LP.RunCons(s.life, step, rest);
        steps := [step] + rest;
    }
  }

  /** So whatever holds of every reachable state of the sessions holds in every reachable state here. */
  lemma SessionsBehaveAsLives(s: State)
    requires Reachable(s)
    ensures L.Reachable(s.life)
  {
    var actions :| IsRun(actions, s);
    var steps := RunIsALife(INIT, actions);
    assert L.IsRun(steps, s.life);
  }

  // -------------------------------------------------------------------- routes

  lemma EachUnservedKept(s: State, a: Action)
    requires Enabled(s, a) && CallersOk(s) && ForwardsOk(s.forwards, s.callers)
    ensures forall c | Unserved(s.callers, c) && (a.Deliver? ==> c != s.routes[a.i].inbox.c) ::
      Unserved(NextCallers(s, a), c)
  {
    forall c | Unserved(s.callers, c) && (a.Deliver? ==> c != s.routes[a.i].inbox.c)
      ensures Unserved(NextCallers(s, a), c)
    {
      UnservedKept(s, a, c);
    }
  }

  lemma UnservedKept(s: State, a: Action, c: CallerId)
    requires Enabled(s, a) && Unserved(s.callers, c) && CallerOk(c, s.callers[c], s.issued, s.routes)
    requires a.Deliver? ==> c != s.routes[a.i].inbox.c
    requires a.NewForward? ==> c.0 < |s.forwards|
    ensures Unserved(NextCallers(s, a), c)
  {
    if a.NewForward? { assert NextCallers(s, a)[c] == s.callers[c]; }
  }

  /** A session hears from its own node's callers only. */
  lemma TakesOwnNode(s: State, i: nat, c: CallerId)
    requires Inv(s) && Enabled(s, TakeTask(i, c))
    ensures c.1 == s.life.lives[i].node
  {
    var t := s.life;
    assert L.LifeOk(t.table, t.made, t.closed, t.lives[i]);
    assert D.StartSend(t.table, c.1) == D.SendTo(t.sending[c]);
    assert L.Owned(t.lives, c.1);
    var k: nat :| L.OwnedBy(t.lives, c.1, k);
    assert L.LifeOk(t.table, t.made, t.closed, t.lives[k]);
    if k != i { LP.Distinct(t.lives, i, k); }
  }

  /** The route whose session takes the step. */
  predicate ActsOn(a: Action, i: nat) {
    match a
    case TakeTask(j, _) => i == j
    case SendToNode(j, _) => i == j
    case FailToSend(j) => i == j
    case RecordReply(j) => i == j
    case CleanUp(j, _) => i == j
    case Receive(j, _) => i == j
    case LookUp(j) => i == j
    case Deliver(j) => i == j
    case GiveUpDelivery(j) => i == j
    case DeleteEntry(j) => i == j
    case _ => false
  }

  /** A route stays good when no caller it may mention is served elsewhere or issued an id elsewhere. */
  lemma RouteFrame(i: nat, r: Route, node: string, callers: Callers, issued: Issued, callers': Callers, issued': Issued)
    requires RouteOk(i, r, node, callers, issued)
    requires forall c | Unserved(callers, c) && (c in issued ==> issued[c].0 == i) :: Unserved(callers', c)
    requires forall c | c in issued :: c in issued' && issued'[c] == issued[c]
    requires r.sender.Holding? ==> r.sender.c !in issued'
    ensures RouteOk(i, r, node, callers', issued')
  {
    forall id | id in r.replies
      ensures EntryOk(i, r, id, callers', issued')
    {
      assert EntryOk(i, r, id, callers, issued);
    }
  }

  /** What a step that involves route j does to callers and ids of other routes. */
  lemma Elsewhere(s: State, a: Action, i: nat)
    requires Inv(s) && Enabled(s, a) && i < |s.routes| && !ActsOn(a, i)
    ensures forall c | Unserved(s.callers, c) && (c in s.issued ==> s.issued[c].0 == i) ::
      Unserved(NextCallers(s, a), c)
    ensures forall c | c in s.issued :: c in NextIssued(s, a) && NextIssued(s, a)[c] == s.issued[c]
    ensures s.routes[i].sender.Holding? ==> s.routes[i].sender.c !in NextIssued(s, a)
  {
    EachUnservedKept(s, a);
    IssuedGrows(s, a);
    NotIssuedElsewhere(s, a, i);
    if a.Deliver? { DeliversOwn(s, a.i); }
  }

  lemma DeliversOwn(s: State, i: nat)
    requires RoutesOk(s) && Enabled(s, Deliver(i))
    ensures var c, msg := s.routes[i].inbox.c, s.routes[i].inbox.msg;
      Unserved(s.callers, c) && SentAs(s.issued, c, i, msg.id) && msg in s.routes[i].received
  {
    assert RouteOk(i, s.routes[i], s.life.lives[i].node, s.callers, s.issued);
  }

  lemma NotIssuedElsewhere(s: State, a: Action, i: nat)
    requires RoutesOk(s) && HeldOnce(s.routes) && Enabled(s, a) && i < |s.routes| && !ActsOn(a, i)
    ensures s.routes[i].sender.Holding? ==> s.routes[i].sender.c !in NextIssued(s, a)
  {
    assert RouteOk(i, s.routes[i], s.life.lives[i].node, s.callers, s.issued);
    if a.SendToNode? {
      assert Holds(s.routes[a.i], s.routes[a.i].sender.c);
      assert !Holds(s.routes[i], s.routes[a.i].sender.c);
    }
  }

  lemma OtherRoute(s: State, a: Action, i: nat)
    requires Inv(s) && Enabled(s, a) && i < |s.routes| && !ActsOn(a, i)
    ensures i < |NextRoutes(s, a)| && NextRoutes(s, a)[i] == s.routes[i]
    ensures RouteOk(i, s.routes[i], s.life.lives[i].node, NextCallers(s, a), NextIssued(s, a))
  {
    Elsewhere(s, a, i);
    RouteFrame(i, s.routes[i], s.life.lives[i].node, s.callers, s.issued, NextCallers(s, a), NextIssued(s, a));
  }

  lemma TakeStep(s: State, i: nat, c: CallerId)
    requires Inv(s) && Enabled(s, TakeTask(i, c))
    ensures RouteOk(i, NextRoutes(s, TakeTask(i, c))[i], s.life.lives[i].node, NextCallers(s, TakeTask(i, c)), s.issued)
  {
    var a := TakeTask(i, c);
    TakesOwnNode(s, i, c);
    assert RouteOk(i, s.routes[i], s.life.lives[i].node, s.callers, s.issued);
    assert CallerOk(c, s.callers[c], s.issued, s.routes);
    EachUnservedKept(s, a);
    RouteFrame(i, s.routes[i], s.life.lives[i].node, s.callers, s.issued, NextCallers(s, a), s.issued);
    forall id | id in s.routes[i].replies
      ensures EntryOk(i, NextRoutes(s, a)[i], id, NextCallers(s, a), s.issued)
    {
      assert EntryOk(i, s.routes[i], id, NextCallers(s, a), s.issued);
    }
  }

  lemma RepliesAreUsed(i: nat, r: Route, node: string, callers: Callers, issued: Issued)
    requires RouteOk(i, r, node, callers, issued)
    ensures forall id | id in r.replies :: Used(issued, id)
  {
    forall id | id in r.replies
      ensures Used(issued, id)
    {
      assert EntryOk(i, r, id, callers, issued);
    }
  }

  /** A route that has sent its held task under a fresh id. */
  lemma SentRoute(i: nat, r: Route, r': Route, node: string, callers: Callers, issued: Issued, id: int)
    requires RouteOk(i, r, node, callers, issued) && r.sender.Holding? && !Used(issued, id)
    requires r' == r.(sender := Recording(id, r.sender.c), sent := r'.sent)
    ensures RouteOk(i, r', node, callers, issued[r.sender.c := (i, id)])
  {
    var issued' := issued[r.sender.c := (i, id)];
    RepliesAreUsed(i, r, node, callers, issued);
    forall k | k in r'.replies
      ensures EntryOk(i, r', k, callers, issued')
    {
      assert EntryOk(i, r, k, callers, issued);
    }
  }

  lemma SendStep(s: State, i: nat, id: int)
    requires RoutesOk(s) && Enabled(s, SendToNode(i, id))
    ensures var a := SendToNode(i, id);
      RouteOk(i, NextRoutes(s, a)[i], s.life.lives[i].node, s.callers, NextIssued(s, a))
  {
    SentRoute(i, s.routes[i], NextRoutes(s, SendToNode(i, id))[i], s.life.lives[i].node, s.callers, s.issued, id);
  }

  lemma TableStep(s: State, a: Action)
    requires RoutesOk(s) && Enabled(s, a) && (a.FailToSend? || a.RecordReply? || a.CleanUp?)
    ensures RouteOk(a.i, NextRoutes(s, a)[a.i], s.life.lives[a.i].node, s.callers, s.issued)
  {
    var r := s.routes[a.i];
    var r' := NextRoutes(s, a)[a.i];
    assert RouteOk(a.i, r, s.life.lives[a.i].node, s.callers, s.issued);
    forall id | id in r'.replies
      ensures EntryOk(a.i, r', id, s.callers, s.issued)
    {
      if id in r.replies {
        assert EntryOk(a.i, r, id, s.callers, s.issued);
      }
    }
  }

  /** A route keeps its callers when it takes in, gives up or looks up a message. */
  lemma InboxRoute(i: nat, r: Route, r': Route, node: string, callers: Callers, issued: Issued)
    requires RouteOk(i, r, node, callers, issued)
    requires r' == r.(inbox := r'.inbox, replies := r'.replies, removed := r'.removed, received := r'.received)
    requires forall id | id in r'.replies :: id in r.replies && r'.replies[id] == r.replies[id]
    requires r.inbox.Deleting? ==> r.inbox.id !in r'.replies
    requires InboxOk(i, r', callers, issued)
    requires r.sender.Recording? && r'.inbox.Delivering? ==> r'.inbox.c != r.sender.c
    ensures RouteOk(i, r', node, callers, issued)
  {
    forall id | id in r'.replies
      ensures EntryOk(i, r', id, callers, issued)
    {
      assert EntryOk(i, r, id, callers, issued);
    }
  }

  lemma LookedUp(i: nat, r: Route, node: string, callers: Callers, issued: Issued)
    requires RouteOk(i, r, node, callers, issued) && r.inbox.Got? && r.inbox.msg.id in r.replies
    ensures var c := r.replies[r.inbox.msg.id];
      && SentAs(issued, c, i, r.inbox.msg.id) && Unserved(callers, c)
      && (r.sender.Recording? ==> c != r.sender.c)
  {
    assert EntryOk(i, r, r.inbox.msg.id, callers, issued);
  }

  lemma InboxStep(s: State, a: Action, i: nat)
    requires RoutesOk(s) && Enabled(s, a) && i < |s.routes| && ActsOn(a, i)
    requires a.Receive? || a.LookUp? || a.GiveUpDelivery? || a.DeleteEntry?
    ensures RouteOk(i, NextRoutes(s, a)[i], s.life.lives[i].node, NextCallers(s, a), NextIssued(s, a))
  {
    var r, node := s.routes[i], s.life.lives[i].node;
    assert RouteOk(i, r, node, s.callers, s.issued);
    if a.LookUp? && r.inbox.msg.id in r.replies { LookedUp(i, r, node, s.callers, s.issued); }
    InboxRoute(i, r, NextRoutes(s, a)[i], node, s.callers, s.issued);
  }

  lemma DeliverStep(s: State, i: nat)
    requires Inv(s) && Enabled(s, Deliver(i))
    ensures RouteOk(i, NextRoutes(s, Deliver(i))[i], s.life.lives[i].node, NextCallers(s, Deliver(i)), s.issued)
  {
    EachUnservedKept(s, Deliver(i));
    DeliveredRoute(s, i, NextCallers(s, Deliver(i)));
  }

  lemma DeliveredRoute(s: State, i: nat, callers': Callers)
    requires RoutesOk(s) && Enabled(s, Deliver(i))
    requires forall c | Unserved(s.callers, c) && c != s.routes[i].inbox.c :: Unserved(callers', c)
    ensures RouteOk(i, NextRoutes(s, Deliver(i))[i], s.life.lives[i].node, callers', s.issued)
  {
    var r := s.routes[i];
    var r' := NextRoutes(s, Deliver(i))[i];
    assert RouteOk(i, r, s.life.lives[i].node, s.callers, s.issued);
    forall id | id in r'.replies
      ensures EntryOk(i, r', id, callers', s.issued)
    {
      assert EntryOk(i, r, id, s.callers, s.issued);
    }
  }

  lemma RoutesKept(s: State, a: Action)
    requires Inv(s) && Enabled(s, a)
    ensures RoutesOk(Next(s, a))
  {
    NodesKept(s, a);
    var s' := Next(s, a);
    forall i | 0 <= i < |s'.routes|
      ensures RouteOk(i, s'.routes[i], s'.life.lives[i].node, s'.callers, s'.issued)
    {
      if i == |s.routes| {
        assert s'.routes[i] == FRESH_ROUTE;
      } else if !ActsOn(a, i) {
        OtherRoute(s, a, i);
      } else if a.Deliver? {
        DeliverStep(s, i);
      } else if a.Receive? || a.LookUp? || a.GiveUpDelivery? || a.DeleteEntry? {
        InboxStep(s, a, i);
      } else if a.TakeTask? {
        TakeStep(s, i, a.c);
      } else if a.SendToNode? {
        SendStep(s, i, a.id);
      } else {
        TableStep(s, a);
      }
    }
  }

  lemma StillHeld(s: State, a: Action, i: nat, c: CallerId)
    requires Enabled(s, a) && !a.TakeTask? && i < |NextRoutes(s, a)| && Holds(NextRoutes(s, a)[i], c)
    ensures i < |s.routes| && Holds(s.routes[i], c)
  {}

  lemma HeldKept(s: State, a: Action)
    requires RoutesOk(s) && HeldOnce(s.routes) && Enabled(s, a)
    ensures HeldOnce(NextRoutes(s, a))
  {
    if a.TakeTask? {
      forall k | 0 <= k < |s.routes|
        ensures !Holds(s.routes[k], a.c)
      {
        assert RouteOk(k, s.routes[k], s.life.lives[k].node, s.callers, s.issued);
      }
    } else {
      forall i, j, c | 0 <= i < |NextRoutes(s, a)| && 0 <= j < |NextRoutes(s, a)|
                       && Holds(NextRoutes(s, a)[i], c) && Holds(NextRoutes(s, a)[j], c)
        ensures i == j
      {
        StillHeld(s, a, i, c);
        StillHeld(s, a, j, c);
      }
    }
  }

  // ------------------------------------------------------------------- callers

  /** An issued id stays with its caller. */
  lemma IssuedGrows(s: State, a: Action)
    requires RoutesOk(s) && Enabled(s, a)
    ensures forall c | c in s.issued :: c in NextIssued(s, a) && NextIssued(s, a)[c] == s.issued[c]
  {
    if a.SendToNode? {
      assert RouteOk(a.i, s.routes[a.i], s.life.lives[a.i].node, s.callers, s.issued);
    }
  }

  lemma ReceivedGrows(s: State, a: Action, i: nat, msg: TaskResponse)
    requires Enabled(s, a) && i < |s.routes| && msg in s.routes[i].received
    ensures i < |NextRoutes(s, a)| && msg in NextRoutes(s, a)[i].received
  {}

  lemma AnsweredKept(s: State, a: Action, c: CallerId, msg: TaskResponse)
    requires RoutesOk(s) && Enabled(s, a) && Answered(c, msg, s.issued, s.routes)
    ensures Answered(c, msg, NextIssued(s, a), NextRoutes(s, a))
  {
    IssuedGrows(s, a);
    ReceivedGrows(s, a, s.issued[c].0, msg);
  }

  lemma SendCaller(s: State, a: Action, c: CallerId)
    requires RoutesOk(s) && CallersOk(s) && Enabled(s, a) && a.SendToNode? && c in s.callers
    requires s.callers[c].delivered != [] ==> Answered(c, s.callers[c].delivered[0], NextIssued(s, a), NextRoutes(s, a))
    ensures CallerOk(c, s.callers[c], NextIssued(s, a), NextRoutes(s, a))
  {
    assert CallerOk(c, s.callers[c], s.issued, s.routes);
    assert RouteOk(a.i, s.routes[a.i], s.life.lives[a.i].node, s.callers, s.issued);
  }

  lemma DeliverCaller(s: State, a: Action, c: CallerId)
    requires RoutesOk(s) && CallersOk(s) && Enabled(s, a) && a.Deliver? && c in s.callers
    requires s.callers[c].delivered != [] ==> Answered(c, s.callers[c].delivered[0], NextIssued(s, a), NextRoutes(s, a))
    ensures CallerOk(c, NextCallers(s, a)[c], s.issued, NextRoutes(s, a))
  {
    assert CallerOk(c, s.callers[c], s.issued, s.routes);
    DeliversOwn(s, a.i);
  }

  /** What a caller goes through by its own steps. */
  lemma OwnCaller(s: State, a: Action, c: CallerId)
    requires CallersOk(s) && Enabled(s, a) && !a.SendToNode? && !a.Deliver? && c in s.callers && c in NextCallers(s, a)
    requires a.NewForward? ==> c.0 != |s.forwards|
    requires s.callers[c].delivered != [] ==> Answered(c, s.callers[c].delivered[0], s.issued, NextRoutes(s, a))
    ensures CallerOk(c, NextCallers(s, a)[c], s.issued, NextRoutes(s, a))
  {
    var caller := s.callers[c];
    assert CallerOk(c, caller, s.issued, s.routes);
    assert CallerOk(c, caller, s.issued, NextRoutes(s, a));
    if a.StartSend? && a.c == c {
      StartCaller(s, c);
    } else if (a.TimeOutSend? || a.TakeReply? || a.TimeOutWait? || a.TakeTask?) && a.c == c {
      CallerGoesOn(s, a);
    } else {
      CallerStays(s, a, c);
    }
  }

  lemma CallerGoesOn(s: State, a: Action)
    requires Enabled(s, a) && (a.TimeOutSend? || a.TakeReply? || a.TimeOutWait? || a.TakeTask?)
    ensures NextCallers(s, a)[a.c] == match a
      case TakeTask(_, c) => s.callers[c].(pc := Awaiting)
      case TakeReply(c) => Caller(Done(Reply(s.callers[c].buffer[0])), s.callers[c].buffer[1..], s.callers[c].delivered)
      case _ => s.callers[a.c].(pc := Done(Synthetic(Timeout)))
  {}

  lemma CallerStays(s: State, a: Action, c: CallerId)
    requires Enabled(s, a) && c in s.callers && !a.Deliver?
    requires a.StartSend? || a.TimeOutSend? || a.TakeReply? || a.TimeOutWait? || a.TakeTask? ==> a.c != c
    requires a.NewForward? ==> c.0 != |s.forwards|
    ensures c in NextCallers(s, a) && NextCallers(s, a)[c] == s.callers[c]
  {}

  lemma StartCaller(s: State, c: CallerId)
    requires CallersOk(s) && Enabled(s, StartSend(c))
    ensures NextCallers(s, StartSend(c))[c] in
      {s.callers[c].(pc := Sending), s.callers[c].(pc := Done(Synthetic(Disconnecting)))}
  {
    assert CallerOk(c, s.callers[c], s.issued, s.routes);
    assert c !in s.life.sending;
  }

  lemma CallerKept(s: State, a: Action, c: CallerId)
    requires Inv(s) && Enabled(s, a) && c in s.callers && c in NextCallers(s, a)
    requires a.NewForward? ==> c.0 != |s.forwards|
    ensures CallerOk(c, NextCallers(s, a)[c], NextIssued(s, a), NextRoutes(s, a))
  {
    var caller := s.callers[c];
    assert CallerOk(c, caller, s.issued, s.routes);
    if caller.delivered != [] { AnsweredKept(s, a, c, caller.delivered[0]); }
    if a.SendToNode? {
      SendCaller(s, a, c);
    } else if a.Deliver? {
      DeliverCaller(s, a, c);
    } else {
      OwnCaller(s, a, c);
    }
  }

  /** The callers in Send after a step. */
  lemma SendingSet(s: State, a: Action)
    requires Enabled(s, a)
    ensures NextLife(s, a).sending.Keys ==
      if a.TakeTask? || a.TimeOutSend? then s.life.sending.Keys - {a.c}
      else if a.StartSend? && LifeStep(s, a).Some? then s.life.sending.Keys + {a.c}
      else s.life.sending.Keys
  {
    match LifeStep(s, a)
    case Some(step) => SendingAfter(s.life, step);
    case None =>
  }

  /** Whether a caller's counter says that it is sending, after a step. */
  predicate SaysSending(s: State, a: Action, c: CallerId)
    requires Enabled(s, a)
  {
    if (a.TakeTask? || a.TimeOutSend?) && c == a.c then false
    else if a.StartSend? && c == a.c && LifeStep(s, a).Some? then true
    else c in s.callers && s.callers[c].pc.Sending?
  }

  lemma SendingPcKnown(s: State, a: Action, c: CallerId)
    requires Enabled(s, a) && !a.NewForward? && c in s.callers
    ensures c in NextCallers(s, a) && (NextCallers(s, a)[c].pc.Sending? <==> SaysSending(s, a, c))
  {}

  lemma SendingPc(s: State, a: Action, c: CallerId)
    requires Inv(s) && Enabled(s, a)
    ensures c in s.callers ==> c in NextCallers(s, a)
    ensures c in NextCallers(s, a) ==> (NextCallers(s, a)[c].pc.Sending? <==> SaysSending(s, a, c))
  {
    if c !in s.callers {
      if c in NextCallers(s, a) { NewCaller(s, a, c); }
    } else if a.NewForward? {
      assert NextCallers(s, a)[c] == s.callers[c];
    } else {
      SendingPcKnown(s, a, c);
    }
  }

  lemma SendingStep(s: State, a: Action, c: CallerId)
    requires Inv(s) && Enabled(s, a)
    ensures c in NextLife(s, a).sending ==> c in NextCallers(s, a)
    ensures c in NextCallers(s, a) ==> (NextCallers(s, a)[c].pc.Sending? <==> c in NextLife(s, a).sending)
  {
    SendingSet(s, a);
    SendingPc(s, a, c);
    assert c in NextLife(s, a).sending <==> c in NextLife(s, a).sending.Keys;
  }

  lemma SendingKept(s: State, a: Action)
    requires Inv(s) && Enabled(s, a)
    ensures var callers', sending' := NextCallers(s, a), NextLife(s, a).sending;
      && (forall c | c in callers' :: callers'[c].pc.Sending? <==> c in sending')
      && sending'.Keys <= callers'.Keys
  {
    forall c | c in NextLife(s, a).sending
      ensures c in NextCallers(s, a)
    {
      SendingStep(s, a, c);
    }
    forall c | c in NextCallers(s, a)
      ensures NextCallers(s, a)[c].pc.Sending? <==> c in NextLife(s, a).sending
    {
      SendingStep(s, a, c);
    }
  }

  lemma NewCaller(s: State, a: Action, c: CallerId)
    requires Inv(s) && Enabled(s, a) && c in NextCallers(s, a) && c !in s.callers
    ensures NextCallers(s, a)[c] == FRESH_CALLER && a.NewForward?
  {}

  lemma CallersKept(s: State, a: Action)
    requires Inv(s) && Enabled(s, a)
    ensures CallersOk(Next(s, a))
  {
    SendingKept(s, a);
    forall c | c in NextCallers(s, a)
      ensures CallerOk(c, NextCallers(s, a)[c], NextIssued(s, a), NextRoutes(s, a))
    {
      if c in s.callers {
        CallerKept(s, a, c);
      } else {
        NewCaller(s, a, c);
        assert c in s.issued ==> IssueOk(s, c);
      }
    }
  }

  // ----------------------------------------------------------------- issued ids

  lemma RequestsKept(s: State, a: Action, k: nat)
    requires Enabled(s, a) && k < |s.forwards|
    ensures k < |NextForwards(s, a)|
    ensures NextForwards(s, a)[k].req == s.forwards[k].req && NextForwards(s, a)[k].targets == s.forwards[k].targets
  {}

  lemma SentGrows(s: State, a: Action, i: nat)
    requires Enabled(s, a) && i < |s.routes|
    ensures i < |NextRoutes(s, a)|
    ensures NextRoutes(s, a)[i].sent == s.routes[i].sent
            || (a.SendToNode? && a.i == i
                && NextRoutes(s, a)[i].sent
                     == s.routes[i].sent + [Forwarded(s.forwards[s.routes[i].sender.c.0].req, a.id)])
  {}

  lemma IssuesKept(s: State, a: Action)
    requires RoutesOk(s) && IssuesOk(s) && Enabled(s, a)
    ensures IssuesOk(Next(s, a))
  {
    NodesKept(s, a);
    var s' := Next(s, a);
    forall c | c in s'.issued
      ensures IssueOk(s', c)
    {
      if c in s.issued {
        assert IssueOk(s, c);
      }
      if a.SendToNode? && c == s.routes[a.i].sender.c {
        assert RouteOk(a.i, s.routes[a.i], s.life.lives[a.i].node, s.callers, s.issued);
      }
      RequestsKept(s, a, c.0);
      SentGrows(s, a, s'.issued[c].0);
    }
  }

  lemma InjectiveKept(s: State, a: Action)
    requires Inv(s) && Enabled(s, a)
    ensures Injective(NextIssued(s, a))
  {}

  lemma UsedKept(issued: Issued, c: CallerId, entry: (nat, int), id: int)
    requires c !in issued && (Used(issued, id) || id == entry.1)
    ensures Used(issued[c := entry], id)
  {
    var issued' := issued[c := entry];
    if Used(issued, id) {
      var d :| d in issued && issued[d].1 == id;
      assert d in issued' && issued'[d].1 == id;
    } else {
      assert c in issued' && issued'[c].1 == id;
    }
  }

  lemma SentByStep(s: State, a: Action)
    requires Inv(s) && Enabled(s, a) && a.SendToNode?
    ensures SentOnce(NextRoutes(s, a), NextIssued(s, a))
  {
    var routes', issued' := NextRoutes(s, a), NextIssued(s, a);
    assert RouteOk(a.i, s.routes[a.i], s.life.lives[a.i].node, s.callers, s.issued);
    forall i, k | 0 <= i < |s.routes| && 0 <= k < |s.routes[i].sent|
      ensures s.routes[i].sent[k].id != a.id && Used(issued', s.routes[i].sent[k].id)
    {
      assert SentOk(s.routes, s.issued, i, k);
      UsedKept(s.issued, s.routes[a.i].sender.c, (a.i, a.id), s.routes[i].sent[k].id);
    }
    UsedKept(s.issued, s.routes[a.i].sender.c, (a.i, a.id), a.id);
    SentAppended(s.routes, a.i, routes', NextRoutes(s, a)[a.i].sent[|s.routes[a.i].sent|], issued');
  }

  lemma SentAppended(routes: seq<Route>, i: nat, routes': seq<Route>, task: TaskRequest, issued: Issued)
    requires i < |routes| == |routes'| && routes'[i].sent == routes[i].sent + [task]
    requires forall j | 0 <= j < |routes| && j != i :: routes'[j] == routes[j]
    requires forall j, k | 0 <= j < |routes| && 0 <= k < |routes[j].sent| ::
      routes[j].sent[k].id != task.id && Used(issued, routes[j].sent[k].id)
    requires forall i, k, j, l | 0 <= i < |routes| && 0 <= k < |routes[i].sent|
                                 && 0 <= j < |routes| && 0 <= l < |routes[j].sent| ::
      routes[i].sent[k].id == routes[j].sent[l].id ==> i == j && k == l
    requires Used(issued, task.id)
    ensures SentOnce(routes', issued)
  {}

  lemma SentKept(s: State, a: Action)
    requires Inv(s) && Enabled(s, a)
    ensures SentOnce(NextRoutes(s, a), NextIssued(s, a))
  {
    if a.SendToNode? {
      SentByStep(s, a);
    } else {
      SentUnchanged(s, a);
      forall i, k | 0 <= i < |NextRoutes(s, a)| && 0 <= k < |NextRoutes(s, a)[i].sent|
        ensures SentOk(NextRoutes(s, a), NextIssued(s, a), i, k)
      {
        assert SentOk(s.routes, s.issued, i, k);
      }
    }
  }

  lemma SentUnchanged(s: State, a: Action)
    requires Enabled(s, a) && !a.SendToNode?
    ensures forall i | 0 <= i < |NextRoutes(s, a)| ::
      NextRoutes(s, a)[i].sent == if i < |s.routes| then s.routes[i].sent else []
  {}

  // ------------------------------------------------------------------ forwards

  lemma OldTargetKept(s: State, a: Action, k: nat, node: string)
    requires Inv(s) && Enabled(s, a) && a.NewForward? && k < |s.forwards| && node in s.forwards[k].targets
    ensures TargetOk(k, s.forwards[k], node, NextCallers(s, a))
  {
    assert ForwardOk(k, s.forwards[k], s.callers);
    assert TargetOk(k, s.forwards[k], node, s.callers);
    if (k, node) in s.callers { assert NextCallers(s, a)[(k, node)] == s.callers[(k, node)]; }
  }

  lemma NewTargetOk(s: State, a: Action, node: string)
    requires Enabled(s, a) && a.NewForward? && node in a.targets
    ensures TargetOk(|s.forwards|, FreshForward(a.req, a.targets), node, NextCallers(s, a))
  {
    if a.targets[node] {
      assert node in Connected(a.targets);
      assert NextCallers(s, a)[(|s.forwards|, node)] == FRESH_CALLER;
    }
  }

  lemma OldForwardKept(s: State, a: Action, k: nat)
    requires Inv(s) && Enabled(s, a) && a.NewForward? && k < |s.forwards|
    ensures ForwardOk(k, s.forwards[k], NextCallers(s, a))
  {
    assert ForwardOk(k, s.forwards[k], s.callers);
    forall node | node in s.forwards[k].targets
      ensures TargetOk(k, s.forwards[k], node, NextCallers(s, a))
    {
      OldTargetKept(s, a, k, node);
    }
  }

  lemma NewForwardOk(s: State, a: Action)
    requires Enabled(s, a) && a.NewForward?
    ensures ForwardOk(|s.forwards|, FreshForward(a.req, a.targets), NextCallers(s, a))
  {
    forall node | node in a.targets
      ensures TargetOk(|s.forwards|, FreshForward(a.req, a.targets), node, NextCallers(s, a))
    {
      NewTargetOk(s, a, node);
    }
  }

  lemma NewForwardKept(s: State, a: Action)
    requires Inv(s) && Enabled(s, a) && a.NewForward?
    ensures ForwardsOk(NextForwards(s, a), NextCallers(s, a))
  {
    NewForwardOk(s, a);
    forall k | 0 <= k < |s.forwards|
      ensures ForwardOk(k, s.forwards[k], NextCallers(s, a))
    {
      OldForwardKept(s, a, k);
    }
  }

  /** Only a concluding caller becomes done. */
  lemma CallerStep(s: State, a: Action, c: CallerId)
    requires Enabled(s, a) && !a.NewForward? && c in s.callers
    ensures c in NextCallers(s, a)
    ensures if Concludes(s, a).Some? && Concludes(s, a).value.0 == c then
              NextCallers(s, a)[c].pc == Done(Concludes(s, a).value.1)
            else
              NextCallers(s, a)[c].pc == s.callers[c].pc
              || (!NextCallers(s, a)[c].pc.Done? && !s.callers[c].pc.Done?)
  {
    if !a.Deliver? && !((a.StartSend? || a.TimeOutSend? || a.TakeReply? || a.TimeOutWait? || a.TakeTask?) && a.c == c) {
      CallerStays(s, a, c);
    }
  }

  lemma CallersSame(s: State, a: Action)
    requires Enabled(s, a) && !a.NewForward?
    requires a.Deliver? ==> s.routes[a.i].inbox.c in s.callers
    ensures NextCallers(s, a).Keys == s.callers.Keys
    ensures Concludes(s, a).Some? ==>
      Concludes(s, a).value.0 in s.callers && Concludes(s, a).value.0.0 < |s.forwards|
      && !s.callers[Concludes(s, a).value.0].pc.Done?
  {}

  lemma TargetKept(s: State, a: Action, k: nat, node: string)
    requires Inv(s) && Enabled(s, a) && !a.NewForward? && k < |s.forwards| && node in s.forwards[k].targets
    ensures node in NextForwards(s, a)[k].targets && TargetOk(k, NextForwards(s, a)[k], node, NextCallers(s, a))
  {
    RequestsKept(s, a, k);
    CallersSame(s, a);
    assert ForwardOk(k, s.forwards[k], s.callers);
    assert TargetOk(k, s.forwards[k], node, s.callers);
    if s.forwards[k].targets[node] {
      CallerStep(s, a, (k, node));
    }
    NoteAt(s.forwards, Concludes(s, a), k, node);
  }

  lemma NoteAt(forwards: seq<Forward>, conclusion: Option<(CallerId, Outcome)>, k: nat, node: string)
    requires k < |forwards|
    ensures |Note(forwards, conclusion)| == |forwards|
    ensures Note(forwards, conclusion)[k].targets == forwards[k].targets
    ensures var results, results' := forwards[k].results, Note(forwards, conclusion)[k].results;
      if conclusion.Some? && conclusion.value.0 == (k, node) then
        results'.Keys == results.Keys + {node} && results'[node] == conclusion.value.1
      else (node in results' <==> node in results) && (node in results ==> results'[node] == results[node])
  {}

  lemma NoteKept(s: State, a: Action)
    requires Inv(s) && Enabled(s, a) && !a.NewForward?
    ensures ForwardsOk(NextForwards(s, a), NextCallers(s, a))
  {
    var forwards', callers' := NextForwards(s, a), NextCallers(s, a);
    CallersSame(s, a);
    forall k | 0 <= k < |forwards'|
      ensures ForwardOk(k, forwards'[k], callers')
    {
      RequestsKept(s, a, k);
      assert ForwardOk(k, s.forwards[k], s.callers);
      forall node | node in forwards'[k].targets
        ensures TargetOk(k, forwards'[k], node, callers')
      {
        TargetKept(s, a, k, node);
      }
      forall node | node in forwards'[k].results
        ensures node in forwards'[k].targets
      {
        NoteAt(s.forwards, Concludes(s, a), k, node);
      }
    }
    forall c | c in callers'
      ensures c.0 < |forwards'| && c.1 in forwards'[c.0].targets && forwards'[c.0].targets[c.1]
    {
      RequestsKept(s, a, c.0);
    }
  }

  // ----------------------------------------------------------------- all steps

  lemma StepKeepsInv(s: State, a: Action)
    requires Inv(s) && Enabled(s, a)
    ensures Inv(Next(s, a))
  {
    LifeKept(s, a);
    RoutesKept(s, a);
    HeldKept(s, a);
    CallersKept(s, a);
    IssuesKept(s, a);
    InjectiveKept(s, a);
    SentKept(s, a);
    if a.NewForward? { NewForwardKept(s, a); } else { NoteKept(s, a); }
  }

  lemma {:induction false} RunKeepsInv(s: State, actions: seq<Action>)
    requires Inv(s) && CanRun(s, actions)
    ensures Inv(Run(s, actions))
    decreases |actions|
  {
    if actions != [] {
      StepKeepsInv(s, actions[0]);
      RunKeepsInv(Next(s, actions[0]), actions[1..]);
    }
  }

  lemma ReachableInv(s: State)
    requires Reachable(s)
    ensures Inv(s)
  {
    var actions :| IsRun(actions, s);
    RunKeepsInv(INIT, actions);
  }
}
