/**
 * From the CLI's request to the stored result: what holds of the store in every state the whole system can
 * reach, whatever the nodes' timeouts, losses on the streams and failed transactions.
 */
module SystemProofs {
  import opened Common
  import opened Proto
  import opened System
  import R = Routing
  import RP = RoutingProofs
  import RR = RoutingResults
  import N = Scheduler
  import NR = SchedulerReplies
  import Store
  import opened Decimal

  // ---------------------------------------------------------------- invariant

  /** The node works on what it was sent, in order. */
  ghost predicate SessionOk(sent: seq<TaskRequest>, node: N.State, read: nat) {
    && NR.Inv(node) && read <= |node.outbox| && |node.jobs| <= |sent|
    && forall j | 0 <= j < |node.jobs| :: node.jobs[j].req == sent[j]
  }

  ghost predicate SessionsOk(s: State) {
    && |s.nodes| == |s.read| == |s.manager.routes| == |s.manager.life.lives|
    && forall i | 0 <= i < |s.nodes| :: SessionOk(s.manager.routes[i].sent, s.nodes[i], s.read[i])
  }

  /** The session has read the p-th message of its node's outbox. */
  predicate Read(node: N.State, read: nat, p: nat, msg: TaskResponse) {
    p < read <= |node.outbox| && node.outbox[p].resp == msg
  }

  /** And it is a final reply. */
  predicate Heard(node: N.State, read: nat, p: nat, msg: TaskResponse) {
    Read(node, read, p, msg) && !msg.internalError.StartedTimeout?
  }

  /** The caller whose request a stored result answers, and the session it came from. */
  predicate Origin(m: R.State, w: Store.Write, i: nat, c: R.CallerId) {
    && w.Result? && i < |m.life.lives| && m.life.lives[i].node == w.node
    && c in m.issued && m.issued[c] == (i, w.msg.id) && c.1 == w.node
    && c.0 < |m.forwards| && w.msg.groupID == m.forwards[c.0].req.groupID
  }

  predicate ResultOk(s: State, w: Store.Write, i: nat, p: nat, c: R.CallerId) {
    && Origin(s.manager, w, i, c)
    && i < |s.nodes| && i < |s.read| && Heard(s.nodes[i], s.read[i], p, w.msg)
  }

  ghost predicate WriteOk(s: State, w: Store.Write) {
    w.Result? ==> exists i, p, c :: ResultOk(s, w, i, p, c)
  }

  /** Each request is stored under the group it was given. */
  predicate RequestOk(m: R.State, w: Store.Write) {
    w.Request? ==> w.req.groupID.Some? && IsGroup(m.forwards, w.req.groupID.value)
  }

  ghost predicate RequestsOk(m: R.State, writes: seq<Store.Write>) {
    && (forall k | 0 <= k < |writes| :: RequestOk(m, writes[k]))
    && forall k, l | 0 <= k < l < |writes| :: writes[k].Request? && writes[l].Request? ==>
         writes[k].req.groupID != writes[l].req.groupID
  }

  predicate Requests(w: Store.Write, req: TaskRequest) {
    w.Request? && w.req == req
  }

  ghost predicate Recorded(writes: seq<Store.Write>, req: TaskRequest) {
    exists l | 0 <= l < |writes| :: Requests(writes[l], req)
  }

  /** Every request with a group was given to the store. */
  ghost predicate ForwardsRecorded(m: R.State, writes: seq<Store.Write>) {
    forall k | 0 <= k < |m.forwards| && m.forwards[k].req.groupID.Some? :: Recorded(writes, m.forwards[k].req)
  }

  /** Before every grouped result, the request of its group. */
  ghost predicate RequestedBefore(writes: seq<Store.Write>, k: nat)
    requires k < |writes| && writes[k].Result?
  {
    exists l | 0 <= l < k :: writes[l].Request? && writes[l].req.groupID == writes[k].msg.groupID
  }

  ghost predicate RequestsComeFirst(writes: seq<Store.Write>) {
    forall k | 0 <= k < |writes| && writes[k].Result? && writes[k].msg.groupID.Some? :: RequestedBefore(writes, k)
  }

  /** What a session has received, its node has sent. */
  ghost predicate ReadFrom(node: N.State, read: nat, msg: TaskResponse) {
    exists p :: Read(node, read, p, msg)
  }

  ghost predicate ReceivedOk(s: State) {
    && |s.nodes| == |s.read| == |s.manager.routes|
    && forall i, msg | 0 <= i < |s.nodes| && msg in s.manager.routes[i].received :: ReadFrom(s.nodes[i], s.read[i], msg)
  }

  ghost predicate WritesOk(s: State) {
    forall k | 0 <= k < |s.writes| :: WriteOk(s, s.writes[k])
  }

  ghost predicate WrittenOnce(writes: seq<Store.Write>) {
    forall k, l | 0 <= k < l < |writes| :: writes[k].Result? && writes[l].Result? ==>
      writes[k].msg.id != writes[l].msg.id
  }

  /** Every request has either its own group, which is no task's id, or none. */
  ghost predicate GroupsOk(m: R.State) {
    && (forall k | 0 <= k < |m.forwards| && m.forwards[k].req.groupID.Some? ::
          0 < m.forwards[k].req.groupID.value <= MAX_INT64 && !R.Used(m.issued, m.forwards[k].req.groupID.value))
    && (forall k, l | 0 <= k < l < |m.forwards| && m.forwards[k].req.groupID.Some? ::
          m.forwards[k].req.groupID != m.forwards[l].req.groupID)
    && forall c | c in m.issued :: 0 < m.issued[c].1 <= MAX_INT64
  }

  ghost predicate Inv(s: State) {
    && RP.Inv(s.manager) && SessionsOk(s) && WritesOk(s) && WrittenOnce(s.writes) && GroupsOk(s.manager)
    && RequestsOk(s.manager, s.writes) && ForwardsRecorded(s.manager, s.writes) && RequestsComeFirst(s.writes)
    && ReceivedOk(s)
  }

  // --------------------------------------------------------- what only grows

  /** Everything a stored result refers to stays as it is. */
  ghost predicate ManagerGrows(m: R.State, m': R.State) {
    && |m.life.lives| <= |m'.life.lives| && |m.forwards| <= |m'.forwards| && |m.routes| <= |m'.routes|
    && (forall i | 0 <= i < |m.life.lives| :: m'.life.lives[i].node == m.life.lives[i].node)
    && (forall k | 0 <= k < |m.forwards| :: m'.forwards[k].req == m.forwards[k].req)
    && (forall c | c in m.issued :: c in m'.issued && m'.issued[c] == m.issued[c])
    && (forall i | 0 <= i < |m.routes| :: m.routes[i].sent <= m'.routes[i].sent)
  }

  ghost predicate NodeGrows(n: N.State, n': N.State) {
    && |n.jobs| <= |n'.jobs| && n.outbox <= n'.outbox
    && forall j | 0 <= j < |n.jobs| :: n'.jobs[j].req == n.jobs[j].req
  }

  lemma ManagerStepGrows(m: R.State, step: R.Action)
    requires RP.Inv(m) && R.Enabled(m, step)
    ensures ManagerGrows(m, R.Next(m, step))
  {
    RP.NodesKept(m, step);
    forall k | 0 <= k < |m.forwards|
      ensures k < |R.NextForwards(m, step)| && R.NextForwards(m, step)[k].req == m.forwards[k].req
    {
      RP.RequestsKept(m, step, k);
    }
    ForwardsGrow(m, step);
    forall i | 0 <= i < |m.routes|
      ensures m.routes[i].sent <= R.NextRoutes(m, step)[i].sent
    {
      RP.SentGrows(m, step, i);
    }
    RP.IssuedGrows(m, step);
  }

  lemma ForwardsGrow(m: R.State, step: R.Action)
    requires R.Enabled(m, step)
    ensures R.NextForwards(m, step) == if step.NewForward? then m.forwards + [R.FreshForward(step.req, step.targets)]
                                      else R.Note(m.forwards, R.Concludes(m, step))
    ensures |R.NextForwards(m, step)| == |m.forwards| + if step.NewForward? then 1 else 0
  {}

  lemma NodeStepGrows(n: N.State, step: N.Action)
    requires N.Enabled(n, step)
    ensures NodeGrows(n, N.Next(n, step))
    ensures |N.Next(n, step).jobs| == |n.jobs| + if step.Receive? then 1 else 0
    ensures step.Receive? ==> N.Next(n, step).jobs[|n.jobs|].req == step.req
  {}

  lemma {:induction false} RepliesGrow(outbox: seq<N.Sent>, few: nat, many: nat, j: nat)
    requires few <= many <= |outbox|
    ensures NR.Replies(outbox[..few], j, false) <= NR.Replies(outbox[..many], j, false)
    decreases many
  {
    if few < many {
      RepliesGrow(outbox, few, many - 1, j);
      assert outbox[..many][..many - 1] == outbox[..many - 1];
    }
  }

  // ------------------------------------------------------------------ sessions

  lemma SessionKept(s: State, a: Action, i: nat)
    requires SessionsOk(s) && Enabled(s, a) && i < |s.nodes|
    requires ManagerGrows(s.manager, NextManager(s, a))
    ensures SessionOk(NextManager(s, a).routes[i].sent, NextNodes(s, a)[i], NextRead(s, a)[i])
    ensures NodeGrows(s.nodes[i], NextNodes(s, a)[i]) && s.read[i] <= NextRead(s, a)[i]
  {
    assert SessionOk(s.manager.routes[i].sent, s.nodes[i], s.read[i]);
    if a.Node? && a.i == i {
      NR.StepKeepsInv(s.nodes[i], a.move);
      NodeStepGrows(s.nodes[i], a.move);
    }
  }

  lemma ManagerKept(s: State, a: Action)
    requires RP.Inv(s.manager) && SessionsOk(s) && Enabled(s, a)
    ensures RP.Inv(NextManager(s, a)) && ManagerGrows(s.manager, NextManager(s, a))
    ensures |NextManager(s, a).routes| == |NextManager(s, a).life.lives| == |s.nodes| + if a.Connect? then 1 else 0
  {
    if ManagerStep(s, a).Some? {
      OnlyFreshReadings(s, a);
      var step := ManagerStep(s, a).value;
      RP.StepKeepsInv(s.manager, step);
      ManagerStepGrows(s.manager, step);
      RP.NodesKept(s.manager, step);
      RoutesCount(s.manager, step);
    }
  }

  lemma RoutesCount(m: R.State, step: R.Action)
    requires R.Enabled(m, step)
    ensures |R.NextRoutes(m, step)| == |m.routes| + if step.Session? && step.step.OpenStream? then 1 else 0
  {}

  lemma SessionsKept(s: State, a: Action)
    requires Inv(s) && Enabled(s, a)
    ensures SessionsOk(Next(s, a))
  {
    ManagerKept(s, a);
    var s' := Next(s, a);
    forall i | 0 <= i < |s'.nodes|
      ensures SessionOk(s'.manager.routes[i].sent, s'.nodes[i], s'.read[i])
    {
      if i < |s.nodes| { SessionKept(s, a, i); }
    }
  }

  // -------------------------------------------------------------------- writes

  lemma HeardKept(n: N.State, n': N.State, read: nat, read': nat, p: nat, msg: TaskResponse)
    requires NodeGrows(n, n') && read <= read' <= |n'.outbox| && Heard(n, read, p, msg)
    ensures Heard(n', read', p, msg)
  {}

  lemma OriginKept(m: R.State, m': R.State, w: Store.Write, i: nat, c: R.CallerId)
    requires ManagerGrows(m, m') && Origin(m, w, i, c)
    ensures Origin(m', w, i, c)
  {}

  lemma ResultGrows(s: State, s': State, w: Store.Write, i: nat, p: nat, c: R.CallerId)
    requires ResultOk(s, w, i, p, c)
    requires ManagerGrows(s.manager, s'.manager) && i < |s'.nodes| && i < |s'.read|
    requires NodeGrows(s.nodes[i], s'.nodes[i]) && s.read[i] <= s'.read[i] <= |s'.nodes[i].outbox|
    ensures ResultOk(s', w, i, p, c)
  {
    OriginKept(s.manager, s'.manager, w, i, c);
    HeardKept(s.nodes[i], s'.nodes[i], s.read[i], s'.read[i], p, w.msg);
  }

  lemma ResultKept(s: State, a: Action, w: Store.Write, i: nat, p: nat, c: R.CallerId)
    requires Inv(s) && Enabled(s, a) && ResultOk(s, w, i, p, c)
    ensures ResultOk(Next(s, a), w, i, p, c)
  {
    ManagerKept(s, a);
    SessionKept(s, a, i);
    ResultGrows(s, Next(s, a), w, i, p, c);
  }

  lemma WriteKept(s: State, a: Action, w: Store.Write)
    requires Inv(s) && Enabled(s, a) && WriteOk(s, w)
    ensures WriteOk(Next(s, a), w)
  {
    if w.Result? {
      var i, p, c :| ResultOk(s, w, i, p, c);
      ResultKept(s, a, w, i, p, c);
    }
  }

  /** The message being heard answers the request it echoes. */
  lemma HeardEchoes(s: State, i: nat, p: nat)
    requires SessionsOk(s) && i < |s.nodes| && p < |s.nodes[i].outbox|
    ensures var sent := s.nodes[i].outbox[p];
      && sent.job < |s.nodes[i].jobs| && sent.job < |s.manager.routes[i].sent|
      && s.nodes[i].jobs[sent.job].req == s.manager.routes[i].sent[sent.job]
      && NR.Echoes(s.manager.routes[i].sent[sent.job], sent.resp)
  {
    assert SessionOk(s.manager.routes[i].sent, s.nodes[i], s.read[i]);
  }

  lemma OneMoreReply(outbox: seq<N.Sent>, p: nat)
    requires p < |outbox|
    ensures NR.Replies(outbox[..p + 1], outbox[p].job, false)
      == NR.Replies(outbox[..p], outbox[p].job, false) + Bit(!outbox[p].resp.internalError.StartedTimeout?)
  {
    assert outbox[..p + 1][..p] == outbox[..p];
  }

  lemma HearsResult(s: State, a: Action)
    requires Enabled(s, a) && a.Hear?
    ensures var msg := s.nodes[a.i].outbox[a.p].resp;
      NextWrites(s, a) ==
        if msg.internalError.StartedTimeout? then s.writes
        else s.writes + [Store.Result(s.manager.life.lives[a.i].node, msg, a.committed)]
    ensures NextNodes(s, a) == s.nodes && NextRead(s, a) == s.read[a.i := a.p + 1]
  {}

  lemma NewOrigin(s: State, i: nat, p: nat, committed: bool) returns (c: R.CallerId)
    requires RP.Inv(s.manager) && SessionsOk(s) && i < |s.nodes| && p < |s.nodes[i].outbox|
    ensures Origin(s.manager, Store.Result(s.manager.life.lives[i].node, s.nodes[i].outbox[p].resp, committed), i, c)
  {
    HeardEchoes(s, i, p);
    c := RR.SentHasCaller(s.manager, i, s.nodes[i].outbox[p].job);
  }

  lemma NewResultOk(s: State, a: Action) returns (c: R.CallerId)
    requires Inv(s) && Enabled(s, a) && a.Hear? && |NextWrites(s, a)| > |s.writes|
    ensures ResultOk(Next(s, a), NextWrites(s, a)[|s.writes|], a.i, a.p, c)
  {
    HearsResult(s, a);
    c := NewOrigin(s, a.i, a.p, a.committed);
    ManagerKept(s, a);
    OriginKept(s.manager, NextManager(s, a), NextWrites(s, a)[|s.writes|], a.i, c);
  }

  lemma WritesKept(s: State, a: Action)
    requires Inv(s) && Enabled(s, a)
    ensures WritesOk(Next(s, a))
  {
    var s' := Next(s, a);
    forall k | 0 <= k < |s'.writes|
      ensures WriteOk(s', s'.writes[k])
    {
      if k < |s.writes| {
        assert WriteOk(s, s.writes[k]);
        WriteKept(s, a, s.writes[k]);
      } else if a.Hear? {
        var c := NewResultOk(s, a);
      }
    }
  }

  lemma FinalRepliesDiffer(s: State, i: nat, p: nat, k: nat, q: nat)
    requires RP.SentOnce(s.manager.routes, s.manager.issued) && SessionsOk(s)
    requires i < |s.nodes| && p < |s.nodes[i].outbox| && !s.nodes[i].outbox[p].resp.internalError.StartedTimeout?
    requires k < |s.nodes| && q < |s.nodes[k].outbox| && !s.nodes[k].outbox[q].resp.internalError.StartedTimeout?
    requires s.nodes[i].outbox[p].resp.id == s.nodes[k].outbox[q].resp.id
    ensures i == k && p == q
  {
    HeardEchoes(s, i, p);
    HeardEchoes(s, k, q);
    SameSent(s, i, s.nodes[i].outbox[p].job, k, s.nodes[k].outbox[q].job);
    FinalOnce(s, i, s.nodes[i].outbox[p].job);
    if p < q { TwoReplies(s.nodes[i].outbox, p, q); }
    if q < p { TwoReplies(s.nodes[i].outbox, q, p); }
  }

  /** A session that has heard a final reply to a request does not hear another one. */
  lemma NothingHeardTwice(s: State, i: nat, p: nat, w: Store.Write)
    requires RP.SentOnce(s.manager.routes, s.manager.issued) && SessionsOk(s)
    requires i < |s.nodes| && s.read[i] <= p < |s.nodes[i].outbox|
    requires !s.nodes[i].outbox[p].resp.internalError.StartedTimeout?
    requires w.Result? && WriteOk(s, w)
    ensures w.msg.id != s.nodes[i].outbox[p].resp.id
  {
    var k, q, c :| ResultOk(s, w, k, q, c);
    if w.msg.id == s.nodes[i].outbox[p].resp.id {
      FinalRepliesDiffer(s, i, p, k, q);
    }
  }

  lemma TwoReplies(outbox: seq<N.Sent>, p: nat, q: nat)
    requires p < q < |outbox| && outbox[p].job == outbox[q].job
    requires !outbox[p].resp.internalError.StartedTimeout? && !outbox[q].resp.internalError.StartedTimeout?
    ensures NR.Replies(outbox, outbox[p].job, false) >= 2
  {
    var j := outbox[p].job;
    OneMoreReply(outbox, p);
    RepliesGrow(outbox, p + 1, q, j);
    OneMoreReply(outbox, q);
    RepliesGrow(outbox, q + 1, |outbox|, j);
    assert outbox[..|outbox|] == outbox;
  }

  lemma SameSent(s: State, i: nat, j: nat, i0: nat, j0: nat)
    requires RP.SentOnce(s.manager.routes, s.manager.issued) && SessionsOk(s)
    requires i < |s.nodes| && j < |s.nodes[i].jobs| && i0 < |s.nodes| && j0 < |s.nodes[i0].jobs|
    requires s.nodes[i].jobs[j].req.id == s.nodes[i0].jobs[j0].req.id
    ensures i == i0 && j == j0
  {
    assert SessionOk(s.manager.routes[i].sent, s.nodes[i], s.read[i]);
    assert SessionOk(s.manager.routes[i0].sent, s.nodes[i0], s.read[i0]);
    assert s.manager.routes[i].sent[j].id == s.manager.routes[i0].sent[j0].id;
  }

  lemma FinalOnce(s: State, i: nat, j: nat)
    requires SessionsOk(s) && i < |s.nodes| && j < |s.nodes[i].jobs|
    ensures NR.Replies(s.nodes[i].outbox, j, false) <= 1
  {
    assert SessionOk(s.manager.routes[i].sent, s.nodes[i], s.read[i]);
    assert NR.Counted(s.nodes[i].outbox, j, s.nodes[i].jobs[j]);
  }

  lemma OneMoreWrite(writes: seq<Store.Write>, w: Store.Write)
    requires WrittenOnce(writes)
    requires w.Result? ==> forall k | 0 <= k < |writes| && writes[k].Result? :: writes[k].msg.id != w.msg.id
    ensures WrittenOnce(writes + [w])
  {}

  lemma WrittenOnceKept(s: State, a: Action)
    requires Inv(s) && Enabled(s, a)
    ensures WrittenOnce(NextWrites(s, a))
  {
    if a.Hear? {
      HearsResult(s, a);
      var msg := s.nodes[a.i].outbox[a.p].resp;
      if !msg.internalError.StartedTimeout? {
        forall k | 0 <= k < |s.writes| && s.writes[k].Result?
          ensures s.writes[k].msg.id != msg.id
        {
          assert WriteOk(s, s.writes[k]);
          NothingHeardTwice(s, a.i, a.p, s.writes[k]);
        }
        OneMoreWrite(s.writes, Store.Result(s.manager.life.lives[a.i].node, msg, a.committed));
      }
    } else if a.Forward? {
      OneMoreWrite(s.writes, Store.Request(a.req, a.data, a.committed));
    }
  }

  // -------------------------------------------------------------------- groups

  lemma IssuedStep(m: R.State, step: R.Action)
    requires R.Enabled(m, step)
    ensures step.SendToNode? ==>
      forall id :: R.Used(R.NextIssued(m, step), id) ==> R.Used(m.issued, id) || id == step.id
    ensures step.SendToNode? ==> forall c | c in R.NextIssued(m, step) ::
      R.NextIssued(m, step)[c].1 == step.id || (c in m.issued && R.NextIssued(m, step)[c] == m.issued[c])
    ensures !step.SendToNode? ==> R.NextIssued(m, step) == m.issued
  {
    forall id | step.SendToNode? && R.Used(R.NextIssued(m, step), id)
      ensures R.Used(m.issued, id) || id == step.id
    {
      var c :| c in R.NextIssued(m, step) && R.NextIssued(m, step)[c].1 == id;
      if id != step.id {
        assert c in m.issued && m.issued[c].1 == id;
      }
    }
  }

  /** Groups and ids stay apart, as both are fresh clock readings. */
  lemma ManagerGroupsKept(m: R.State, step: R.Action)
    requires GroupsOk(m) && R.Enabled(m, step)
    requires step.NewForward? && step.req.groupID.Some? ==> FreshReading(m, step.req.groupID.value)
    requires step.SendToNode? ==> FreshReading(m, step.id)
    requires forall k | 0 <= k < |m.forwards| :: R.NextForwards(m, step)[k].req == m.forwards[k].req
    ensures GroupsOk(R.Next(m, step))
  {
    var m' := R.Next(m, step);
    IssuedStep(m, step);
    ForwardsGrow(m, step);
    forall k | 0 <= k < |m'.forwards| && m'.forwards[k].req.groupID.Some?
      ensures 0 < m'.forwards[k].req.groupID.value <= MAX_INT64
      ensures !R.Used(m'.issued, m'.forwards[k].req.groupID.value)
    {
      if step.SendToNode? { assert m.forwards[k].req.groupID != Some(step.id); }
    }
    forall k, l | 0 <= k < l < |m'.forwards| && m'.forwards[k].req.groupID.Some?
      ensures m'.forwards[k].req.groupID != m'.forwards[l].req.groupID
    {
      if l == |m.forwards| { assert m.forwards[k].req.groupID != step.req.groupID; }
    }
  }

  lemma OnlyFreshReadings(s: State, a: Action)
    requires Enabled(s, a) && ManagerStep(s, a).Some?
    ensures var step := ManagerStep(s, a).value;
      && R.Enabled(s.manager, step)
      && (step.NewForward? && step.req.groupID.Some? ==> FreshReading(s.manager, step.req.groupID.value))
      && (step.SendToNode? ==> FreshReading(s.manager, step.id))
  {}

  lemma GroupsKept(s: State, a: Action)
    requires Inv(s) && Enabled(s, a)
    ensures GroupsOk(NextManager(s, a))
  {
    if ManagerStep(s, a).Some? {
      ManagerKept(s, a);
      OnlyFreshReadings(s, a);
      ManagerGroupsKept(s.manager, ManagerStep(s, a).value);
    }
  }

  lemma GroupsStay(m: R.State, m': R.State, id: int)
    requires ManagerGrows(m, m') && IsGroup(m.forwards, id)
    ensures IsGroup(m'.forwards, id)
  {
    var k :| 0 <= k < |m.forwards| && m.forwards[k].req.groupID == Some(id);
    assert m'.forwards[k].req.groupID == Some(id);
  }

  lemma RequestsStay(m: R.State, m': R.State, writes: seq<Store.Write>)
    requires ManagerGrows(m, m') && RequestsOk(m, writes)
    ensures RequestsOk(m', writes)
  {
    forall k | 0 <= k < |writes|
      ensures RequestOk(m', writes[k])
    {
      assert RequestOk(m, writes[k]);
      if writes[k].Request? { GroupsStay(m, m', writes[k].req.groupID.value); }
    }
  }

  /** A request with a group of its own, or a result, is written. */
  lemma OneMoreRequest(m: R.State, m': R.State, writes: seq<Store.Write>, w: Store.Write)
    requires RequestsOk(m, writes) && RequestsOk(m', writes) && RequestOk(m', w)
    requires w.Request? ==> w.req.groupID.Some? && !IsGroup(m.forwards, w.req.groupID.value)
    ensures RequestsOk(m', writes + [w])
  {
    forall k | 0 <= k < |writes| && w.Request? && writes[k].Request?
      ensures writes[k].req.groupID != w.req.groupID
    {
      assert RequestOk(m, writes[k]);
    }
    forall k | 0 <= k < |writes + [w]|
      ensures RequestOk(m', (writes + [w])[k])
    {
      if k < |writes| { assert RequestOk(m', writes[k]); }
    }
  }

  lemma RequestsKept(s: State, a: Action)
    requires Inv(s) && Enabled(s, a)
    ensures RequestsOk(NextManager(s, a), NextWrites(s, a))
  {
    ManagerKept(s, a);
    RequestsStay(s.manager, NextManager(s, a), s.writes);
    WritesGrow(s, a);
    if a.Forward? {
      NewForwards(s, a);
      assert IsGroup(NextManager(s, a).forwards, a.req.groupID.value);
      OneMoreRequest(s.manager, NextManager(s, a), s.writes, Store.Request(a.req, a.data, a.committed));
    } else if a.Hear? {
      HearsResult(s, a);
      OneMoreRequest(s.manager, NextManager(s, a), s.writes,
                     Store.Result(s.manager.life.lives[a.i].node, s.nodes[a.i].outbox[a.p].resp, a.committed));
    }
  }

  lemma WritesGrow(s: State, a: Action)
    requires Enabled(s, a)
    ensures s.writes <= NextWrites(s, a)
    ensures a.Forward? ==> NextWrites(s, a) == s.writes + [Store.Request(a.req, a.data, a.committed)]
    ensures !a.Forward? && !a.Hear? ==> NextWrites(s, a) == s.writes
  {}

  lemma RecordedStays(writes: seq<Store.Write>, writes': seq<Store.Write>, req: TaskRequest)
    requires writes <= writes' && Recorded(writes, req)
    ensures Recorded(writes', req)
  {
    var l :| 0 <= l < |writes| && Requests(writes[l], req);
    assert Requests(writes'[l], req);
  }

  lemma ForwardsRecordedKept(s: State, a: Action)
    requires Inv(s) && Enabled(s, a)
    ensures ForwardsRecorded(NextManager(s, a), NextWrites(s, a))
  {
    var m', writes' := NextManager(s, a), NextWrites(s, a);
    ManagerKept(s, a);
    WritesGrow(s, a);
    NewForwards(s, a);
    forall k | 0 <= k < |m'.forwards| && m'.forwards[k].req.groupID.Some?
      ensures Recorded(writes', m'.forwards[k].req)
    {
      if k < |s.manager.forwards| {
        RecordedStays(s.writes, writes', s.manager.forwards[k].req);
      } else {
        assert Requests(writes'[|s.writes|], a.req);
      }
    }
  }

  lemma NewForwards(s: State, a: Action)
    requires Enabled(s, a)
    ensures |NextManager(s, a).forwards| == |s.manager.forwards| + if a.Forward? || a.Collect? then 1 else 0
    ensures a.Forward? || a.Collect? ==> NextManager(s, a).forwards[|s.manager.forwards|].req == a.req
  {
    if ManagerStep(s, a).Some? {
      OnlyFreshReadings(s, a);
      ForwardsGrow(s.manager, ManagerStep(s, a).value);
    }
  }

  lemma RequestedBeforeStays(writes: seq<Store.Write>, writes': seq<Store.Write>, k: nat)
    requires writes <= writes' && k < |writes| && writes[k].Result? && RequestedBefore(writes, k)
    ensures RequestedBefore(writes', k)
  {
    var l :| 0 <= l < k && writes[l].Request? && writes[l].req.groupID == writes[k].msg.groupID;
    assert writes'[l] == writes[l];
  }

  lemma RequestsFirstKept(s: State, a: Action)
    requires Inv(s) && Enabled(s, a)
    ensures RequestsComeFirst(NextWrites(s, a))
  {
    var writes' := NextWrites(s, a);
    WritesGrow(s, a);
    forall k | 0 <= k < |writes'| && writes'[k].Result? && writes'[k].msg.groupID.Some?
      ensures RequestedBefore(writes', k)
    {
      if k < |s.writes| {
        RequestedBeforeStays(s.writes, writes', k);
      } else {
        HearsResult(s, a);
        NewIsRequested(s, a.i, a.p, a.committed);
      }
    }
  }

  lemma NewIsRequested(s: State, i: nat, p: nat, committed: bool)
    requires RP.Inv(s.manager) && SessionsOk(s) && ForwardsRecorded(s.manager, s.writes)
    requires i < |s.nodes| && p < |s.nodes[i].outbox| && s.nodes[i].outbox[p].resp.groupID.Some?
    ensures var w := Store.Result(s.manager.life.lives[i].node, s.nodes[i].outbox[p].resp, committed);
      RequestedBefore(s.writes + [w], |s.writes|)
  {
    var w := Store.Result(s.manager.life.lives[i].node, s.nodes[i].outbox[p].resp, committed);
    var c := NewOrigin(s, i, p, committed);
    assert Recorded(s.writes, s.manager.forwards[c.0].req);
    var l :| 0 <= l < |s.writes| && Requests(s.writes[l], s.manager.forwards[c.0].req);
    assert (s.writes + [w])[l] == s.writes[l];
  }

  // ------------------------------------------------------------------- receiving

  lemma ReceivedStep(m: R.State, step: R.Action, i: nat)
    requires R.Enabled(m, step) && i < |R.NextRoutes(m, step)|
    ensures R.NextRoutes(m, step)[i].received ==
      if i >= |m.routes| then []
      else if step.Receive? && step.i == i then m.routes[i].received + [step.msg]
      else m.routes[i].received
  {}

  lemma ReadStays(n: N.State, n': N.State, read: nat, read': nat, msg: TaskResponse)
    requires NodeGrows(n, n') && read <= read' <= |n'.outbox| && ReadFrom(n, read, msg)
    ensures ReadFrom(n', read', msg)
  {
    var p :| Read(n, read, p, msg);
    assert Read(n', read', p, msg);
  }

  /** A message newly received is the one that was heard. */
  lemma NewlyReceived(s: State, a: Action, i: nat, msg: TaskResponse)
    requires Enabled(s, a) && i < |NextManager(s, a).routes| && msg in NextManager(s, a).routes[i].received
    ensures i < |s.manager.routes|
    ensures msg in s.manager.routes[i].received || (a.Hear? && a.i == i && msg == s.nodes[i].outbox[a.p].resp)
  {
    if ManagerStep(s, a).Some? {
      OnlyFreshReadings(s, a);
      ReceivedStep(s.manager, ManagerStep(s, a).value, i);
    }
  }

  lemma ReceivedKept(s: State, a: Action)
    requires Inv(s) && Enabled(s, a)
    ensures ReceivedOk(Next(s, a))
  {
    var s' := Next(s, a);
    ManagerKept(s, a);
    SessionsKept(s, a);
    forall i, msg | 0 <= i < |s'.nodes| && msg in s'.manager.routes[i].received
      ensures ReadFrom(s'.nodes[i], s'.read[i], msg)
    {
      NewlyReceived(s, a, i, msg);
      SessionKept(s, a, i);
      if msg in s.manager.routes[i].received {
        ReadStays(s.nodes[i], s'.nodes[i], s.read[i], s'.read[i], msg);
      } else {
        assert Read(s'.nodes[i], s'.read[i], a.p, msg);
      }
    }
  }

  // ----------------------------------------------------------------- all steps

  lemma StepKeepsInv(s: State, a: Action)
    requires Inv(s) && Enabled(s, a)
    ensures Inv(Next(s, a))
  {
    ManagerKept(s, a);
    SessionsKept(s, a);
    WritesKept(s, a);
    WrittenOnceKept(s, a);
    GroupsKept(s, a);
    RequestsKept(s, a);
    ForwardsRecordedKept(s, a);
    RequestsFirstKept(s, a);
    ReceivedKept(s, a);
  }

  lemma {:induction false} RunKeepsInv(s: State, actions: seq<Action>)
    requires Inv(s) && CanRun(s, actions)
    ensures Inv(Run(s, actions))
    decreases |actions|
  {
    if actions != [] {
      StepKeepsInv(s, actions[0]);
      RunKeepsInv(Next(s, actions[0]), actions[1..]);
    }
  }

  lemma ReachableInv(s: State)
    requires Reachable(s)
    ensures Inv(s)
  {
    var actions :| IsRun(actions, s);
    RunKeepsInv(INIT, actions);
  }
}
