/** What the manager's store is worth: results, groups and requests in every reachable state of the system. */
module SystemResults {
  import opened Common
  import opened Proto
  import opened System
  import opened SystemProofs
  import R = Routing
  import RP = RoutingProofs
  import RR = RoutingResults
  import N = Scheduler
  import NR = SchedulerReplies
  import Store
  import Expansion
  import Decimal
  import Listing
  import LP = ListingProofs
  import LO = ListingOrders
  import LH = ListingHistory

  // --------------------------------------------------------- what was written

  lemma {:induction false} LastResultWritten(writes: seq<Store.Write>, id: int) returns (k: nat)
    requires Store.LastResult(writes, id).Some?
    ensures k < |writes| && Store.Stored(writes[k]) && writes[k].msg.id == id
    ensures Store.LastResult(writes, id) == Some(Store.Task(writes[k].node, Some(writes[k].msg)))
    decreases |writes|
  {
    var last := writes[|writes| - 1];
    if Store.Stored(last) && last.msg.id == id {
      k := |writes| - 1;
    } else {
      k := LastResultWritten(writes[..|writes| - 1], id);
    }
  }

  /** The write that put the n-th id into a group. */
  lemma {:induction false} GroupIdWritten(writes: seq<Store.Write>, group: int, n: nat) returns (k: nat)
    requires n < |Store.GroupIds(writes, group)|
    ensures k < |writes| && Store.Grouped(writes[k]) && GroupOf(writes[k].msg.groupID) == group
    ensures writes[k].msg.id == Store.GroupIds(writes, group)[n]
    decreases |writes|
  {
    if n < |Store.GroupIds(writes[..|writes| - 1], group)| {
      k := GroupIdWritten(writes[..|writes| - 1], group, n);
    } else {
      k := |writes| - 1;
    }
  }

  lemma {:induction false} ListedOnce(writes: seq<Store.Write>, group: int)
    requires WrittenOnce(writes)
    ensures forall a, b | 0 <= a < b < |Store.GroupIds(writes, group)| ::
      Store.GroupIds(writes, group)[a] != Store.GroupIds(writes, group)[b]
    decreases |writes|
  {
    if writes != [] {
      var before, last := writes[..|writes| - 1], writes[|writes| - 1];
      ListedOnce(before, group);
      var ids := Store.GroupIds(before, group);
      forall a | 0 <= a < |ids| && Store.Grouped(last)
        ensures ids[a] != last.msg.id
      {
        var k := GroupIdWritten(before, group, a);
        assert writes[k] == before[k];
      }
    }
  }

  lemma WriteHasOrigin(s: State, k: nat) returns (i: nat, p: nat, c: R.CallerId)
    requires WritesOk(s) && k < |s.writes| && s.writes[k].Result?
    ensures ResultOk(s, s.writes[k], i, p, c)
  {
    assert WriteOk(s, s.writes[k]);
    i, p, c :| ResultOk(s, s.writes[k], i, p, c);
  }

  // --------------------------------------------------------------------- results

  /**
   * For every dispatched task the store gets at most one record, even when the task overran its timeout
   * and both the overrun notice and the result arrived; and its id is in its group's list at most once.
   */
  lemma OneRecordPerTask(s: State, group: int)
    requires Reachable(s)
    ensures forall k, l | 0 <= k < l < |s.writes| && s.writes[k].Result? && s.writes[l].Result? ::
      s.writes[k].msg.id != s.writes[l].msg.id
    ensures var ids := Store.GroupIds(s.writes, group);
      forall a, b | 0 <= a < b < |ids| :: ids[a] != ids[b]
  {
    ReachableInv(s);
    ListedOnce(s.writes, group);
  }

  /** In all the nodes' outboxes together, no two final replies carry the same id. */
  lemma FinalRepliesAreUnique(s: State, i: nat, p: nat, k: nat, q: nat)
    requires Reachable(s)
    requires i < |s.nodes| && p < |s.nodes[i].outbox| && !s.nodes[i].outbox[p].resp.internalError.StartedTimeout?
    requires k < |s.nodes| && q < |s.nodes[k].outbox| && !s.nodes[k].outbox[q].resp.internalError.StartedTimeout?
    requires s.nodes[i].outbox[p].resp.id == s.nodes[k].outbox[q].resp.id
    ensures i == k && p == q
  {
    ReachableInv(s);
    FinalRepliesDiffer(s, i, p, k, q);
  }

  /** A stored record answers a request that was sent to that very node, under that request's group. */
  lemma RecordHasCaller(s: State, k: nat) returns (i: nat, c: R.CallerId)
    requires Reachable(s) && k < |s.writes| && s.writes[k].Result?
    ensures Origin(s.manager, s.writes[k], i, c)
    ensures i < |s.manager.routes|
    ensures exists task | task in s.manager.routes[i].sent ::
      Conveys(s.manager.forwards[c.0].req, s.writes[k].msg.id, task)
  {
    ReachableInv(s);
    var p;
    i, p, c := WriteHasOrigin(s, k);
    assert RP.IssueOk(s.manager, c);
    var req, id := s.manager.forwards[c.0].req, s.writes[k].msg.id;
    assert Conveys(req, id, R.Forwarded(req, id));
  }

  lemma SameCaller(m: R.State, v: Store.Write, w: Store.Write, i: nat, j: nat, c: R.CallerId, d: R.CallerId)
    requires GroupsOk(m) && Origin(m, v, i, c) && Origin(m, w, j, d) && v.msg.groupID.Some?
    requires v.msg.groupID == w.msg.groupID && v.node == w.node
    ensures v.msg.id == w.msg.id
  {
    assert c.0 == d.0;
    assert c == d;
  }

  /** A group holds at most one record per node; results without a group belong to none. */
  lemma OneRecordPerTarget(s: State, k: nat, l: nat)
    requires Reachable(s) && k < |s.writes| && l < |s.writes| && s.writes[k].Result? && s.writes[l].Result?
    requires GroupOf(s.writes[k].msg.groupID) == GroupOf(s.writes[l].msg.groupID) != 0
    requires s.writes[k].node == s.writes[l].node
    ensures k == l
  {
    ReachableInv(s);
    var i, p, c := WriteHasOrigin(s, k);
    var j, q, d := WriteHasOrigin(s, l);
    SameCaller(s.manager, s.writes[k], s.writes[l], i, j, c, d);
  }

  /** No task's id is a group: what the index needs to be right. */
  lemma IdsAreNotGroups(s: State)
    requires Inv(s)
    ensures Store.Disjoint(s.writes)
  {
    forall id | Store.LastResult(s.writes, id).Some?
      ensures Store.GroupIds(s.writes, id) == []
    {
      var k := LastResultWritten(s.writes, id);
      var i, p, c := WriteHasOrigin(s, k);
      if Store.GroupIds(s.writes, id) != [] {
        var l := GroupIdWritten(s.writes, id, 0);
        var j, q, d := WriteHasOrigin(s, l);
        UsedIsNoGroup(s.manager, c, d.0);
      }
    }
  }

  lemma UsedIsNoGroup(m: R.State, c: R.CallerId, f: nat)
    requires GroupsOk(m) && c in m.issued && f < |m.forwards|
    ensures m.forwards[f].req.groupID != Some(m.issued[c].1)
  {
    assert R.Used(m.issued, m.issued[c].1);
  }

  /**
   * In every reachable state the store holds, under every id, the one result stored for it, and under
   * every group exactly the ids stored for it in order of arrival; and showing any id ends after at most
   * one level of recursion.
   */
  lemma StoreIsFaithful(s: State, c: Store.Codec, pretty: Expansion.Printer, id: int, depth: nat)
    requires Reachable(s) && Store.ValidCodec(c) && depth >= 1
    ensures Store.Agrees(c, Store.ApplyAll(c, s.writes), s.writes)
    ensures Expansion.Expand(Store.ApplyAll(c, s.writes), pretty, Decimal.FormatInt(id), depth) ==
      if Store.GroupIds(s.writes, id) != [] then Expansion.PrintAll(c, pretty, s.writes, Store.GroupIds(s.writes, id))
      else Expansion.PrintTask(c, pretty, Store.LastResult(s.writes, id))
  {
    ReachableInv(s);
    IdsAreNotGroups(s);
    Store.StoreAgreesWithHistory(c, s.writes);
    Expansion.ExpansionIsShallow(c, pretty, s.writes, id, depth);
  }

  // ------------------------------------------------------- the request behind it

  lemma {:induction false} NoRequest(writes: seq<Store.Write>, id: int)
    requires forall k | 0 <= k < |writes| && writes[k].Request? :: Store.RequestID(writes[k].req) != id
    ensures Expansion.LastRequest(writes, id).None?
    decreases |writes|
  {
    if writes != [] {
      NoRequest(writes[..|writes| - 1], id);
    }
  }

  lemma RequestsPrefix(m: R.State, writes: seq<Store.Write>, n: nat)
    requires RequestsOk(m, writes) && n <= |writes|
    ensures RequestsOk(m, writes[..n])
  {
    forall k | 0 <= k < n
      ensures RequestOk(m, writes[..n][k])
    {
      assert RequestOk(m, writes[k]);
    }
  }

  /** The one request of a group is found if and only if its transaction was committed. */
  lemma {:induction false} OnlyRequest(m: R.State, writes: seq<Store.Write>, l: nat)
    requires RequestsOk(m, writes) && GroupsOk(m)
    requires l < |writes| && writes[l].Request?
    ensures Expansion.LastRequest(writes, GroupOf(writes[l].req.groupID))
         == if writes[l].committed then Some(writes[l].data) else None
    decreases |writes|
  {
    RequestIsPositive(m, writes, l);
    var last := |writes| - 1;
    var before := writes[..last];
    RequestsPrefix(m, writes, last);
    if l < last {
      assert before[l] == writes[l];
      OnlyRequest(m, before, l);
      if writes[last].Request? { RequestIsPositive(m, writes, last); }
    } else {
      forall k | 0 <= k < |before| && before[k].Request?
        ensures Store.RequestID(before[k].req) != GroupOf(writes[l].req.groupID)
      {
        RequestIsPositive(m, writes, k);
      }
      NoRequest(before, GroupOf(writes[l].req.groupID));
    }
  }

  lemma RequestIsPositive(m: R.State, writes: seq<Store.Write>, l: nat)
    requires RequestsOk(m, writes) && GroupsOk(m) && l < |writes| && writes[l].Request?
    ensures writes[l].req.groupID == Some(Store.RequestID(writes[l].req)) && GroupOf(writes[l].req.groupID) > 0
  {
    assert RequestOk(m, writes[l]);
    assert IsGroup(m.forwards, writes[l].req.groupID.value);
  }

  /** A request of the result's group. */
  predicate RequestFor(writes: seq<Store.Write>, k: nat, l: nat)
    requires k < |writes| && writes[k].Result?
  {
    l < |writes| && writes[l].Request? && writes[l].req.groupID == writes[k].msg.groupID
  }

  /**
   * A stored result has a request of its group if and only if it has a group, as the replies to the spec
   * collector have not. Then there is exactly one, given to the store before the result, and from the
   * result one finds its record if and only if that was committed; otherwise one finds none.
   */
  lemma RequestBehindResult(s: State, c: Store.Codec, k: nat)
    requires Reachable(s) && Store.ValidCodec(c)
    requires k < |s.writes| && Store.Stored(s.writes[k])
    ensures (exists l: nat :: RequestFor(s.writes, k, l)) <==> GroupOf(s.writes[k].msg.groupID) != 0
    ensures forall l: nat | RequestFor(s.writes, k, l) ::
      l < k && (forall n: nat | RequestFor(s.writes, k, n) :: n == l)
      && FoundFrom(c, s.writes, k) == if s.writes[l].committed then Some(s.writes[l].data) else None
    ensures GroupOf(s.writes[k].msg.groupID) == 0 ==> FoundFrom(c, s.writes, k) == None
  {
    ReachableInv(s);
    IdsAreNotGroups(s);
    GroupIsPositive(s, k);
    if s.writes[k].msg.groupID.Some? {
      GroupedFinds(s.manager, c, s.writes, k);
    } else {
      NoRequestFor(s, c, k);
    }
  }

  /** The request record one is led to from a stored result's id. */
  function FoundFrom(c: Store.Codec, writes: seq<Store.Write>, k: nat): Option<string>
    requires k < |writes| && writes[k].Result?
  {
    Expansion.FetchRequest(c, Store.ApplyAll(c, writes), Decimal.FormatInt(writes[k].msg.id))
  }

  lemma GroupedFinds(m: R.State, c: Store.Codec, writes: seq<Store.Write>, k: nat)
    requires RequestsOk(m, writes) && RequestsComeFirst(writes) && GroupsOk(m) && WrittenOnce(writes)
    requires Store.Disjoint(writes) && Store.ValidCodec(c)
    requires k < |writes| && Store.Stored(writes[k]) && writes[k].msg.groupID.Some?
    ensures exists l: nat :: RequestFor(writes, k, l)
    ensures forall l: nat | RequestFor(writes, k, l) ::
      l < k && (forall n: nat | RequestFor(writes, k, n) :: n == l)
      && FoundFrom(c, writes, k) == if writes[l].committed then Some(writes[l].data) else None
  {
    var l := RequestBefore(m, writes, k);
    RequestOfGroup(m, c, writes, k, l);
    forall n: nat | RequestFor(writes, k, n)
      ensures n == l
    {}
  }

  /** A group is never zero, so that the result's getter tells whether there is one. */
  lemma GroupIsPositive(s: State, k: nat)
    requires WritesOk(s) && GroupsOk(s.manager) && k < |s.writes| && s.writes[k].Result?
    ensures s.writes[k].msg.groupID.Some? <==> GroupOf(s.writes[k].msg.groupID) != 0
  {
    var i, p, c := WriteHasOrigin(s, k);
  }

  lemma RequestBefore(m: R.State, writes: seq<Store.Write>, k: nat) returns (l: nat)
    requires RequestsOk(m, writes) && RequestsComeFirst(writes)
    requires k < |writes| && writes[k].Result? && writes[k].msg.groupID.Some?
    ensures l < k && RequestFor(writes, k, l) && forall n: nat | RequestFor(writes, k, n) :: n == l
  {
    assert RequestedBefore(writes, k);
    l :| 0 <= l < k && writes[l].Request? && writes[l].req.groupID == writes[k].msg.groupID;
  }

  lemma NoRequestFor(s: State, c: Store.Codec, k: nat)
    requires WritesOk(s) && GroupsOk(s.manager) && RequestsOk(s.manager, s.writes) && WrittenOnce(s.writes)
    requires Store.Disjoint(s.writes) && Store.ValidCodec(c)
    requires k < |s.writes| && Store.Stored(s.writes[k]) && s.writes[k].msg.groupID.None?
    ensures !exists l: nat :: RequestFor(s.writes, k, l)
    ensures Expansion.FetchRequest(c, Store.ApplyAll(c, s.writes), Decimal.FormatInt(s.writes[k].msg.id)) == None
  {
    var i, p, d := WriteHasOrigin(s, k);
    var id := s.writes[k].msg.id;
    forall l: nat | l < |s.writes| && s.writes[l].Request?
      ensures Store.RequestID(s.writes[l].req) != id && !RequestFor(s.writes, k, l)
    {
      assert RequestOk(s.manager, s.writes[l]);
      RequestIsPositive(s.manager, s.writes, l);
      assert R.Used(s.manager.issued, s.manager.issued[d].1);
    }
    NoRequest(s.writes, id);
    TheLastIs(s.writes, k);
    Expansion.RequestIsFound(c, s.writes, id);
  }

  lemma RequestOfGroup(m: R.State, c: Store.Codec, writes: seq<Store.Write>, k: nat, l: nat)
    requires RequestsOk(m, writes) && GroupsOk(m) && WrittenOnce(writes) && Store.Disjoint(writes)
    requires Store.ValidCodec(c) && k < |writes| && Store.Stored(writes[k])
    requires l < |writes| && writes[l].Request? && writes[l].req.groupID == writes[k].msg.groupID
    ensures Expansion.FetchRequest(c, Store.ApplyAll(c, writes), Decimal.FormatInt(writes[k].msg.id))
         == if writes[l].committed then Some(writes[l].data) else None
  {
    RequestIsPositive(m, writes, l);
    OnlyRequest(m, writes, l);
    TheLastIs(writes, k);
    Expansion.RequestIsFound(c, writes, writes[k].msg.id);
  }

  lemma {:induction false} TheLastIs(writes: seq<Store.Write>, k: nat)
    requires WrittenOnce(writes) && k < |writes| && Store.Stored(writes[k])
    ensures Store.LastResult(writes, writes[k].msg.id) == Some(Store.Task(writes[k].node, Some(writes[k].msg)))
    decreases |writes|
  {
    if k < |writes| - 1 {
      assert writes[..|writes| - 1][k] == writes[k];
      TheLastIs(writes[..|writes| - 1], k);
    }
  }

  // ------------------------------------------------------------ what a record says

  /** The job on the node that a stored record is about. */
  predicate IsJobOf(s: State, w: Store.Write, i: nat, j: nat) {
    && w.Result? && i < |s.nodes| && j < |s.nodes[i].jobs| && s.nodes[i].jobs[j].req.id == w.msg.id
    && i < |s.manager.life.lives| && s.manager.life.lives[i].node == w.node
  }

  /** The record says as much about the job as the node knows. */
  predicate TellsTheTruth(job: N.Job, error: InternalError) {
    && (error.Timeout? || error.FullQueue? <==> job.fate.TimedOut? || job.fate.Refused?)
    && (error.Timeout? || error.FullQueue? ==> !job.entered)
    && (job.entered || job.fate.Ponged? || error.Timeout? || error.FullQueue?)
  }

  lemma FinalReplyIsTrue(sent: seq<TaskRequest>, node: N.State, read: nat, p: nat)
    requires SessionOk(sent, node, read) && p < |node.outbox|
    requires !node.outbox[p].resp.internalError.StartedTimeout?
    ensures node.outbox[p].job < |node.jobs|
    ensures TellsTheTruth(node.jobs[node.outbox[p].job], node.outbox[p].resp.internalError)
    ensures NR.Truthful(node.jobs[node.outbox[p].job], node.outbox[p].resp)
  {
    var j := node.outbox[p].job;
    assert NR.Truthful(node.jobs[j], node.outbox[p].resp) && NR.Consistent(node.jobs[j]);
  }

  /**
   * A record saying TIMEOUT or FULL_QUEUE is about a task that never ran and never will; any other record
   * is the answer to a ping, or says in full what the plugin did with the task.
   */
  lemma RecordsTellTheTruth(s: State, k: nat) returns (i: nat, j: nat)
    requires Reachable(s) && k < |s.writes| && s.writes[k].Result?
    ensures IsJobOf(s, s.writes[k], i, j)
    ensures TellsTheTruth(s.nodes[i].jobs[j], s.writes[k].msg.internalError)
    ensures NR.Truthful(s.nodes[i].jobs[j], s.writes[k].msg)
  {
    ReachableInv(s);
    i, j := RecordIsTrue(s, k);
  }

  lemma RecordIsTrue(s: State, k: nat) returns (i: nat, j: nat)
    requires SessionsOk(s) && WritesOk(s) && k < |s.writes| && s.writes[k].Result?
    ensures IsJobOf(s, s.writes[k], i, j)
    ensures TellsTheTruth(s.nodes[i].jobs[j], s.writes[k].msg.internalError)
    ensures NR.Truthful(s.nodes[i].jobs[j], s.writes[k].msg)
  {
    var p, c;
    i, p, c := WriteHasOrigin(s, k);
    HeardEchoes(s, i, p);
    FinalReplyIsTrue(s.manager.routes[i].sent, s.nodes[i], s.read[i], p);
    j := s.nodes[i].outbox[p].job;
  }

  /**
   * A reply that the forwarder returns for a target came from a job for this very request on that target's
   * node, and says about it what the node knows, also a notice that it overran its timeout.
   */
  lemma RepliesTellTheTruth(s: State, k: nat, node: string) returns (i: nat, j: nat)
    requires Reachable(s) && k < |s.manager.forwards|
    requires node in s.manager.forwards[k].results && s.manager.forwards[k].results[node].Reply?
    ensures i < |s.nodes| && i < |s.manager.life.lives| && s.manager.life.lives[i].node == node
    ensures j < |s.nodes[i].jobs|
    ensures var msg, job := s.manager.forwards[k].results[node].msg, s.nodes[i].jobs[j];
      && Conveys(s.manager.forwards[k].req, msg.id, job.req)
      && NR.Truthful(job, msg)
      && (msg.internalError.StartedTimeout? || TellsTheTruth(job, msg.internalError))
  {
    ReachableInv(s);
    assert RP.ForwardOk(k, s.manager.forwards[k], s.manager.callers);
    RR.TargetExplained(s.manager, k, node);
    var msg := s.manager.forwards[k].results[node].msg;
    i := s.manager.issued[(k, node)].0;
    j := JobOf(s, i, msg);
    SentForCaller(s.manager, (k, node), i, j);
  }

  /** The job on the node that a received message is about. */
  lemma JobOf(s: State, i: nat, msg: TaskResponse) returns (j: nat)
    requires SessionsOk(s) && ReceivedOk(s) && i < |s.nodes| && msg in s.manager.routes[i].received
    ensures j < |s.nodes[i].jobs| && j < |s.manager.routes[i].sent|
    ensures s.nodes[i].jobs[j].req == s.manager.routes[i].sent[j] && s.manager.routes[i].sent[j].id == msg.id
    ensures NR.Truthful(s.nodes[i].jobs[j], msg)
    ensures msg.internalError.StartedTimeout? || TellsTheTruth(s.nodes[i].jobs[j], msg.internalError)
  {
    assert ReadFrom(s.nodes[i], s.read[i], msg);
    var p: nat :| Read(s.nodes[i], s.read[i], p, msg);
    HeardEchoes(s, i, p);
    j := s.nodes[i].outbox[p].job;
    JobIsTrue(s.manager.routes[i].sent, s.nodes[i], s.read[i], p);
  }

  lemma SentForCaller(m: R.State, c: R.CallerId, i: nat, j: nat)
    requires RP.Inv(m) && i < |m.routes| && j < |m.routes[i].sent|
    requires RP.SentAs(m.issued, c, i, m.routes[i].sent[j].id)
    ensures c.0 < |m.forwards|
    ensures Conveys(m.forwards[c.0].req, m.routes[i].sent[j].id, m.routes[i].sent[j])
  {
    var d := RR.SentHasCaller(m, i, j);
    SameIssue(m.issued, c, d, i, m.routes[i].sent[j].id);
  }

  lemma SameIssue(issued: RP.Issued, c: R.CallerId, d: R.CallerId, i: nat, id: int)
    requires RP.Injective(issued) && RP.SentAs(issued, c, i, id) && RP.SentAs(issued, d, i, id)
    ensures c == d
  {}

  lemma JobIsTrue(sent: seq<TaskRequest>, node: N.State, read: nat, p: nat)
    requires SessionOk(sent, node, read) && p < |node.outbox|
    ensures var job, msg := node.outbox[p].job, node.outbox[p].resp;
      && job < |node.jobs| && NR.Truthful(node.jobs[job], msg)
      && (msg.internalError.StartedTimeout? || TellsTheTruth(node.jobs[job], msg.internalError))
  {
    if !node.outbox[p].resp.internalError.StartedTimeout? {
      FinalReplyIsTrue(sent, node, read, p);
    }
  }

  // ------------------------------------------------------------------- lock modes

  /** No node is ever told a lock mode: the one the caller asked for stays on the manager. */
  lemma NodesNeverSeeLockModes(s: State, i: nat, j: nat)
    requires Reachable(s) && i < |s.nodes| && j < |s.nodes[i].jobs|
    ensures s.nodes[i].jobs[j].req.lockMode == Unspecified
  {
    ReachableInv(s);
    assert SessionOk(s.manager.routes[i].sent, s.nodes[i], s.read[i]);
    var c := RR.SentHasCaller(s.manager, i, j);
  }

  /** So an override counts exactly when it says what the node would have done anyway. */
  lemma OverrideCountsIffIdle(req: TaskRequest, id: int, task: TaskRequest, declared: Option<LockMode>)
    requires Conveys(req, id, task) && task.lockMode == Unspecified
    ensures N.EffectiveLockMode(task, declared) == N.EffectiveLockMode(req, declared)
       <==> req.lockMode == Unspecified
            || req.lockMode == (if N.TaskName(req.task).None? || declared.None? then NoLock else declared.value)
  {}

  // -------------------------------------------------------- the parts, on their own

  lemma ConsRun(n: N.State, a: N.Action, rest: seq<N.Action>)
    requires N.Enabled(n, a) && N.CanRun(N.Next(n, a), rest)
    ensures N.CanRun(n, [a] + rest) && N.Run(n, [a] + rest) == N.Run(N.Next(n, a), rest)
  {
    assert ([a] + rest)[1..] == rest;
  }

  /** What one node does in a run of the system is a run of its scheduler. */
  lemma {:induction false} NodeRuns(s: State, actions: seq<Action>, i: nat)
    returns (cfg: N.Config, steps: seq<N.Action>)
    requires CanRun(s, actions) && i < |Run(s, actions).nodes|
    ensures if i < |s.nodes| then N.CanRun(s.nodes[i], steps) && N.Run(s.nodes[i], steps) == Run(s, actions).nodes[i]
            else N.IsRun(cfg, steps, Run(s, actions).nodes[i])
    decreases |actions|
  {
    cfg, steps := N.Config(0, 0), [];
    if actions != [] {
      var a := actions[0];
      cfg, steps := NodeRuns(Next(s, a), actions[1..], i);
      if a.Node? && a.i == i {
        ConsRun(s.nodes[i], a.move, steps);
        steps := [a.move] + steps;
      } else if a.Connect? && i == |s.nodes| {
        cfg := a.cfg;
      }
    }
  }

  lemma ConsManagerRun(m: R.State, a: R.Action, rest: seq<R.Action>)
    requires R.Enabled(m, a) && R.CanRun(R.Next(m, a), rest)
    ensures R.CanRun(m, [a] + rest) && R.Run(m, [a] + rest) == R.Run(R.Next(m, a), rest)
  {
    assert ([a] + rest)[1..] == rest;
  }

  lemma ManagerStepEnabled(s: State, a: Action)
    requires Enabled(s, a) && ManagerStep(s, a).Some?
    ensures R.Enabled(s.manager, ManagerStep(s, a).value)
  {}

  lemma {:induction false} ManagerRuns(s: State, actions: seq<Action>) returns (steps: seq<R.Action>)
    requires CanRun(s, actions)
    ensures R.CanRun(s.manager, steps) && R.Run(s.manager, steps) == Run(s, actions).manager
    decreases |actions|
  {
    if actions == [] {
      steps := [];
    } else {
      var rest := ManagerRuns(Next(s, actions[0]), actions[1..]);
      match ManagerStep(s, actions[0])
      case None => steps := rest;
      case Some(step) =>
        ManagerStepEnabled(s, actions[0]);
        ConsManagerRun(s.manager, step, rest);
        steps := [step] + rest;
    }
  }

  /**
   * In every reachable state of the system the manager and each node are in states they can reach on their
   * own, so everything proved of sessions, routing and schedulers holds in the system.
   */
  lemma PartsAreReachable(s: State)
    requires Reachable(s)
    ensures R.Reachable(s.manager)
    ensures forall i | 0 <= i < |s.nodes| :: N.Reachable(s.nodes[i])
  {
    var actions :| IsRun(actions, s);
    var steps := ManagerRuns(INIT, actions);
    assert R.IsRun(steps, s.manager);
    forall i | 0 <= i < |s.nodes|
      ensures N.Reachable(s.nodes[i])
    {
      var cfg, moves := NodeRuns(INIT, actions, i);
      assert N.IsRun(cfg, moves, s.nodes[i]);
    }
  }

  // ---------------------------------------------------------------------- listing

  lemma WriteInRange(s: State, k: nat)
    requires WritesOk(s) && GroupsOk(s.manager) && RequestsOk(s.manager, s.writes) && k < |s.writes|
    ensures LP.IdsInRange(s.writes[k])
  {
    if s.writes[k].Result? {
      var i, p, c := WriteHasOrigin(s, k);
    } else {
      RequestIsPositive(s.manager, s.writes, k);
    }
  }

  /** Everything a reachable system writes, the listing can read. */
  lemma StoreIsListable(s: State, c: Store.Codec)
    requires Reachable(s)
    ensures LP.WellFormed(Store.ApplyAll(c, s.writes))
  {
    ReachableInv(s);
    forall k | 0 <= k < |s.writes|
      ensures LP.IdsInRange(s.writes[k])
    {
      WriteInRange(s, k);
    }
    LP.HistoryIsWellFormed(c, s.writes);
  }

  /**
   * In every reachable state of the system the store has one reverse scan and a numeric listing, and all
   * listings up to a date, or without one, are answered as expected if and only if the stored ids fit it.
   */
  lemma SystemIsListed(s: State, c: Store.Codec, toDate: Option<int>)
    returns (items: seq<Listing.Item>, all: seq<Listing.Record>)
    requires Reachable(s)
    ensures var db := Store.ApplyAll(c, s.writes);
      && LP.IsReverseScan(db, items) && (forall other | LP.IsReverseScan(db, other) :: other == items)
      && LP.IsNumericListing(db, all)
      && (LP.AnswersAsExpected(c, items, all, toDate) <==> LP.ListingFits(LP.ResultIds(db), Listing.Bound(toDate)))
  {
    StoreIsListable(s, c);
    items, all := LO.EveryStoreIsListed(c, Store.ApplyAll(c, s.writes), toDate);
  }

  /**
   * In every reachable state a listing whose date fits the stored ids answers with one page of exactly the
   * results and groups asked for, newest first, each described by the node's reply.
   */
  lemma SystemHistoryIsListed(
      s: State, c: Store.Codec, items: seq<Listing.Item>, ids: seq<int>, req: Listing.ListRequest)
    requires Reachable(s) && Store.ValidCodec(c)
    requires LP.IsReverseScan(Store.ApplyAll(c, s.writes), items) && LH.IsHistory(s.writes, ids)
    requires LP.ListingFits(LH.ListedIds(s.writes), LP.Date(req.toDate))
    ensures Listing.Respond(c, items, req).Listed?
    ensures var page, entries := LH.PageOfIds(s.writes, req, ids), Listing.Respond(c, items, req).entries;
      |entries| == |page| && forall i | 0 <= i < |page| :: LH.Describes(s.writes, page[i], entries[i])
  {
    ReachableInv(s);
    IdsAreNotGroups(s);
    forall k | 0 <= k < |s.writes|
      ensures LP.IdsInRange(s.writes[k])
    {
      WriteInRange(s, k);
    }
    LH.HistoryIsListed(c, s.writes, items, ids, req);
  }

  predicate WrittenAs(w: Store.Write, id: int)
    requires w.Result?
  {
    w.msg.id == id || (Store.Grouped(w) && GroupOf(w.msg.groupID) == id)
  }

  /** The id or group of something stored. */
  ghost predicate Written(writes: seq<Store.Write>, id: int) {
    exists k | 0 <= k < |writes| ::
      Store.Stored(writes[k]) && WrittenAs(writes[k], id)
  }

  lemma {:induction false} KeysAreWritten(c: Store.Codec, writes: seq<Store.Write>, id: int)
    requires Store.ResultKey(Decimal.FormatInt(id)) in Store.ApplyAll(c, writes)
    ensures Written(writes, id)
    decreases |writes|
  {
    var before, w := writes[..|writes| - 1], writes[|writes| - 1];
    if Store.ResultKey(Decimal.FormatInt(id)) in Store.ApplyAll(c, before) {
      KeysAreWritten(c, before, id);
      var k :| 0 <= k < |before| && Store.Stored(before[k])
               && WrittenAs(before[k], id);
      assert writes[k] == before[k];
    } else {
      KeyIsNew(c, Store.ApplyAll(c, before), w, id);
      assert w == writes[|writes| - 1];
    }
  }

  lemma KeyIsNew(c: Store.Codec, db: Store.Db, w: Store.Write, id: int)
    requires Store.ResultKey(Decimal.FormatInt(id)) in Store.Apply(c, db, w)
    requires Store.ResultKey(Decimal.FormatInt(id)) !in db
    ensures Store.Stored(w) && WrittenAs(w, id)
  {
    match w
    case Request(req, _, _) =>
      Store.ResultIsNotRequest(Decimal.FormatInt(id), Decimal.FormatInt(Store.RequestID(req)));
    case Result(_, msg, _) =>
      var group := GroupOf(msg.groupID);
      if Store.ResultKey(Decimal.FormatInt(id)) == Store.ResultKey(Decimal.FormatInt(msg.id)) {
        Store.ResultKeyInjective(id, msg.id);
      } else if Store.ResultKey(Decimal.FormatInt(id)) == Store.ResultKey(Decimal.FormatInt(group)) {
        Store.ResultKeyInjective(id, group);
      }
  }

  /** A clock reading with this many digits; today's have 19. */
  predicate HasDigits(id: int, digits: nat) {
    id >= 0 && |Decimal.FormatInt(id)| == digits
  }

  /** While the clock's readings and the date have equally many digits, every listing is as expected. */
  lemma EqualDigitsAreListed(
      s: State, c: Store.Codec, items: seq<Listing.Item>, all: seq<Listing.Record>, toDate: Option<int>, digits: nat)
    requires Reachable(s)
    requires LP.IsReverseScan(Store.ApplyAll(c, s.writes), items)
    requires LP.IsNumericListing(Store.ApplyAll(c, s.writes), all)
    requires forall id | Written(s.writes, id) :: HasDigits(id, digits)
    requires Listing.Bound(toDate).Some? ==> HasDigits(toDate.value, digits)
    ensures LP.AnswersAsExpected(c, items, all, toDate)
  {
    var ids := LP.ResultIds(Store.ApplyAll(c, s.writes));
    forall id | id in ids
      ensures HasDigits(id, digits)
    {
      KeysAreWritten(c, s.writes, id);
    }
    LP.EqualDigitsFit(ids, Listing.Bound(toDate));
    StoreIsListable(s, c);
    LP.ExpectedIffFits(c, Store.ApplyAll(c, s.writes), items, all, toDate);
  }
}
