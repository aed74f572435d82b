/**
 * A run of the whole system from its start to a stored result: a node connects, a request is forwarded to
 * it, it serves the task and the manager stores the reply, which then expands and lists.
 */
module SystemExample {
  import opened Common
  import opened Proto
  import opened Decimal
  import opened System
  import R = Routing
  import NR = SchedulerReplies
  import RX = RoutingExample
  import L = Lifecycle
  import N = Scheduler
  import Store
  import Expansion
  import Listing
  import LP = ListingProofs
  import LO = ListingOrders
  import SR = SystemResults

  // ------------------------------------------------------------------- stepping

  ghost predicate Leads(s: State, t: State) {
    exists actions :: CanRun(s, actions) && Run(s, actions) == t
  }

  lemma Arrived(s: State)
    ensures Leads(s, s)
  {
    assert CanRun(s, []) && Run(s, []) == s;
  }

  lemma Step(s: State, a: Action, t: State)
    requires Enabled(s, a) && Leads(Next(s, a), t)
    ensures Leads(s, t)
  {
    var rest :| CanRun(Next(s, a), rest) && Run(Next(s, a), rest) == t;
    assert ([a] + rest)[1..] == rest;
    assert CanRun(s, [a] + rest) && Run(s, [a] + rest) == t;
  }

  /** One session: the manager, its node, and what was stored. */
  function One(m: R.State, n: N.State, writes: seq<Store.Write>): State {
    State(m, [n], [0], writes)
  }

  lemma ManagerMoves(m: R.State, n: N.State, writes: seq<Store.Write>, step: R.Action, t: State)
    requires |m.routes| == |m.life.lives| == 1 && OwnStep(m, step) && R.Enabled(m, step)
    requires Leads(One(R.Next(m, step), n, writes), t)
    ensures Leads(One(m, n, writes), t)
  {
    assert Next(One(m, n, writes), Manager(step)) == One(R.Next(m, step), n, writes);
    Step(One(m, n, writes), Manager(step), t);
  }

  lemma NodeMoves(m: R.State, n: N.State, writes: seq<Store.Write>, move: N.Action, t: State)
    requires |m.routes| == |m.life.lives| == 1 && N.Enabled(n, move) && NextInOrder(m.routes[0].sent, n, move)
    requires Leads(One(m, N.Next(n, move), writes), t)
    ensures Leads(One(m, n, writes), t)
  {
    assert [n][0 := N.Next(n, move)] == [N.Next(n, move)];
    assert Next(One(m, n, writes), Node(0, move)) == One(m, N.Next(n, move), writes);
    Step(One(m, n, writes), Node(0, move), t);
  }

  // ---------------------------------------------------------------- on the node

  function Served(
      req: TaskRequest, pc: N.Pc, watcher: N.Watcher, timer: N.Timer, ran: Option<N.PluginRun>, fate: N.Fate): N.Job {
    N.Job(req, NoLock, pc, timer, watcher, !watcher.NotStarted?, ran, fate)
  }

  function Busy(cfg: N.Config, job: N.Job, slots: int, readers: int, outbox: seq<N.Sent>): N.State {
    N.State(cfg, [job], N.Tokens(1, slots, 0, readers, false, false), outbox, true, false)
  }

  predicate OrdinaryTask(req: TaskRequest) {
    req.lockMode == Unspecified && req.task != N.INSTANT_PING
  }

  function Accepted(cfg: N.Config, req: TaskRequest): N.State {
    Busy(cfg, Served(req, N.Waiting, N.NotStarted, N.Armed, None, N.Undecided), 0, 0, [])
  }

  function Slotted(cfg: N.Config, req: TaskRequest): N.State {
    Busy(cfg, Served(req, N.WantLock, N.NotStarted, N.Armed, None, N.Undecided), 1, 0, [])
  }

  function Working(cfg: N.Config, req: TaskRequest): N.State {
    Busy(cfg, Served(req, N.Running, N.Watching, N.Armed, None, N.Undecided), 1, 1, [])
  }

  function Finished(cfg: N.Config, req: TaskRequest, run: N.PluginRun): N.State {
    var job := Served(req, N.ReplyingResult(N.DoTask(req, run)), N.Watching, N.Stopped, Some(run), N.Undecided);
    Busy(cfg, job, 1, 1, [])
  }

  function Replied(cfg: N.Config, req: TaskRequest, run: N.PluginRun): N.State {
    Busy(cfg, Served(req, N.Unlocking, N.Watching, N.Stopped, Some(run), N.Completed), 1, 1,
         [N.Sent(0, N.DoTask(req, run))])
  }

  lemma Starting(cfg: N.Config, req: TaskRequest)
    requires OrdinaryTask(req)
    ensures N.Enabled(N.Init(cfg), N.Receive(req, None))
    ensures N.Next(N.Init(cfg), N.Receive(req, None)) == Accepted(cfg, req)
    ensures N.Enabled(Accepted(cfg, req), N.Step(0, N.TakeSlot))
    ensures N.Next(Accepted(cfg, req), N.Step(0, N.TakeSlot)) == Slotted(cfg, req)
  {
    assert N.EffectiveLockMode(req, None) == NoLock;
    assert N.Next(N.Init(cfg), N.Receive(req, None)).jobs == [Accepted(cfg, req).jobs[0]];
  }

  lemma Ending(cfg: N.Config, req: TaskRequest, run: N.PluginRun)
    ensures N.Enabled(Slotted(cfg, req), N.Step(0, N.TakeLock))
    ensures N.Next(Slotted(cfg, req), N.Step(0, N.TakeLock)) == Working(cfg, req)
    ensures N.Enabled(Working(cfg, req), N.Step(0, N.Finish(run)))
    ensures N.Next(Working(cfg, req), N.Step(0, N.Finish(run))) == Finished(cfg, req, run)
  {}

  lemma Replying(cfg: N.Config, req: TaskRequest, run: N.PluginRun)
    ensures N.Enabled(Finished(cfg, req, run), N.Step(0, N.Reply))
    ensures N.Next(Finished(cfg, req, run), N.Step(0, N.Reply)) == Replied(cfg, req, run)
  {
    assert N.Next(Finished(cfg, req, run), N.Step(0, N.Reply)).outbox == [N.Sent(0, N.DoTask(req, run))];
  }

  // ------------------------------------------------------------- the whole run

  /** What the example is about: any node and request, with clock readings in order. */
  datatype Case = Case(
    node: string, cfg: N.Config, req: TaskRequest, group: int, id: int, data: string, run: N.PluginRun)

  /** A request that is forwarded, or one that the spec collector makes. */
  predicate Usual(x: Case) {
    && (x.req.groupID == Some(x.group) || x.req.groupID == None) && x.req.task != N.INSTANT_PING
    && 0 < x.group < x.id <= MAX_INT64
  }

  function Task(x: Case): TaskRequest {
    R.Forwarded(x.req, x.id)
  }

  function Asked(x: Case): seq<Store.Write> {
    if x.req.groupID.Some? then [Store.Request(x.req, x.data, true)] else []
  }

  function Stored(x: Case): seq<Store.Write> {
    Asked(x) + [Store.Result(x.node, N.DoTask(Task(x), x.run), true)]
  }

  /** The node replied and the manager has not heard it yet. */
  function BeforeHearing(x: Case): State {
    One(RX.Dispatched(x.node, x.req, x.id), Replied(x.cfg, Task(x), x.run), Asked(x))
  }

  lemma NodePart(x: Case, t: State)
    requires Usual(x) && Leads(BeforeHearing(x), t)
    ensures Leads(One(RX.Dispatched(x.node, x.req, x.id), N.Init(x.cfg), Asked(x)), t)
  {
    var m, w, req := RX.Dispatched(x.node, x.req, x.id), Asked(x), Task(x);
    Starting(x.cfg, req);
    Ending(x.cfg, req, x.run);
    Replying(x.cfg, req, x.run);
    NodeMoves(m, Finished(x.cfg, req, x.run), w, N.Step(0, N.Reply), t);
    NodeMoves(m, Working(x.cfg, req), w, N.Step(0, N.Finish(x.run)), t);
    NodeMoves(m, Slotted(x.cfg, req), w, N.Step(0, N.TakeLock), t);
    NodeMoves(m, Accepted(x.cfg, req), w, N.Step(0, N.TakeSlot), t);
    NodeMoves(m, N.Init(x.cfg), w, N.Receive(req, None), t);
  }

  lemma SendingPart(x: Case, t: State)
    requires Usual(x) && Leads(One(RX.Dispatched(x.node, x.req, x.id), N.Init(x.cfg), Asked(x)), t)
    ensures Leads(One(RX.Requested(x.node, x.req, R.Starting, map[], R.Ranging), N.Init(x.cfg), Asked(x)), t)
  {
    var c, n, w := (0, x.node), N.Init(x.cfg), Asked(x);
    RX.Dispatching(x.node, x.req, x.id);
    RX.Handing(x.node, x.req);
    ManagerMoves(RX.Requested(x.node, x.req, R.Awaiting, map[], R.Holding(c)), n, w, R.SendToNode(0, x.id), t);
    ManagerMoves(RX.Requested(x.node, x.req, R.Sending, map[c := 0], R.Ranging), n, w, R.TakeTask(0, c), t);
    ManagerMoves(RX.Requested(x.node, x.req, R.Starting, map[], R.Ranging), n, w, R.StartSend(c), t);
  }

  lemma ForwardPart(x: Case, t: State)
    requires Usual(x)
    requires Leads(One(RX.Requested(x.node, x.req, R.Starting, map[], R.Ranging), N.Init(x.cfg), Asked(x)), t)
    ensures Leads(One(RX.Listening(x.node), N.Init(x.cfg), []), t)
  {
    var s := One(RX.Listening(x.node), N.Init(x.cfg), []);
    var targets := map[x.node := true];
    var a := if x.req.groupID.Some? then Forward(x.req, targets, x.data, true) else Collect(x.req, targets);
    RX.Asking(x.node, x.req);
    assert Enabled(s, a);
    assert Next(s, a).writes == Asked(x);
    Step(s, a, t);
  }

  lemma ConnectPart(x: Case, t: State)
    requires Leads(One(RX.Listening(x.node), N.Init(x.cfg), []), t)
    ensures Leads(INIT, t)
  {
    var n := N.Init(x.cfg);
    RX.ConnectingSteps(x.node);
    ManagerMoves(RX.Registered(x.node), n, [], R.Session(L.FetchChannel(0)), t);
    ManagerMoves(RX.Announced(x.node), n, [], R.Session(L.RegisterSession(0)), t);
    ManagerMoves(RX.Opened(x.node), n, [], R.Session(RX.ME), t);
    assert Next(INIT, Connect(x.node, x.cfg)) == One(RX.Opened(x.node), n, []);
    Step(INIT, Connect(x.node, x.cfg), t);
  }

  /** The system has stored the reply. */
  function Heard(x: Case): State {
    Next(BeforeHearing(x), Hear(0, 0, true))
  }

  lemma HearingPart(x: Case)
    ensures Enabled(BeforeHearing(x), Hear(0, 0, true)) && Heard(x).writes == Stored(x)
  {
    var s := BeforeHearing(x);
    assert s.nodes[0].outbox[0].resp == N.DoTask(Task(x), x.run);
    assert s.manager.life.lives[0].node == x.node;
  }

  lemma StoredIsReachable(x: Case)
    requires Usual(x)
    ensures Reachable(Heard(x)) && Heard(x).writes == Stored(x)
  {
    HearingPart(x);
    Arrived(Heard(x));
    Step(BeforeHearing(x), Hear(0, 0, true), Heard(x));
    NodePart(x, Heard(x));
    SendingPart(x, Heard(x));
    ForwardPart(x, Heard(x));
    ConnectPart(x, Heard(x));
    var actions :| CanRun(INIT, actions) && Run(INIT, actions) == Heard(x);
    assert IsRun(actions, Heard(x));
  }

  // --------------------------------------------------------- what comes of it

  function Reply(x: Case): TaskResponse {
    N.DoTask(Task(x), x.run)
  }

  function Record(x: Case): Store.Task {
    Store.Task(x.node, Some(Reply(x)))
  }

  lemma StoredIds(x: Case)
    requires Usual(x) && x.req.groupID.Some?
    ensures Store.GroupIds(Stored(x), x.group) == [x.id]
    ensures Store.LastResult(Stored(x), x.id) == Some(Record(x))
    ensures Store.Stored(Stored(x)[1])
  {
    var w := Stored(x);
    assert w[..1] == Asked(x) && Asked(x)[..0] == [];
    assert w[1] == Store.Result(x.node, Reply(x), true);
    assert Store.GroupIds(Asked(x), x.group) == [];
  }

  lemma GroupPrints(x: Case, c: Store.Codec, pretty: Expansion.Printer)
    requires Usual(x) && x.req.groupID.Some?
    ensures Expansion.PrintAll(c, pretty, Stored(x), [x.id]) == Expansion.PrintTask(c, pretty, Some(Record(x)))
  {
    StoredIds(x);
    assert [x.id][..0] == [];
    assert Expansion.PrintAll(c, pretty, Stored(x), []) == Expansion.Shown("");
    match Expansion.PrintTask(c, pretty, Some(Record(x)))
    case Shown(text) => assert "" + text == text;
    case _ =>
  }

  /** The listing of the example's store: the record, and behind it the group. */
  lemma StoredListing(x: Case, c: Store.Codec) returns (all: seq<Listing.Record>)
    requires Usual(x) && x.req.groupID.Some?
    ensures LP.IsNumericListing(Store.ApplyAll(c, Stored(x)), all)
    ensures all != [] && all[0] == (x.id, c.encode(Record(x)))
    ensures forall id | id in LP.ResultIds(Store.ApplyAll(c, Stored(x))) :: id == x.id || id == x.group
  {
    var w := Stored(x);
    var db := Store.ApplyAll(c, w);
    StoredIds(x);
    StoredDb(x, c);
    forall id | id in LP.ResultIds(db)
      ensures id == x.id || id == x.group
    {
      SR.KeysAreWritten(c, w, id);
      var k :| 0 <= k < |w| && Store.Stored(w[k]) && SR.WrittenAs(w[k], id);
      assert k == 1;
    }
    all := [(x.id, c.encode(Record(x))), (x.group, db[Store.ResultKey(FormatInt(x.group))])];
    forall r
      ensures r in all <==> r.0 in LP.ResultIds(db) && db[Store.ResultKey(FormatInt(r.0))] == r.1
    {}
  }

  lemma StoredDb(x: Case, c: Store.Codec)
    requires Usual(x) && x.req.groupID.Some?
    ensures var db := Store.ApplyAll(c, Stored(x));
      && Store.Lookup(db, Store.ResultKey(FormatInt(x.id))) == Some(c.encode(Record(x)))
      && Store.ResultKey(FormatInt(x.group)) in db
  {
    var w := Stored(x);
    assert w[..1] == Asked(x);
    if Store.ResultKey(FormatInt(x.id)) == Store.ResultKey(FormatInt(x.group)) {
      Store.ResultKeyInjective(x.id, x.group);
    }
    assert Store.ApplyAll(c, w) == Store.Apply(c, Store.ApplyAll(c, Asked(x)), w[1]);
  }

  lemma NewestIsListed(x: Case, c: Store.Codec) returns (items: seq<Listing.Item>)
    requires Usual(x) && x.req.groupID.Some? && |FormatInt(x.id)| == |FormatInt(x.group)|
    ensures LP.IsReverseScan(Store.ApplyAll(c, Stored(x)), items)
    ensures Listing.Respond(c, items, LP.Nth(0, None))
         == Listing.Listed([Listing.EntryOf(c, x.id, c.encode(Record(x)))])
  {
    var db := Store.ApplyAll(c, Stored(x));
    StoredIsReachable(x);
    SR.StoreIsListable(Heard(x), c);
    items := LO.ScanExists(db);
    var all := StoredListing(x, c);
    LP.EqualDigitsFit(LP.ResultIds(db), None);
    FirstListed(c, db, items, all);
  }

  lemma FirstListed(c: Store.Codec, db: Store.Db, items: seq<Listing.Item>, all: seq<Listing.Record>)
    requires LP.WellFormed(db) && LP.IsReverseScan(db, items) && LP.IsNumericListing(db, all)
    requires all != [] && LP.ListingFits(LP.ResultIds(db), None)
    ensures Listing.Respond(c, items, LP.Nth(0, None)) == Listing.Listed([Listing.EntryOf(c, all[0].0, all[0].1)])
  {
    LP.ListingIsNumeric(c, db, items, all, LP.Nth(0, None));
    FirstExpected(c, all);
  }

  lemma FirstExpected(c: Store.Codec, all: seq<Listing.Record>)
    requires all != []
    ensures LP.Expect(c, all, LP.Nth(0, None)) == Listing.Listed([Listing.EntryOf(c, all[0].0, all[0].1)])
  {
    LP.NthWanted(c, all, 0, None);
    LP.SelectAll(all, LP.NotAfter(None));
    assert LP.TakeN(LP.DropN(all, 0), 1) == [all[0]];
  }

  /**
   * For any node, request, plugin answer and clock readings with equally many digits there is such a run:
   * its record is what the request's group expands to and what the listing shows first, and it leads back
   * to the stored request.
   */
  lemma ARunStoresAResult(x: Case, c: Store.Codec, pretty: Expansion.Printer)
    returns (s: State, items: seq<Listing.Item>)
    requires Usual(x) && x.req.groupID.Some? && Store.ValidCodec(c) && |FormatInt(x.id)| == |FormatInt(x.group)|
    ensures Reachable(s) && s.writes == Stored(x)
    ensures Conveys(x.req, x.id, Task(x)) && NR.Reports(Task(x), x.run, Reply(x))
    ensures var db := Store.ApplyAll(c, s.writes);
      && Expansion.Expand(db, pretty, FormatInt(x.group), 1) == Expansion.PrintTask(c, pretty, Some(Record(x)))
      && Expansion.FetchRequest(c, db, FormatInt(x.id)) == Some(x.data)
      && LP.IsReverseScan(db, items)
      && Listing.Respond(c, items, LP.Nth(0, None))
           == Listing.Listed([Listing.EntryOf(c, x.id, c.encode(Record(x)))])
  {
    s := Heard(x);
    NR.DoTaskReports(Task(x), x.run);
    StoredIsReachable(x);
    StoredIds(x);
    GroupPrints(x, c, pretty);
    SR.StoreIsFaithful(s, c, pretty, x.group, 1);
    SR.RequestBehindResult(s, c, 1);
    assert SR.RequestFor(s.writes, 1, 0);
    items := NewestIsListed(x, c);
  }

  /** A reply to the spec collector ends up as a record from which no request is found. */
  lemma ARunStoresACollectedResult(x: Case, c: Store.Codec) returns (s: State)
    requires Usual(x) && x.req.groupID.None? && Store.ValidCodec(c)
    ensures Reachable(s) && s.writes == [Store.Result(x.node, Reply(x), true)]
    ensures Expansion.FetchRequest(c, Store.ApplyAll(c, s.writes), FormatInt(x.id)) == None
  {
    s := Heard(x);
    StoredIsReachable(x);
    SR.RequestBehindResult(s, c, 0);
  }
}
