/** A run in which a node answers before its caller's reply channel is recorded. */
module RoutingExample {
  import opened Common
  import opened Proto
  import opened Routing
  import D = Dispatch
  import L = Lifecycle

  const ME := L.AnnounceWriter(L.OfSession(0))

  /** One node connects, gets one task, and answers before the reply channel is recorded. */
  function Overtaking(node: string, req: TaskRequest, msg: TaskResponse): seq<Action> {
    [ Session(L.OpenStream(node)), Session(ME), Session(L.RegisterSession(0)), Session(L.FetchChannel(0)),
      NewForward(req, map[node := true]), StartSend((0, node)), TakeTask(0, (0, node)),
      SendToNode(0, msg.id), Receive(0, msg) ]
  }

  function ConnectedLife(node: string, sending: map<CallerId, nat>): L.State {
    L.State(D.Table(map[node := D.Open(0)], map[node := true]), 1, map[],
            [L.Life(node, L.Active, 0, Some(D.Open(0)), false, L.Receiving)], sending, None, false)
  }

  function Asked(req: TaskRequest, node: string): Forward {
    Forward(req, map[node := true], map[])
  }

  /** The session has fetched its channel. */
  function Listening(node: string): State {
    State(ConnectedLife(node, map[]), [FRESH_ROUTE], [], map[], map[])
  }

  function Requested(node: string, req: TaskRequest, pc: CallerPc, sending: map<CallerId, nat>, sender: Sender): State {
    State(ConnectedLife(node, sending), [FRESH_ROUTE.(sender := sender)], [Asked(req, node)],
          map[(0, node) := Caller(pc, [], [])], map[])
  }

  function Overtaken(node: string, req: TaskRequest, msg: TaskResponse): State {
    State(ConnectedLife(node, map[]),
          [FRESH_ROUTE.(sender := Recording(msg.id, (0, node)), inbox := Got(msg),
                        sent := [Forwarded(req, msg.id)], received := [msg])],
          [Asked(req, node)], map[(0, node) := Caller(Awaiting, [], [])], map[(0, node) := (0, msg.id)])
  }

  lemma RunCons(s: State, a: Action, rest: seq<Action>)
    requires Enabled(s, a) && CanRun(Next(s, a), rest)
    ensures CanRun(s, [a] + rest) && Run(s, [a] + rest) == Run(Next(s, a), rest)
  {
    assert ([a] + rest)[1..] == rest;
  }

  /** The session before it fetches its channel: opened, waiting for the lock, registered. */
  function Opened(node: string): State {
    var life := L.Life(node, L.Opening, 0, None, false, L.Receiving);
    State(L.State(D.EMPTY, 0, map[], [life], map[], None, false), [FRESH_ROUTE], [], map[], map[])
  }

  function Announced(node: string): State {
    Opened(node).(life := Opened(node).life.(pending := Some(L.OfSession(0))))
  }

  function Registered(node: string): State {
    var life := L.Life(node, L.Active, 0, None, false, L.Receiving);
    State(ConnectedLife(node, map[]).(lives := [life]), [FRESH_ROUTE], [], map[], map[])
  }

  lemma ConnectingSteps(node: string)
    ensures Next(INIT, Session(L.OpenStream(node))) == Opened(node)
    ensures Enabled(Opened(node), Session(ME)) && Next(Opened(node), Session(ME)) == Announced(node)
    ensures Enabled(Announced(node), Session(L.RegisterSession(0)))
    ensures Next(Announced(node), Session(L.RegisterSession(0))) == Registered(node)
    ensures Enabled(Registered(node), Session(L.FetchChannel(0)))
    ensures Next(Registered(node), Session(L.FetchChannel(0))) == Listening(node)
  {}

  /** Connecting: the first four steps. */
  lemma Connecting(node: string, rest: seq<Action>)
    requires CanRun(Listening(node), rest)
    ensures var actions :=
        [Session(L.OpenStream(node)), Session(ME), Session(L.RegisterSession(0)), Session(L.FetchChannel(0))] + rest;
      CanRun(INIT, actions) && Run(INIT, actions) == Run(Listening(node), rest)
  {
    var a1, a2 := Session(L.OpenStream(node)), Session(ME);
    var a3, a4 := Session(L.RegisterSession(0)), Session(L.FetchChannel(0));
    ConnectingSteps(node);
    RunCons(Registered(node), a4, rest);
    RunCons(Announced(node), a3, [a4] + rest);
    RunCons(Opened(node), a2, [a3] + ([a4] + rest));
    RunCons(INIT, a1, [a2] + ([a3] + ([a4] + rest)));
    assert [a1, a2, a3, a4] + rest == [a1] + ([a2] + ([a3] + ([a4] + rest)));
  }

  lemma Asking(node: string, req: TaskRequest)
    ensures Enabled(Listening(node), NewForward(req, map[node := true]))
    ensures Next(Listening(node), NewForward(req, map[node := true])) == Requested(node, req, Starting, map[], Ranging)
  {
    var s := Listening(node);
    var a := NewForward(req, map[node := true]);
    assert Connected(a.targets) == {node};
    assert NextCallers(s, a) == map[(0, node) := FRESH_CALLER];
    assert FreshForward(req, a.targets) == Asked(req, node);
  }

  lemma Handing(node: string, req: TaskRequest)
    ensures var c := (0, node);
      && Enabled(Requested(node, req, Starting, map[], Ranging), StartSend(c))
      && Next(Requested(node, req, Starting, map[], Ranging), StartSend(c))
           == Requested(node, req, Sending, map[c := 0], Ranging)
      && Enabled(Requested(node, req, Sending, map[c := 0], Ranging), TakeTask(0, c))
      && Next(Requested(node, req, Sending, map[c := 0], Ranging), TakeTask(0, c))
           == Requested(node, req, Awaiting, map[], Holding(c))
  {}

  /** The task was sent under this id, and its reply channel is not recorded yet. */
  function Dispatched(node: string, req: TaskRequest, id: int): State {
    var s := Requested(node, req, Awaiting, map[], Recording(id, (0, node)));
    s.(routes := [s.routes[0].(sent := [Forwarded(req, id)])], issued := map[(0, node) := (0, id)])
  }

  lemma Dispatching(node: string, req: TaskRequest, id: int)
    ensures var s := Requested(node, req, Awaiting, map[], Holding((0, node)));
      Enabled(s, SendToNode(0, id)) && Next(s, SendToNode(0, id)) == Dispatched(node, req, id)
  {
    assert FRESH_ROUTE.sent + [Forwarded(req, id)] == [Forwarded(req, id)];
    var s := Requested(node, req, Awaiting, map[], Holding((0, node)));
    assert Next(s, SendToNode(0, id)).routes == Dispatched(node, req, id).routes;
  }

  lemma Answering(node: string, req: TaskRequest, msg: TaskResponse)
    ensures Enabled(Dispatched(node, req, msg.id), Receive(0, msg))
    ensures Next(Dispatched(node, req, msg.id), Receive(0, msg)) == Overtaken(node, req, msg)
  {
    assert FRESH_ROUTE.received + [msg] == [msg];
    assert Next(Dispatched(node, req, msg.id), Receive(0, msg)).routes == Overtaken(node, req, msg).routes;
  }

  /** From the request on. */
  lemma AskedAndAnswered(node: string, req: TaskRequest, msg: TaskResponse)
    ensures var s := Requested(node, req, Starting, map[], Ranging);
      var actions := [StartSend((0, node)), TakeTask(0, (0, node)), SendToNode(0, msg.id), Receive(0, msg)];
      CanRun(s, actions) && Run(s, actions) == Overtaken(node, req, msg)
  {
    var c := (0, node);
    var s4 := Requested(node, req, Starting, map[], Ranging);
    var s5 := Requested(node, req, Sending, map[c := 0], Ranging);
    var s6 := Requested(node, req, Awaiting, map[], Holding(c));
    var rest := [Receive(0, msg)];
    Dispatching(node, req, msg.id);
    Answering(node, req, msg);
    Handing(node, req);
    RunCons(Dispatched(node, req, msg.id), rest[0], []);
    RunCons(s6, SendToNode(0, msg.id), rest);
    RunCons(s5, TakeTask(0, c), [SendToNode(0, msg.id)] + rest);
    RunCons(s4, StartSend(c), [TakeTask(0, c)] + ([SendToNode(0, msg.id)] + rest));
    assert [StartSend(c), TakeTask(0, c), SendToNode(0, msg.id), Receive(0, msg)]
        == [StartSend(c)] + ([TakeTask(0, c)] + ([SendToNode(0, msg.id)] + rest));
  }

  lemma OvertakenIsDropped(node: string, req: TaskRequest, msg: TaskResponse)
    ensures Enabled(Overtaken(node, req, msg), LookUp(0))
    ensures Next(Overtaken(node, req, msg), LookUp(0)).routes[0].inbox.Idle?
    ensures Next(Overtaken(node, req, msg), LookUp(0)).callers[(0, node)] == Caller(Awaiting, [], [])
  {}

  /** For every node, request and answer there is a run that ends with the answer before its channel. */
  lemma RepliesCanOvertake(node: string, req: TaskRequest, msg: TaskResponse)
    ensures IsRun(Overtaking(node, req, msg), Overtaken(node, req, msg))
    ensures Enabled(Overtaken(node, req, msg), LookUp(0))
    ensures Next(Overtaken(node, req, msg), LookUp(0)).routes[0].inbox.Idle?
    ensures Next(Overtaken(node, req, msg), LookUp(0)).callers[(0, node)] == Caller(Awaiting, [], [])
  {
    var tail := [StartSend((0, node)), TakeTask(0, (0, node)), SendToNode(0, msg.id), Receive(0, msg)];
    var ask := NewForward(req, map[node := true]);
    AskedAndAnswered(node, req, msg);
    Asking(node, req);
    RunCons(Listening(node), ask, tail);
    Connecting(node, [ask] + tail);
    assert Overtaking(node, req, msg) ==
      [Session(L.OpenStream(node)), Session(ME), Session(L.RegisterSession(0)), Session(L.FetchChannel(0))]
      + ([ask] + tail);
    OvertakenIsDropped(node, req, msg);
  }
}
