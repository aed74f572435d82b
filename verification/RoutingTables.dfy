/**
 * Which replies reach their callers: what the table from ids to reply channels holds in every reachable
 * state.
 */
module RoutingTables {
  import opened Common
  import opened Proto
  import opened Routing
  import opened RoutingProofs

  // ---------------------------------------------------------------- invariant

  predicate IssuedOn(issued: Issued, i: nat, id: int) {
    exists c | c in issued :: issued[c] == (i, id)
  }

  /** Only recorded ids are cleaned up or deleted, and each of them was issued on this session. */
  ghost predicate Ledger(i: nat, r: Route, issued: Issued) {
    && (forall id | id in r.cleanups || id in r.removed :: IssuedOn(issued, i, id))
    && (r.inbox.Deleting? ==> IssuedOn(issued, i, r.inbox.id))
    && (r.sender.Recording? ==>
          && r.sender.id !in r.cleanups && r.sender.id !in r.removed
          && r.inbox != Deleting(r.sender.id))
  }

  /** Caller c's reply channel is in the table once it was recorded, until its entry is removed. */
  predicate TableSays(i: nat, r: Route, issued: Issued, c: CallerId)
    requires c in issued
  {
    var id := issued[c].1;
    issued[c].0 == i ==> (id in r.replies <==> r.sender != Recording(id, c) && id !in r.removed)
  }

  ghost predicate TableOk(i: nat, r: Route, issued: Issued) {
    Ledger(i, r, issued) && forall c | c in issued :: TableSays(i, r, issued, c)
  }

  ghost predicate TablesOk(s: State) {
    forall i | 0 <= i < |s.routes| :: TableOk(i, s.routes[i], s.issued)
  }

  // ------------------------------------------------------------- preservation

  lemma IssuedOnStays(issued: Issued, issued': Issued, i: nat, id: int)
    requires IssuedOn(issued, i, id)
    requires forall c | c in issued :: c in issued' && issued'[c] == issued[c]
    ensures IssuedOn(issued', i, id)
  {
    var c :| c in issued && issued[c] == (i, id);
    assert c in issued' && issued'[c] == (i, id);
  }

  lemma IssuedOnIsUsed(issued: Issued, i: nat, id: int)
    requires IssuedOn(issued, i, id)
    ensures Used(issued, id)
  {
    var c :| c in issued && issued[c] == (i, id);
    assert issued[c].1 == id;
  }

  /** A task sent on another session leaves the table as it is. */
  lemma ElsewhereKeepsTable(i: nat, r: Route, issued: Issued, c: CallerId, entry: (nat, int))
    requires TableOk(i, r, issued) && c !in issued && entry.0 != i
    ensures TableOk(i, r, issued[c := entry])
  {
    var issued' := issued[c := entry];
    forall id | IssuedOn(issued, i, id)
      ensures IssuedOn(issued', i, id)
    {
      IssuedOnStays(issued, issued', i, id);
    }
    forall d | d in issued'
      ensures TableSays(i, r, issued', d)
    {
      if d != c { assert TableSays(i, r, issued, d); }
    }
  }

  lemma SendKeepsTable(i: nat, r: Route, r': Route, node: string, callers: Callers, issued: Issued, id: int)
    requires TableOk(i, r, issued) && RouteOk(i, r, node, callers, issued)
    requires r.sender.Holding? && !Used(issued, id)
    requires r' == r.(sender := Recording(id, r.sender.c), sent := r'.sent)
    ensures TableOk(i, r', issued[r.sender.c := (i, id)])
  {
    var c := r.sender.c;
    var issued' := issued[c := (i, id)];
    RepliesAreUsed(i, r, node, callers, issued);
    forall k | IssuedOn(issued, i, k)
      ensures IssuedOn(issued', i, k) && k != id
    {
      IssuedOnStays(issued, issued', i, k);
      IssuedOnIsUsed(issued, i, k);
    }
    forall d | d in issued'
      ensures TableSays(i, r', issued', d)
    {
      if d != c { assert TableSays(i, r, issued, d); }
    }
  }

  lemma RecordKeepsTable(i: nat, r: Route, r': Route, issued: Issued)
    requires TableOk(i, r, issued) && Injective(issued)
    requires r.sender.Recording? && SentAs(issued, r.sender.c, i, r.sender.id)
    requires r' == r.(sender := Ranging, replies := r.replies[r.sender.id := r.sender.c],
                      cleanups := r.cleanups + {r.sender.id})
    ensures TableOk(i, r', issued)
  {
    assert issued[r.sender.c] == (i, r.sender.id);
    assert IssuedOn(issued, i, r.sender.id);
    forall d | d in issued
      ensures TableSays(i, r', issued, d)
    {
      assert TableSays(i, r, issued, d);
    }
  }

  /** Removing the entry of an id that is not being recorded, and remembering that. */
  lemma RemoveKeepsTable(i: nat, r: Route, r': Route, issued: Issued, id: int)
    requires TableOk(i, r, issued) && IssuedOn(issued, i, id)
    requires r.sender.Recording? ==> r.sender.id != id
    requires r' == r.(inbox := r'.inbox, replies := r.replies - {id}, cleanups := r'.cleanups,
                      removed := r.removed + {id})
    requires r'.cleanups <= r.cleanups && (r'.inbox == r.inbox || r'.inbox.Idle?)
    ensures TableOk(i, r', issued)
  {
    forall d | d in issued
      ensures TableSays(i, r', issued, d)
    {
      assert TableSays(i, r, issued, d);
    }
  }

  /** Steps that leave the table and the ids being recorded alone. */
  lemma SameTable(i: nat, r: Route, r': Route, issued: Issued)
    requires TableOk(i, r, issued)
    requires r'.replies == r.replies && r'.cleanups == r.cleanups && r'.removed == r.removed
    requires r'.sender == r.sender || (!r.sender.Recording? && !r'.sender.Recording?)
    requires r'.inbox.Deleting? ==> IssuedOn(issued, i, r'.inbox.id)
    requires r'.inbox.Deleting? && r'.sender.Recording? ==> r'.inbox.id != r'.sender.id
    ensures TableOk(i, r', issued)
  {
    forall d | d in issued
      ensures TableSays(i, r', issued, d)
    {
      assert TableSays(i, r, issued, d);
    }
  }

  /** The id of a message being delivered was issued here and is not the one being recorded. */
  lemma DeliveringIsNotRecording(i: nat, r: Route, node: string, callers: Callers, issued: Issued)
    requires RouteOk(i, r, node, callers, issued) && Injective(issued) && r.inbox.Delivering?
    ensures IssuedOn(issued, i, r.inbox.msg.id)
    ensures r.sender.Recording? ==> r.sender.id != r.inbox.msg.id
  {
    assert issued[r.inbox.c] == (i, r.inbox.msg.id);
  }

  lemma OwnTableStep(s: State, a: Action, i: nat)
    requires RoutesOk(s) && Injective(s.issued) && TablesOk(s) && Enabled(s, a) && i < |s.routes| && ActsOn(a, i)
    ensures TableOk(i, NextRoutes(s, a)[i], NextIssued(s, a))
  {
    var r, r', node := s.routes[i], NextRoutes(s, a)[i], s.life.lives[i].node;
    assert RouteOk(i, r, node, s.callers, s.issued) && TableOk(i, r, s.issued);
    if a.SendToNode? {
      SendKeepsTable(i, r, r', node, s.callers, s.issued, a.id);
    } else if a.RecordReply? {
      RecordKeepsTable(i, r, r', s.issued);
    } else if a.CleanUp? {
      RemoveKeepsTable(i, r, r', s.issued, a.id);
    } else if a.DeleteEntry? {
      RemoveKeepsTable(i, r, r', s.issued, r.inbox.id);
    } else {
      if r.inbox.Delivering? { DeliveringIsNotRecording(i, r, node, s.callers, s.issued); }
      SameTable(i, r, r', s.issued);
    }
  }

  lemma OtherTable(s: State, a: Action, i: nat)
    requires Inv(s) && TablesOk(s) && Enabled(s, a) && i < |s.routes| && !ActsOn(a, i)
    ensures TableOk(i, s.routes[i], NextIssued(s, a))
  {
    if a.SendToNode? {
      assert RouteOk(a.i, s.routes[a.i], s.life.lives[a.i].node, s.callers, s.issued);
      ElsewhereKeepsTable(i, s.routes[i], s.issued, s.routes[a.i].sender.c, (a.i, a.id));
    }
  }

  lemma FreshTable(s: State)
    requires RoutesOk(s) && IssuesOk(s)
    ensures TableOk(|s.routes|, FRESH_ROUTE, s.issued)
  {
    forall c | c in s.issued
      ensures TableSays(|s.routes|, FRESH_ROUTE, s.issued, c)
    {
      assert IssueOk(s, c);
    }
  }

  lemma TablesKept(s: State, a: Action)
    requires Inv(s) && TablesOk(s) && Enabled(s, a)
    ensures TablesOk(Next(s, a))
  {
    forall i | 0 <= i < |NextRoutes(s, a)|
      ensures TableOk(i, NextRoutes(s, a)[i], NextIssued(s, a))
    {
      if i >= |s.routes| {
        NewRoute(s, a, i);
        FreshTable(s);
      } else if ActsOn(a, i) {
        OwnTableStep(s, a, i);
      } else {
        OtherRoute(s, a, i);
        OtherTable(s, a, i);
      }
    }
  }

  lemma NewRoute(s: State, a: Action, i: nat)
    requires Enabled(s, a) && |s.routes| <= i < |NextRoutes(s, a)|
    ensures i == |s.routes| && NextRoutes(s, a)[i] == FRESH_ROUTE && NextIssued(s, a) == s.issued
  {}

  lemma {:induction false} RunKeepsTables(s: State, actions: seq<Action>)
    requires Inv(s) && TablesOk(s) && CanRun(s, actions)
    ensures TablesOk(Run(s, actions))
    decreases |actions|
  {
    if actions != [] {
      StepKeepsInv(s, actions[0]);
      TablesKept(s, actions[0]);
      RunKeepsTables(Next(s, actions[0]), actions[1..]);
    }
  }

  lemma ReachableTables(s: State)
    requires Reachable(s)
    ensures Inv(s) && TablesOk(s)
  {
    ReachableInv(s);
    var actions :| IsRun(actions, s);
    RunKeepsTables(INIT, actions);
  }

  // ------------------------------------------------------------------- results

  /** The reply's channel is in the table: recorded already and not yet removed. */
  predicate InTime(r: Route, id: int, c: CallerId) {
    r.sender != Recording(id, c) && id !in r.removed
  }

  /**
   * A message is handed to a caller if and only if it carries the id that this session gave the caller's
   * task, its channel was recorded before the message was looked up, and its entry was removed neither by
   * the delayed cleanup nor after an earlier message with this id.
   */
  lemma HandedOverIffInTime(s: State, i: nat, c: CallerId)
    requires Reachable(s) && Enabled(s, LookUp(i))
    ensures var r, msg := s.routes[i], s.routes[i].inbox.msg;
      Next(s, LookUp(i)).routes[i].inbox == Delivering(msg, c) <==>
        SentAs(s.issued, c, i, msg.id) && InTime(r, msg.id, c)
  {
    ReachableTables(s);
    var r, msg := s.routes[i], s.routes[i].inbox.msg;
    assert RouteOk(i, r, s.life.lives[i].node, s.callers, s.issued) && TableOk(i, r, s.issued);
    if msg.id in r.replies { assert EntryOk(i, r, msg.id, s.callers, s.issued); }
    if SentAs(s.issued, c, i, msg.id) { assert TableSays(i, r, s.issued, c); }
  }

  /** A message that is handed to nobody changes nothing but the inbox. */
  lemma DroppedWithoutTrace(s: State, i: nat)
    requires Reachable(s) && Enabled(s, LookUp(i))
    requires var r, id := s.routes[i], s.routes[i].inbox.msg.id;
      forall c :: !(SentAs(s.issued, c, i, id) && InTime(r, id, c))
    ensures Next(s, LookUp(i)) == s.(routes := s.routes[i := s.routes[i].(inbox := Idle)])
  {
    ReachableTables(s);
    var r, msg := s.routes[i], s.routes[i].inbox.msg;
    assert RouteOk(i, r, s.life.lives[i].node, s.callers, s.issued);
    if msg.id in r.replies {
      assert EntryOk(i, r, msg.id, s.callers, s.issued);
      HandedOverIffInTime(s, i, r.replies[msg.id]);
    }
  }

  /** One reply uses up the entry, also a mere notice that the task overran: whatever comes next is dropped. */
  lemma OnlyTheFirstReplyCounts(s: State, i: nat, c: CallerId)
    requires Reachable(s) && Enabled(s, LookUp(i))
    requires SentAs(s.issued, c, i, s.routes[i].inbox.msg.id) && c in s.callers && s.callers[c].delivered != []
    ensures Next(s, LookUp(i)).routes[i].inbox.Idle?
  {
    ReachableInv(s);
    NoEntryOnceServed(i, s.routes[i], s.life.lives[i].node, s.callers, s.issued, c);
  }

  lemma NoEntryOnceServed(i: nat, r: Route, node: string, callers: Callers, issued: Issued, c: CallerId)
    requires RouteOk(i, r, node, callers, issued) && Injective(issued) && r.inbox.Got?
    requires SentAs(issued, c, i, r.inbox.msg.id) && c in callers && callers[c].delivered != []
    ensures r.inbox.msg.id !in r.replies
  {
    assert r.inbox.msg.id in r.replies ==> EntryOk(i, r, r.inbox.msg.id, callers, issued);
  }

  /** Removed ids stay removed. */
  lemma {:induction false} RemovedForever(s: State, actions: seq<Action>, i: nat, id: int)
    requires CanRun(s, actions) && i < |s.routes| && id in s.routes[i].removed
    ensures i < |Run(s, actions).routes| && id in Run(s, actions).routes[i].removed
    decreases |actions|
  {
    if actions != [] {
      RemovedStays(s, actions[0], i, id);
      RemovedForever(Next(s, actions[0]), actions[1..], i, id);
    }
  }

  lemma RemovedStays(s: State, a: Action, i: nat, id: int)
    requires Enabled(s, a) && i < |s.routes| && id in s.routes[i].removed
    ensures i < |NextRoutes(s, a)| && id in NextRoutes(s, a)[i].removed
  {}
}
