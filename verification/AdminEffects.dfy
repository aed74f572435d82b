/**
 * What handshakes and admin calls are for: whom they move where, whom they leave alone, and that each call,
 * undisturbed, is exactly its interleaved steps one after the other.
 */
module AdminEffects {
  import opened Common
  import opened Registry
  import opened RegistryProofs
  import opened RegistryEffects
  import opened Inventory
  import opened AdminCalls
  import Admission

  // ---------------------------------------------------------------- handshakes

  /** A handshake without auto-accept offers the node, and nothing else changes. */
  lemma HandshakeOffers(r: Registry, nd: Identity)
    requires !IsRegistered(r, nd) && nd !in r.rejected
    ensures var (r', response) := HandshakeCall(r, nd, false);
      && response == Denied && nd in r'.candidates
      && SameBindings(r, r') && r'.rejected == r.rejected
      && r'.candidates == if nd in r.candidates then r.candidates else r.candidates + [nd]
  {
    AddCandidateEffect(r, nd);
  }

  /** An accepted node is let in, a rejected one is turned away, and neither changes anything. */
  lemma HandshakeOfKnown(r: Registry, nd: Identity, autoAccept: bool)
    requires Inv(r)
    ensures IsRegistered(r, nd) ==> HandshakeCall(r, nd, autoAccept) == (r, Welcome)
    ensures !IsRegistered(r, nd) && nd in r.rejected ==>
      HandshakeCall(r, nd, autoAccept).0 == r && HandshakeCall(r, nd, autoAccept).1 != Welcome
  {
    AddCandidateEffect(r, nd);
    RegisterEffect(r, nd, false);
  }

  /** With auto-accept a new node is bound to its id at once, unless the id is taken: then it stays a candidate. */
  lemma HandshakeAdmits(r: Registry, nd: Identity)
    requires Inv(r) && !IsRegistered(r, nd) && nd !in r.rejected
    ensures var (r', response) := HandshakeCall(r, nd, true);
      if nd.id in r.accepted then
        response.Failed? && response.outcome.Rogue? && r' == HandshakeCall(r, nd, false).0
      else
        && r'.accepted == r.accepted[nd.id := nd] && r'.states == r.states && r'.rejected == r.rejected
        && multiset(r'.candidates) == multiset(r.candidates) - multiset{nd}
        && response == if nd in r.candidates then Failed(AlreadyCandidate) else Welcome
  {
    var r1 := AddCandidate(r, nd).0;
    if nd.id in r.accepted {
      NoDiffsIffEqual(r.accepted[nd.id], nd);
    } else {
      RegistersOffered(r1, nd);
      assert multiset(r.candidates + [nd]) == multiset(r.candidates) + multiset{nd};
    }
  }

  lemma RegistersOffered(r: Registry, nd: Identity)
    requires nd.id !in r.accepted && nd in r.candidates && nd !in r.rejected
    ensures Register(r, nd, false).1 == Ok
    ensures var r' := Register(r, nd, false).0;
      && r'.accepted == r.accepted[nd.id := nd] && r'.states == r.states && r'.rejected == r.rejected
      && multiset(r'.candidates) == multiset(r.candidates) - multiset{nd}
  {
    WithoutBag(r.candidates, nd);
  }

  // -------------------------------------------------------------------- accept

  /** The identity is meant: the id, and whatever else the caller gave. */
  predicate Meant(sel: Selector, nd: Identity) {
    && nd.id == sel.id
    && (sel.address == None || sel.address == Some(nd.address))
    && (sel.certificate == None || sel.certificate == Some(nd.certificate))
  }

  function Count(list: seq<Identity>, sel: Selector): nat {
    if list == [] then 0 else Bit(Meant(sel, list[0])) + Count(list[1..], sel)
  }

  lemma {:induction false} CountSnoc(list: seq<Identity>, nd: Identity, sel: Selector)
    ensures Count(list + [nd], sel) == Count(list, sel) + Bit(Meant(sel, nd))
    decreases |list|
  {
    if list == [] {
      assert [nd][1..] == [];
      assert list + [nd] == [nd];
    } else {
      assert (list + [nd])[1..] == list[1..] + [nd];
      CountSnoc(list[1..], nd, sel);
    }
  }

  lemma {:induction false} SelectedAreMeant(list: seq<Identity>, sel: Selector)
    ensures |Selected(sel, list)| == Count(list, sel)
    ensures forall nd :: nd in Selected(sel, list) <==> nd in list && Meant(sel, nd)
    decreases |list|
  {
    if list != [] {
      var init, last := list[..|list| - 1], list[|list| - 1];
      assert list == init + [last];
      SelectedAreMeant(init, sel);
      CountSnoc(init, last, sel);
    }
  }

  /** How many candidates and rejected nodes are meant. */
  function Matches(r: Registry, sel: Selector): nat {
    Count(r.candidates, sel) + Count(r.rejected, sel)
  }

  predicate IsListed(r: Registry, nd: Identity) {
    nd in r.candidates || nd in r.rejected
  }

  /**
   * Accepting succeeds exactly when just one candidate or rejected node is meant and its id is free. Then
   * this node is bound and off its list; otherwise the answer says what was wrong and nothing changes.
   */
  lemma AcceptMeaning(r: Registry, sel: Selector)
    ensures var (r', response) := AcceptCall(r, sel);
      && (response == NotListed <==> Matches(r, sel) == 0)
      && (response == TooManyMatches <==> Matches(r, sel) > 1)
      && (response.Accepted? <==> Matches(r, sel) == 1 && sel.id !in r.accepted)
      && (response.NotAccepted? <==> Matches(r, sel) == 1 && sel.id in r.accepted)
      && (response.Accepted? || response.NotAccepted? ==> Meant(sel, response.nd) && IsListed(r, response.nd))
      && (response.NotAccepted? ==>
            (response.outcome == AlreadyRegistered <==> r.accepted[sel.id] == response.nd)
            && (response.outcome.Rogue? <==> r.accepted[sel.id] != response.nd))
      && (response.Accepted? ==>
            && r'.accepted == r.accepted[sel.id := response.nd] && r'.states == r.states
            && multiset(r'.candidates) == multiset(r.candidates) - multiset{response.nd}
            && multiset(r'.rejected) == multiset(r.rejected) - multiset{response.nd})
      && (!response.Accepted? ==> r' == r)
  {
    SelectedAreMeant(r.candidates, sel);
    SelectedAreMeant(r.rejected, sel);
    var nodes := Selected(sel, r.candidates) + Selected(sel, r.rejected);
    if |nodes| == 1 {
      var nd := nodes[0];
      assert nd in nodes;
      OnlyOneList(r, sel, nd);
      RegisterEffect(r, nd, true);
    }
  }

  /** A node that is the only match is on just one of the lists. */
  lemma OnlyOneList(r: Registry, sel: Selector, nd: Identity)
    requires Matches(r, sel) == 1 && Meant(sel, nd) && IsListed(r, nd)
    ensures !(nd in r.candidates && nd in r.rejected)
  {
    SelectedAreMeant(r.candidates, sel);
    SelectedAreMeant(r.rejected, sel);
    if nd in r.candidates { assert nd in Selected(sel, r.candidates); }
    if nd in r.rejected { assert nd in Selected(sel, r.rejected); }
  }

  // --------------------------------------------------------- reject and remove

  /** The identity is where it was. */
  predicate Untouched(r: Registry, r': Registry, nd: Identity) {
    && (nd in r'.candidates <==> nd in r.candidates)
    && (nd in r'.rejected <==> nd in r.rejected)
    && (IsRegistered(r', nd) <==> IsRegistered(r, nd))
  }

  predicate Banned(r: Registry, nd: Identity) {
    nd in r.rejected && nd !in r.candidates && !IsRegistered(r, nd)
  }

  predicate Nowhere(r: Registry, nd: Identity) {
    nd !in r.rejected && nd !in r.candidates && !IsRegistered(r, nd)
  }

  lemma RejectLeavesOthers(r: Registry, nd: Identity, savedFirst: bool, saved: bool, other: Identity)
    requires other != nd
    ensures Untouched(r, Reject(r, nd, savedFirst, saved).0, other)
  {
    WithoutMembers(r.candidates, nd, other);
  }

  lemma RejectBans(r: Registry, nd: Identity, savedFirst: bool, saved: bool)
    requires Exclusive(r) && Reject(r, nd, savedFirst, saved).1 == Ok
    ensures Banned(Reject(r, nd, savedFirst, saved).0, nd)
  {
    WithoutOnce(r.candidates, nd);
  }

  lemma RejectOneEffect(p: Progress, nd: Identity, env: Env, other: Identity)
    requires Exclusive(p.reg)
    ensures var p' := RejectOne(p, nd, env);
      && (other != nd ==> Untouched(p.reg, p'.reg, other))
      && (IsRegistered(p.reg, nd) && !env.shutdownOk ==>
            p' == Progress(p.reg, p.processed, p.faults + [ShutdownFailed(nd)]))
      && (env.shutdownOk && env.savedFirst && env.saved ==>
            Banned(p'.reg, nd) && p'.processed == p.processed + [nd] && p'.faults == p.faults)
  {
    if other != nd { RejectLeavesOthers(p.reg, nd, env.savedFirst, env.saved, other); }
    var (r', outcome) := Reject(p.reg, nd, env.savedFirst, env.saved);
    if outcome == Ok { RejectBans(p.reg, nd, env.savedFirst, env.saved); }
  }

  lemma RemoveLeavesOthers(r: Registry, nd: Identity, savedFirst: bool, saved: bool, other: Identity)
    requires other != nd
    ensures Untouched(r, Remove(r, nd, savedFirst, saved).0, other)
  {
    WithoutMembers(r.candidates, nd, other);
    WithoutMembers(r.rejected, nd, other);
  }

  lemma RemoveClears(r: Registry, nd: Identity, savedFirst: bool, saved: bool)
    requires Exclusive(r) && Remove(r, nd, savedFirst, saved).1 == Ok
    ensures Nowhere(Remove(r, nd, savedFirst, saved).0, nd)
  {
    WithoutOnce(r.candidates, nd);
    WithoutOnce(r.rejected, nd);
  }

  lemma RemoveOneEffect(p: Progress, nd: Identity, env: Env, other: Identity)
    requires Exclusive(p.reg)
    ensures var p' := RemoveOne(p, nd, env);
      && (other != nd ==> Untouched(p.reg, p'.reg, other))
      && (env.savedFirst && env.saved ==>
            && Nowhere(p'.reg, nd) && p'.processed == p.processed + [nd]
            && p'.faults == if env.shutdownOk then p.faults else p.faults + [ShutdownFailed(nd)])
  {
    if other != nd { RemoveLeavesOthers(p.reg, nd, env.savedFirst, env.saved, other); }
    var (r', outcome) := Remove(p.reg, nd, env.savedFirst, env.saved);
    if outcome == Ok { RemoveClears(p.reg, nd, env.savedFirst, env.saved); }
  }

  /** Nothing fails around the call. */
  ghost predicate AllWell(env: nat -> Env) {
    forall i :: env(i).shutdownOk && env(i).savedFirst && env(i).saved
  }

  lemma {:induction false} RejectLoopLeavesOthers(
      r: Registry, nodes: seq<Identity>, n: nat, env: nat -> Env, nd: Identity)
    requires n <= |nodes| && nd !in nodes[..n]
    ensures Untouched(r, RejectFirst(r, nodes, n, env).reg, nd)
  {
    if n > 0 {
      assert nodes[..n] == nodes[..n - 1] + [nodes[n - 1]];
      RejectLoopLeavesOthers(r, nodes, n - 1, env, nd);
      var p := RejectFirst(r, nodes, n - 1, env);
      RejectLeavesOthers(p.reg, nodes[n - 1], env(n - 1).savedFirst, env(n - 1).saved, nd);
    }
  }

  lemma RejectOneWell(p: Progress, nd: Identity, env: Env)
    requires Exclusive(p.reg) && env.shutdownOk && env.savedFirst && env.saved
    ensures RejectOne(p, nd, env) == Progress(Reject(p.reg, nd, true, true).0, p.processed + [nd], p.faults)
    ensures Banned(RejectOne(p, nd, env).reg, nd)
  {
    RejectBans(p.reg, nd, true, true);
  }

  /** All nodes up to the n-th are dealt with. */
  ghost predicate RejectDone(p: Progress, nodes: seq<Identity>, n: nat)
    requires n <= |nodes|
  {
    p.processed == nodes[..n] && p.faults == [] && forall i | 0 <= i < n :: Banned(p.reg, nodes[i])
  }

  lemma RejectDoneStep(p: Progress, nodes: seq<Identity>, n: nat)
    requires 0 < n <= |nodes| && Exclusive(p.reg) && RejectDone(p, nodes, n - 1)
    requires Banned(Reject(p.reg, nodes[n - 1], true, true).0, nodes[n - 1])
    ensures RejectDone(
      Progress(Reject(p.reg, nodes[n - 1], true, true).0, p.processed + [nodes[n - 1]], p.faults), nodes, n)
  {
    assert nodes[..n] == nodes[..n - 1] + [nodes[n - 1]];
    forall i | 0 <= i < n - 1
      ensures Banned(Reject(p.reg, nodes[n - 1], true, true).0, nodes[i])
    {
      if nodes[i] != nodes[n - 1] { RejectLeavesOthers(p.reg, nodes[n - 1], true, true, nodes[i]); }
    }
  }

  lemma RejectOneMore(p: Progress, nodes: seq<Identity>, n: nat, env: Env)
    requires 0 < n <= |nodes| && Exclusive(p.reg) && RejectDone(p, nodes, n - 1)
    requires env.shutdownOk && env.savedFirst && env.saved
    ensures RejectDone(RejectOne(p, nodes[n - 1], env), nodes, n)
  {
    RejectOneWell(p, nodes[n - 1], env);
    RejectDoneStep(p, nodes, n);
  }

  lemma {:induction false} RejectLoopDone(r: Registry, nodes: seq<Identity>, n: nat, env: nat -> Env)
    requires n <= |nodes| && AllWell(env)
    requires forall m: nat | m <= |nodes| :: Exclusive(RejectFirst(r, nodes, m, env).reg)
    ensures RejectDone(RejectFirst(r, nodes, n, env), nodes, n)
  {
    if n > 0 {
      RejectLoopDone(r, nodes, n - 1, env);
      assert env(n - 1).shutdownOk;
      RejectOneMore(RejectFirst(r, nodes, n - 1, env), nodes, n, env(n - 1));
    }
  }

  lemma {:induction false} RemoveLoopLeavesOthers(
      r: Registry, nodes: seq<Identity>, n: nat, env: nat -> Env, nd: Identity)
    requires n <= |nodes| && nd !in nodes[..n]
    ensures Untouched(r, RemoveFirst(r, nodes, n, env).reg, nd)
  {
    if n > 0 {
      assert nodes[..n] == nodes[..n - 1] + [nodes[n - 1]];
      RemoveLoopLeavesOthers(r, nodes, n - 1, env, nd);
      var p := RemoveFirst(r, nodes, n - 1, env);
      RemoveLeavesOthers(p.reg, nodes[n - 1], env(n - 1).savedFirst, env(n - 1).saved, nd);
    }
  }

  lemma RemoveOneWell(p: Progress, nd: Identity, env: Env)
    requires Exclusive(p.reg) && env.shutdownOk && env.savedFirst && env.saved
    ensures RemoveOne(p, nd, env) == Progress(Remove(p.reg, nd, true, true).0, p.processed + [nd], p.faults)
    ensures Nowhere(RemoveOne(p, nd, env).reg, nd)
  {
    RemoveClears(p.reg, nd, true, true);
  }

  /** All nodes up to the n-th are dealt with. */
  ghost predicate RemoveDone(p: Progress, nodes: seq<Identity>, n: nat)
    requires n <= |nodes|
  {
    p.processed == nodes[..n] && p.faults == [] && forall i | 0 <= i < n :: Nowhere(p.reg, nodes[i])
  }

  lemma RemoveDoneStep(p: Progress, nodes: seq<Identity>, n: nat)
    requires 0 < n <= |nodes| && Exclusive(p.reg) && RemoveDone(p, nodes, n - 1)
    requires Nowhere(Remove(p.reg, nodes[n - 1], true, true).0, nodes[n - 1])
    ensures RemoveDone(
      Progress(Remove(p.reg, nodes[n - 1], true, true).0, p.processed + [nodes[n - 1]], p.faults), nodes, n)
  {
    assert nodes[..n] == nodes[..n - 1] + [nodes[n - 1]];
    forall i | 0 <= i < n - 1
      ensures Nowhere(Remove(p.reg, nodes[n - 1], true, true).0, nodes[i])
    {
      if nodes[i] != nodes[n - 1] { RemoveLeavesOthers(p.reg, nodes[n - 1], true, true, nodes[i]); }
    }
  }

  lemma RemoveOneMore(p: Progress, nodes: seq<Identity>, n: nat, env: Env)
    requires 0 < n <= |nodes| && Exclusive(p.reg) && RemoveDone(p, nodes, n - 1)
    requires env.shutdownOk && env.savedFirst && env.saved
    ensures RemoveDone(RemoveOne(p, nodes[n - 1], env), nodes, n)
  {
    RemoveOneWell(p, nodes[n - 1], env);
    RemoveDoneStep(p, nodes, n);
  }

  lemma {:induction false} RemoveLoopDone(r: Registry, nodes: seq<Identity>, n: nat, env: nat -> Env)
    requires n <= |nodes| && AllWell(env)
    requires forall m: nat | m <= |nodes| :: Exclusive(RemoveFirst(r, nodes, m, env).reg)
    ensures RemoveDone(RemoveFirst(r, nodes, n, env), nodes, n)
  {
    if n > 0 {
      RemoveLoopDone(r, nodes, n - 1, env);
      assert env(n - 1).shutdownOk;
      RemoveOneMore(RemoveFirst(r, nodes, n - 1, env), nodes, n, env(n - 1));
    }
  }

  /** A candidate or accepted node that the call means. */
  predicate MeantToReject(r: Registry, sel: Selector, nd: Identity) {
    Meant(sel, nd) && (nd in r.candidates || IsRegistered(r, nd))
  }

  predicate MeantToRemove(r: Registry, sel: Selector, nd: Identity) {
    Meant(sel, nd) && (nd in r.candidates || nd in r.rejected || IsRegistered(r, nd))
  }

  lemma AcceptedAreMeant(r: Registry, sel: Selector, nd: Identity)
    requires KeysMatch(r)
    ensures nd in SelectedAccepted(sel, r.accepted) <==> Meant(sel, nd) && IsRegistered(r, nd)
  {}

  /**
   * Whatever fails, a reject call leaves every node alone that it does not mean; and if nothing fails,
   * exactly the candidates and accepted nodes it means are rejected, and on no other list.
   */
  lemma RejectMeaning(r: Registry, sel: Selector, env: nat -> Env, nd: Identity)
    requires Exclusive(r)
    ensures var p := RejectFirst(r, ToReject(r, sel), |ToReject(r, sel)|, env);
      && (nd in ToReject(r, sel) <==> MeantToReject(r, sel, nd))
      && (!MeantToReject(r, sel, nd) ==> Untouched(r, p.reg, nd))
      && (AllWell(env) ==>
            && p.processed == ToReject(r, sel) && p.faults == []
            && (MeantToReject(r, sel, nd) ==> Banned(p.reg, nd)))
  {
    var nodes := ToReject(r, sel);
    SelectedAreMeant(r.candidates, sel);
    AcceptedAreMeant(r, sel, nd);
    ToRejectIsFresh(r, sel);
    if nd !in nodes { RejectLoopLeavesOthers(r, nodes, |nodes|, env, nd); }
    if AllWell(env) {
      forall m: nat | m <= |nodes|
        ensures Exclusive(RejectFirst(r, nodes, m, env).reg)
      {
        RejectLoopKeepsExclusive(r, nodes, m, env);
      }
      RejectLoopDone(r, nodes, |nodes|, env);
      if nd in nodes {
        var i :| 0 <= i < |nodes| && nodes[i] == nd;
        assert Banned(RejectFirst(r, nodes, |nodes|, env).reg, nodes[i]);
      }
    }
    assert nodes[..|nodes|] == nodes;
  }

  lemma ToRemoveIsDistinct(r: Registry, sel: Selector)
    requires Exclusive(r)
    ensures NoDuplicates(ToRemove(r, sel))
  {
    ToRejectIsFresh(r, sel);
    var banned, rest := Selected(sel, r.rejected), ToReject(r, sel);
    assert ToRemove(r, sel) == banned + rest;
    forall i, j | 0 <= i < j < |banned + rest|
      ensures (banned + rest)[i] != (banned + rest)[j]
    {
      if i < |banned| <= j { assert banned[i] in banned && rest[j - |banned|] in rest; }
    }
  }

  /** Likewise a remove call: the nodes it means are on no list any more, all others are where they were. */
  lemma RemoveMeaning(r: Registry, sel: Selector, env: nat -> Env, nd: Identity)
    requires Exclusive(r)
    ensures var p := RemoveFirst(r, ToRemove(r, sel), |ToRemove(r, sel)|, env);
      && (nd in ToRemove(r, sel) <==> MeantToRemove(r, sel, nd))
      && (!MeantToRemove(r, sel, nd) ==> Untouched(r, p.reg, nd))
      && (AllWell(env) ==>
            && p.processed == ToRemove(r, sel) && p.faults == []
            && (MeantToRemove(r, sel, nd) ==> Nowhere(p.reg, nd)))
  {
    var nodes := ToRemove(r, sel);
    SelectedAreMeant(r.candidates, sel);
    SelectedAreMeant(r.rejected, sel);
    AcceptedAreMeant(r, sel, nd);
    ToRemoveIsDistinct(r, sel);
    if nd !in nodes { RemoveLoopLeavesOthers(r, nodes, |nodes|, env, nd); }
    if AllWell(env) {
      forall m: nat | m <= |nodes|
        ensures Exclusive(RemoveFirst(r, nodes, m, env).reg)
      {
        RemoveLoopKeepsExclusive(r, nodes, m, env);
      }
      RemoveLoopDone(r, nodes, |nodes|, env);
      if nd in nodes {
        var i :| 0 <= i < |nodes| && nodes[i] == nd;
        assert Nowhere(RemoveFirst(r, nodes, |nodes|, env).reg, nodes[i]);
      }
    }
    assert nodes[..|nodes|] == nodes;
  }

  // ------------------------------------------------------ calls and their steps

  /** One call on its own. */
  function Alone(r: Registry, p: Admission.Proc, autoAccept: bool): Admission.System {
    Admission.System(r, [p], autoAccept)
  }

  /** The steps of one call, undisturbed, lead from one state to another. */
  ghost predicate Leads(r: Registry, p: Admission.Proc, r': Registry, p': Admission.Proc, autoAccept: bool) {
    exists actions :: LeadsBy(r, p, r', p', autoAccept, actions)
  }

  ghost predicate LeadsBy(
      r: Registry, p: Admission.Proc, r': Registry, p': Admission.Proc, autoAccept: bool,
      actions: seq<Admission.Action>)
  {
    && (forall i | 0 <= i < |actions| :: actions[i].Step?)
    && Admission.CanRun(Alone(r, p, autoAccept), actions)
    && Admission.Run(Alone(r, p, autoAccept), actions) == Alone(r', p', autoAccept)
  }

  lemma There(r: Registry, p: Admission.Proc, autoAccept: bool)
    ensures Leads(r, p, r, p, autoAccept)
  {
    assert LeadsBy(r, p, r, p, autoAccept, []);
  }

  /** What one step does to the registry. */
  function After(r: Registry, p: Admission.Proc, env: Env): Registry {
    match Admission.OpOf(p, env) case Some(op) => Apply(r, op).0 case None => r
  }

  lemma OneStep(r: Registry, p: Admission.Proc, env: Env, autoAccept: bool, r': Registry, p': Admission.Proc)
    requires !p.Finished?
    requires Leads(After(r, p, env), Admission.Advance(r, p, autoAccept, env), r', p', autoAccept)
    ensures Leads(r, p, r', p', autoAccept)
  {
    var r1, p1 := After(r, p, env), Admission.Advance(r, p, autoAccept, env);
    var rest :| LeadsBy(r1, p1, r', p', autoAccept, rest);
    var a := Admission.Step(0, env);
    assert [p][0 := p1] == [p1];
    assert Admission.Next(Alone(r, p, autoAccept), a) == Alone(r1, p1, autoAccept);
    Admission.RunCons(Alone(r, p, autoAccept), a, rest);
    assert LeadsBy(r, p, r', p', autoAccept, [a] + rest);
  }

  const CALM := Admission.Env(true, true, true)

  /** A handshake that nobody disturbs ends in the registry that the call gives. */
  lemma HandshakeIsItsSteps(r: Registry, nd: Identity, autoAccept: bool)
    ensures Leads(r, Admission.Begin(Admission.Handshake(nd)),
                  HandshakeCall(r, nd, autoAccept).0, Admission.Finished, autoAccept)
  {
    var r' := HandshakeCall(r, nd, autoAccept).0;
    There(r', Admission.Finished, autoAccept);
    if !IsRegistered(r, nd) {
      var r1 := AddCandidate(r, nd).0;
      if autoAccept {
        OneStep(r1, Admission.AutoRegister(nd), CALM, autoAccept, r', Admission.Finished);
      }
      OneStep(r, Admission.Offer(nd), CALM, autoAccept, r', Admission.Finished);
    }
    OneStep(r, Admission.CheckRegistered(nd), CALM, autoAccept, r', Admission.Finished);
  }

  lemma AcceptIsItsSteps(r: Registry, sel: Selector, autoAccept: bool)
    ensures Leads(r, Admission.Begin(Admission.AcceptNode(sel)), AcceptCall(r, sel).0, Admission.Finished, autoAccept)
  {
    var r' := AcceptCall(r, sel).0;
    var found := Selected(sel, r.candidates);
    var nodes := found + Selected(sel, r.rejected);
    There(r', Admission.Finished, autoAccept);
    if |nodes| == 1 {
      OneStep(r, Admission.AcceptRegister(nodes[0]), CALM, autoAccept, r', Admission.Finished);
    }
    OneStep(r, Admission.AcceptLookupRejected(sel, found), CALM, autoAccept, r', Admission.Finished);
    OneStep(r, Admission.AcceptLookup(sel), CALM, autoAccept, r', Admission.Finished);
  }

  lemma RejectCommits(
      p: Progress, todo: seq<Identity>, env: Env, autoAccept: bool, r': Registry, p': Admission.Proc)
    requires todo != [] && (IsRegistered(p.reg, todo[0]) ==> env.shutdownOk)
    requires Leads(RejectOne(p, todo[0], env).reg, Admission.RejectNext(todo[1..]), r', p', autoAccept)
    ensures Leads(p.reg, Admission.RejectCommit(todo), r', p', autoAccept)
  {
    OneStep(p.reg, Admission.RejectCommit(todo), env, autoAccept, r', p');
  }

  lemma RejectOneIsItsSteps(
      p: Progress, todo: seq<Identity>, env: Env, autoAccept: bool, r': Registry, p': Admission.Proc)
    requires todo != []
    requires Leads(RejectOne(p, todo[0], env).reg, Admission.RejectNext(todo[1..]), r', p', autoAccept)
    ensures Leads(p.reg, Admission.RejectNext(todo), r', p', autoAccept)
  {
    if !IsRegistered(p.reg, todo[0]) || env.shutdownOk { RejectCommits(p, todo, env, autoAccept, r', p'); }
    if IsRegistered(p.reg, todo[0]) {
      OneStep(p.reg, Admission.RejectShutdown(todo), env, autoAccept, r', p');
    }
    OneStep(p.reg, Admission.RejectNext(todo), env, autoAccept, r', p');
  }

  lemma {:induction false} RejectLoopIsItsSteps(
      r: Registry, nodes: seq<Identity>, n: nat, env: nat -> Env, autoAccept: bool)
    requires n <= |nodes|
    ensures Leads(RejectFirst(r, nodes, n, env).reg, Admission.RejectNext(nodes[n..]),
                  RejectFirst(r, nodes, |nodes|, env).reg, Admission.Finished, autoAccept)
    decreases |nodes| - n
  {
    var r', todo := RejectFirst(r, nodes, |nodes|, env).reg, nodes[n..];
    if n == |nodes| {
      There(r', Admission.Finished, autoAccept);
      OneStep(r', Admission.RejectNext(todo), CALM, autoAccept, r', Admission.Finished);
    } else {
      RejectLoopIsItsSteps(r, nodes, n + 1, env, autoAccept);
      assert todo[0] == nodes[n] && todo[1..] == nodes[n + 1..];
      RejectOneIsItsSteps(RejectFirst(r, nodes, n, env), todo, env(n), autoAccept, r', Admission.Finished);
    }
  }

  /** And so does a reject call, whatever fails in it. */
  lemma RejectIsItsSteps(r: Registry, sel: Selector, env: nat -> Env, autoAccept: bool)
    ensures Leads(r, Admission.Begin(Admission.RejectNode(sel)),
                  Effect(r, RejectC(sel, env)), Admission.Finished, autoAccept)
  {
    var nodes := ToReject(r, sel);
    var r' := Effect(r, RejectC(sel, env));
    RejectLoopIsItsSteps(r, nodes, 0, env, autoAccept);
    assert nodes[0..] == nodes;
    var found := Selected(sel, r.candidates);
    OneStep(r, Admission.RejectLookupAccepted(sel, found), CALM, autoAccept, r', Admission.Finished);
    OneStep(r, Admission.RejectLookup(sel), CALM, autoAccept, r', Admission.Finished);
  }

  lemma RemoveOneIsItsStep(
      p: Progress, todo: seq<Identity>, env: Env, autoAccept: bool, r': Registry, p': Admission.Proc)
    requires todo != []
    requires Leads(RemoveOne(p, todo[0], env).reg, Admission.RemoveNext(todo[1..]), r', p', autoAccept)
    ensures Leads(p.reg, Admission.RemoveNext(todo), r', p', autoAccept)
  {
    OneStep(p.reg, Admission.RemoveNext(todo), env, autoAccept, r', p');
  }

  lemma {:induction false} RemoveLoopIsItsSteps(
      r: Registry, nodes: seq<Identity>, n: nat, env: nat -> Env, autoAccept: bool)
    requires n <= |nodes|
    ensures Leads(RemoveFirst(r, nodes, n, env).reg, Admission.RemoveNext(nodes[n..]),
                  RemoveFirst(r, nodes, |nodes|, env).reg, Admission.Finished, autoAccept)
    decreases |nodes| - n
  {
    var r', todo := RemoveFirst(r, nodes, |nodes|, env).reg, nodes[n..];
    if n == |nodes| {
      There(r', Admission.Finished, autoAccept);
      OneStep(r', Admission.RemoveNext(todo), CALM, autoAccept, r', Admission.Finished);
    } else {
      RemoveLoopIsItsSteps(r, nodes, n + 1, env, autoAccept);
      assert todo[0] == nodes[n] && todo[1..] == nodes[n + 1..];
      RemoveOneIsItsStep(RemoveFirst(r, nodes, n, env), todo, env(n), autoAccept, r', Admission.Finished);
    }
  }

  /** And a remove call. */
  lemma RemoveIsItsSteps(r: Registry, sel: Selector, env: nat -> Env, autoAccept: bool)
    ensures Leads(r, Admission.Begin(Admission.RemoveNode(sel)),
                  Effect(r, RemoveC(sel, env)), Admission.Finished, autoAccept)
  {
    var r' := Effect(r, RemoveC(sel, env));
    RemoveLoopIsItsSteps(r, ToRemove(r, sel), 0, env, autoAccept);
    assert ToRemove(r, sel)[0..] == ToRemove(r, sel);
    LookingUp(r, sel, autoAccept, r', Admission.Finished);
  }

  /** The three lookups of a remove call. */
  lemma LookingUp(r: Registry, sel: Selector, autoAccept: bool, r': Registry, p': Admission.Proc)
    requires Leads(r, Admission.RemoveNext(ToRemove(r, sel)), r', p', autoAccept)
    ensures Leads(r, Admission.RemoveLookup(sel), r', p', autoAccept)
  {
    var accepted, candidates := SelectedAccepted(sel, r.accepted), Selected(sel, r.candidates);
    OneStep(r, Admission.RemoveLookupRejected(sel, accepted, candidates), CALM, autoAccept, r', p');
    OneStep(r, Admission.RemoveLookupCandidates(sel, accepted), CALM, autoAccept, r', p');
    OneStep(r, Admission.RemoveLookup(sel), CALM, autoAccept, r', p');
  }
}
