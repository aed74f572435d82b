/**
 * The handshake and the admin calls run from start to end with no other call in between: methods over the
 * registry object, and the proof that such calls keep every identity in at most one list.
 */
module AdminCalls {
  import opened Common
  import opened Registry
  import opened RegistryProofs
  import opened Inventory
  import Admission

  type Env = Admission.Env

  datatype HandshakeResponse = Welcome | Denied | Failed(outcome: Outcome)

  datatype AcceptResponse =
    | NotListed
    | TooManyMatches
    | Accepted(nd: Identity)
    | NotAccepted(nd: Identity, outcome: Outcome)

  datatype Fault = ShutdownFailed(nd: Identity) | RegistryFault(nd: Identity, outcome: Outcome)

  /** Progress of a loop over matching nodes: the registry, the nodes dealt with and the errors so far. */
  datatype Progress = Progress(reg: Registry, processed: seq<Identity>, faults: seq<Fault>)

  // ----------------------------------------------------------- specifications

  function HandshakeCall(r: Registry, nd: Identity, autoAccept: bool): (Registry, HandshakeResponse) {
    if IsRegistered(r, nd) then (r, Welcome)
    else
      var (r1, offered) := AddCandidate(r, nd);
      if !autoAccept then (r1, Denied)
      else
        var (r2, outcome) := Register(r1, nd, false);
        // The error of the offer outlives a registration that succeeds.
        (r2, if outcome != Ok then Failed(outcome) else if offered != Ok then Failed(offered) else Welcome)
  }

  function AcceptCall(r: Registry, sel: Selector): (Registry, AcceptResponse) {
    var nodes := Selected(sel, r.candidates) + Selected(sel, r.rejected);
    if |nodes| == 0 then (r, NotListed)
    else if |nodes| > 1 then (r, TooManyMatches)
    else
      var (r1, outcome) := Register(r, nodes[0], true);
      (r1, if outcome == Ok then Accepted(nodes[0]) else NotAccepted(nodes[0], outcome))
  }

  function RejectOne(p: Progress, nd: Identity, env: Env): Progress {
    if IsRegistered(p.reg, nd) && !env.shutdownOk then
      p.(faults := p.faults + [ShutdownFailed(nd)])
    else
      var (r, outcome) := Reject(p.reg, nd, env.savedFirst, env.saved);
      if outcome == Ok then p.(reg := r, processed := p.processed + [nd])
      else p.(reg := r, faults := p.faults + [RegistryFault(nd, outcome)])
  }

  function RemoveOne(p: Progress, nd: Identity, env: Env): Progress {
    var faults := if env.shutdownOk then p.faults else p.faults + [ShutdownFailed(nd)];
    var (r, outcome) := Remove(p.reg, nd, env.savedFirst, env.saved);
    if outcome == Ok then Progress(r, p.processed + [nd], faults)
    else Progress(r, p.processed, faults + [RegistryFault(nd, outcome)])
  }

  function RejectFirst(r: Registry, nodes: seq<Identity>, n: nat, env: nat -> Env): Progress
    requires n <= |nodes|
  {
    if n == 0 then Progress(r, [], [])
    else RejectOne(RejectFirst(r, nodes, n - 1, env), nodes[n - 1], env(n - 1))
  }

  function RemoveFirst(r: Registry, nodes: seq<Identity>, n: nat, env: nat -> Env): Progress
    requires n <= |nodes|
  {
    if n == 0 then Progress(r, [], [])
    else RemoveOne(RemoveFirst(r, nodes, n - 1, env), nodes[n - 1], env(n - 1))
  }

  function ToReject(r: Registry, sel: Selector): seq<Identity> {
    Selected(sel, r.candidates) + SelectedAccepted(sel, r.accepted)
  }

  function ToRemove(r: Registry, sel: Selector): seq<Identity> {
    Selected(sel, r.rejected) + Selected(sel, r.candidates) + SelectedAccepted(sel, r.accepted)
  }

  // ------------------------------------------------------------------ methods

  method Handshake(inv: Nodes, nd: Identity, autoAccept: bool) returns (response: HandshakeResponse)
    requires inv.Valid()
    modifies inv
    ensures inv.Valid()
    ensures (inv.View(), response) == HandshakeCall(old(inv.View()), nd, autoAccept)
  {
    var registered := inv.IsRegistered(nd);
    if registered {
      return Welcome;
    }
    var offered := inv.AddCandidate(nd);
    if !autoAccept {
      return Denied;
    }
    var outcome := inv.Register(nd, false);
    if outcome != Ok {
      return Failed(outcome);
    }
    return if offered == Ok then Welcome else Failed(offered);
  }

  method AcceptNode(inv: Nodes, sel: Selector) returns (response: AcceptResponse)
    requires inv.Valid()
    modifies inv
    ensures inv.Valid()
    ensures (inv.View(), response) == AcceptCall(old(inv.View()), sel)
  {
    var candidates := inv.GetMatching(inv.candidates, sel);
    var rejected := inv.GetMatching(inv.rejected, sel);
    var nodes := candidates + rejected;
    if |nodes| == 0 {
      return NotListed;
    }
    if |nodes| > 1 {
      return TooManyMatches;
    }
    var outcome := inv.Register(nodes[0], true);
    return if outcome == Ok then Accepted(nodes[0]) else NotAccepted(nodes[0], outcome);
  }

  method RejectNode(inv: Nodes, sel: Selector, env: nat -> Env)
    returns (found: bool, rejected: seq<Identity>, faults: seq<Fault>)
    requires inv.Valid()
    modifies inv
    ensures inv.Valid()
    ensures var nodes := ToReject(old(inv.View()), sel);
      && (found <==> nodes != [])
      && Progress(inv.View(), rejected, faults) == RejectFirst(old(inv.View()), nodes, |nodes|, env)
  {
    var candidates := inv.GetMatching(inv.candidates, sel);
    var accepted := inv.GetMatchingAccepted(sel);
    var nodes := candidates + accepted;
    rejected, faults := [], [];
    if |nodes| == 0 {
      return false, [], [];
    }
    for i := 0 to |nodes|
      invariant inv.Valid()
      invariant Progress(inv.View(), rejected, faults) == RejectFirst(old(inv.View()), nodes, i, env)
    {
      var nd := nodes[i];
      var registered := inv.IsRegistered(nd);
      if registered && !env(i).shutdownOk {
        faults := faults + [ShutdownFailed(nd)];
        continue;
      }
      var outcome := inv.Reject(nd, env(i).savedFirst, env(i).saved);
      if outcome != Ok {
        faults := faults + [RegistryFault(nd, outcome)];
        continue;
      }
      rejected := rejected + [nd];
    }
    found := true;
  }

  method RemoveNode(inv: Nodes, sel: Selector, env: nat -> Env)
    returns (found: bool, removed: seq<Identity>, faults: seq<Fault>)
    requires inv.Valid()
    modifies inv
    ensures inv.Valid()
    ensures var nodes := ToRemove(old(inv.View()), sel);
      && (found <==> nodes != [])
      && Progress(inv.View(), removed, faults) == RemoveFirst(old(inv.View()), nodes, |nodes|, env)
  {
    var accepted := inv.GetMatchingAccepted(sel);
    var candidates := inv.GetMatching(inv.candidates, sel);
    var rejected := inv.GetMatching(inv.rejected, sel);
    var nodes := rejected + candidates + accepted;
    removed, faults := [], [];
    if |nodes| == 0 {
      return false, [], [];
    }
    ghost var p := Progress(inv.View(), removed, faults);
    for i := 0 to |nodes|
      invariant inv.Valid()
      invariant p == RemoveFirst(old(inv.View()), nodes, i, env)
      invariant inv.View() == p.reg && removed == p.processed && faults == p.faults
    {
      var nd := nodes[i];
      if !env(i).shutdownOk {
        faults := faults + [ShutdownFailed(nd)];
      }
      var outcome := inv.Remove(nd, env(i).savedFirst, env(i).saved);
      if outcome != Ok {
        faults := faults + [RegistryFault(nd, outcome)];
      } else {
        removed := removed + [nd];
      }
      p := RemoveOne(p, nd, env(i));
    }
    found := true;
  }

  // ------------------------------------------------------------------- proofs

  lemma HandshakeKeepsExclusive(r: Registry, nd: Identity, autoAccept: bool)
    requires Exclusive(r)
    ensures Exclusive(HandshakeCall(r, nd, autoAccept).0)
  {
    if !IsRegistered(r, nd) {
      AddCandidateKeepsExclusive(r, nd);
      RegisterKeepsExclusive(AddCandidate(r, nd).0, nd, false);
    }
  }

  /**
   * A node is let in exactly when, at the end of its handshake, it is accepted under this identity and it
   * was not waiting as a candidate before.
   */
  lemma WelcomeIffRegistered(r: Registry, nd: Identity, autoAccept: bool)
    requires Inv(r)
    ensures HandshakeCall(r, nd, autoAccept).1 == Welcome
       <==> IsRegistered(HandshakeCall(r, nd, autoAccept).0, nd) && (IsRegistered(r, nd) || nd !in r.candidates)
  {
    NoDiffsIffEqual(if nd.id in r.accepted then r.accepted[nd.id] else nd, nd);
  }

  lemma {:induction false} RejectLoopKeepsExclusive(r: Registry, nodes: seq<Identity>, n: nat, env: nat -> Env)
    requires n <= |nodes| && Exclusive(r) && NoDuplicates(nodes)
    requires forall nd | nd in nodes :: nd !in r.rejected
    ensures Exclusive(RejectFirst(r, nodes, n, env).reg)
    ensures forall k | n <= k < |nodes| :: nodes[k] !in RejectFirst(r, nodes, n, env).reg.rejected
  {
    if n > 0 {
      RejectLoopKeepsExclusive(r, nodes, n - 1, env);
      var p := RejectFirst(r, nodes, n - 1, env);
      RejectKeepsExclusive(p.reg, nodes[n - 1], env(n - 1).savedFirst, env(n - 1).saved);
    } else {
      forall k | 0 <= k < |nodes| ensures nodes[k] !in r.rejected {
        assert nodes[k] in nodes;
      }
    }
  }

  lemma {:induction false} RemoveLoopKeepsExclusive(r: Registry, nodes: seq<Identity>, n: nat, env: nat -> Env)
    requires n <= |nodes| && Exclusive(r)
    ensures Exclusive(RemoveFirst(r, nodes, n, env).reg)
  {
    if n > 0 {
      RemoveLoopKeepsExclusive(r, nodes, n - 1, env);
      var p := RemoveFirst(r, nodes, n - 1, env);
      RemoveKeepsExclusive(p.reg, nodes[n - 1], env(n - 1).savedFirst, env(n - 1).saved);
    }
  }

  lemma ToRejectIsFresh(r: Registry, sel: Selector)
    requires Exclusive(r)
    ensures NoDuplicates(ToReject(r, sel))
    ensures forall nd | nd in ToReject(r, sel) :: nd !in r.rejected
  {
    var accepted := SelectedAccepted(sel, r.accepted);
    forall nd | nd in accepted
      ensures IsRegistered(r, nd) && nd !in Selected(sel, r.candidates)
    {}
    forall i, j | 0 <= i < j < |ToReject(r, sel)|
      ensures ToReject(r, sel)[i] != ToReject(r, sel)[j]
    {
      var n := |Selected(sel, r.candidates)|;
      if j >= n {
        assert ToReject(r, sel)[j] in accepted;
        if i < n {
          assert ToReject(r, sel)[i] in Selected(sel, r.candidates);
        }
      }
    }
  }

  /** A complete call, or a registry update by a task stream between calls. */
  datatype Call =
    | HandshakeC(nd: Identity, autoAccept: bool)
    | AcceptC(sel: Selector)
    | RejectC(sel: Selector, env: nat -> Env)
    | RemoveC(sel: Selector, env: nat -> Env)
    | BackgroundC(op: Op)

  function Effect(r: Registry, call: Call): Registry {
    match call
    case HandshakeC(nd, autoAccept) => HandshakeCall(r, nd, autoAccept).0
    case AcceptC(sel) => AcceptCall(r, sel).0
    case RejectC(sel, env) => RejectFirst(r, ToReject(r, sel), |ToReject(r, sel)|, env).reg
    case RemoveC(sel, env) => RemoveFirst(r, ToRemove(r, sel), |ToRemove(r, sel)|, env).reg
    case BackgroundC(op) => if Admission.IsBackground(op) then Apply(r, op).0 else r
  }

  ghost function EffectAll(r: Registry, calls: seq<Call>): Registry
    decreases |calls|
  {
    if calls == [] then r else EffectAll(Effect(r, calls[0]), calls[1..])
  }

  lemma CallKeepsExclusive(r: Registry, call: Call)
    requires Exclusive(r)
    ensures Exclusive(Effect(r, call))
  {
    match call
    case HandshakeC(nd, autoAccept) => HandshakeKeepsExclusive(r, nd, autoAccept);
    case AcceptC(sel) =>
      var nodes := Selected(sel, r.candidates) + Selected(sel, r.rejected);
      if |nodes| == 1 {
        RegisterKeepsExclusive(r, nodes[0], true);
      }
    case RejectC(sel, env) =>
      ToRejectIsFresh(r, sel);
      RejectLoopKeepsExclusive(r, ToReject(r, sel), |ToReject(r, sel)|, env);
    case RemoveC(sel, env) =>
      RemoveLoopKeepsExclusive(r, ToRemove(r, sel), |ToRemove(r, sel)|, env);
    case BackgroundC(op) =>
  }

  /**
   * When handshakes and admin calls do not overlap, every identity is in at most one of the three lists,
   * whichever saves and shutdown requests fail.
   */
  lemma {:induction false} AtMostOneList(r: Registry, calls: seq<Call>)
    requires Exclusive(r)
    ensures Exclusive(EffectAll(r, calls))
    decreases |calls|
  {
    if calls != [] {
      CallKeepsExclusive(r, calls[0]);
      AtMostOneList(Effect(r, calls[0]), calls[1..]);
    }
  }

  /** Identity a registers; b claims the same id and is refused as rogue; a is removed. */
  function Succession(a: Identity, b: Identity, env: nat -> Env): seq<Call> {
    [HandshakeC(a, true), HandshakeC(b, true), RemoveC(Selector(a.id, Some(a.address), None), env)]
  }

  lemma OnlyOneToRemove(r: Registry, a: Identity, b: Identity)
    requires a.id == b.id && a.address != b.address
    requires r.accepted == map[a.id := a] && r.candidates == [b] && r.rejected == []
    ensures ToRemove(r, Selector(a.id, Some(a.address), None)) == [a]
  {
    var sel := Selector(a.id, Some(a.address), None);
    assert [b][..0] == [];
    assert Selected(sel, [b]) == [];
  }

  lemma FirstRegisters(a: Identity)
    ensures var r := HandshakeCall(EMPTY, a, true).0;
      r.accepted == map[a.id := a] && r.candidates == [] && r.rejected == []
  {
    assert AddCandidate(EMPTY, a).0.candidates == [a];
  }

  lemma SecondIsRogue(r: Registry, a: Identity, b: Identity)
    requires a.id == b.id && a != b
    requires r.accepted == map[a.id := a] && r.candidates == [] && r.rejected == []
    ensures HandshakeCall(r, b, true).1.Failed?
    ensures var r' := HandshakeCall(r, b, true).0;
      r'.accepted == map[a.id := a] && r'.candidates == [b] && r'.rejected == []
  {
    NoDiffsIffEqual(a, b);
  }

  lemma FirstIsRemoved(r: Registry, a: Identity, b: Identity, env: nat -> Env)
    requires a.id == b.id && a.address != b.address
    requires r.accepted == map[a.id := a] && r.candidates == [b] && r.rejected == []
    ensures var r' := Effect(r, RemoveC(Selector(a.id, Some(a.address), None), env));
      r'.accepted == map[] && r'.candidates == [b] && r'.rejected == []
  {
    OnlyOneToRemove(r, a, b);
    assert RemoveFirst(r, [a], 0, env).reg == r;
    assert RemoveFirst(r, [a], 1, env).reg == Remove(r, a, env(0).savedFirst, env(0).saved).0;
  }

  lemma SuccessionLeavesCandidate(a: Identity, b: Identity, env: nat -> Env)
    requires a.id == b.id && a.address != b.address
    ensures HandshakeCall(Effect(EMPTY, HandshakeC(a, true)), b, true).1.Failed?
    ensures var r := EffectAll(EMPTY, Succession(a, b, env));
      r.accepted == map[] && r.candidates == [b] && r.rejected == []
  {
    var calls := Succession(a, b, env);
    var r1 := Effect(EMPTY, calls[0]);
    var r2 := Effect(r1, calls[1]);
    FirstRegisters(a);
    SecondIsRogue(r1, a, b);
    FirstIsRemoved(r2, a, b, env);
    assert calls[1..] == [calls[1], calls[2]] && [calls[1], calls[2]][1..] == [calls[2]];
    assert EffectAll(r2, [calls[2]]) == Effect(r2, calls[2]);
    assert EffectAll(r1, [calls[1], calls[2]]) == EffectAll(r2, [calls[2]]);
  }

  /**
   * With auto-accept on all the time: after that succession b's next handshake registers b and tells it
   * that it is already a candidate.
   */
  lemma WaitingCandidateIsTurnedAway(a: Identity, b: Identity, env: nat -> Env)
    requires a.id == b.id && a.address != b.address
    ensures var r := EffectAll(EMPTY, Succession(a, b, env));
      && IsRegistered(HandshakeCall(r, b, true).0, b)
      && HandshakeCall(r, b, true).1 == Failed(AlreadyCandidate)
  {
    SuccessionLeavesCandidate(a, b, env);
  }

  /** An accept call moves the one node it selects, or explains why not and changes nothing. */
  lemma AcceptAdmitsTheOne(r: Registry, sel: Selector)
    requires Exclusive(r)
    ensures match AcceptCall(r, sel).1
      case Accepted(nd) =>
        && Selects(sel, nd) && !IsRegistered(r, nd)
        && (nd in r.candidates || nd in r.rejected)
        && (forall other :: Selects(sel, other) && (other in r.candidates || other in r.rejected) ==> other == nd)
        && IsRegistered(AcceptCall(r, sel).0, nd)
      case _ => AcceptCall(r, sel).0 == r
  {
    var nodes := Selected(sel, r.candidates) + Selected(sel, r.rejected);
    if |nodes| == 1 {
      assert nodes[0] in nodes;
      forall other | Selects(sel, other) && (other in r.candidates || other in r.rejected)
        ensures other == nodes[0]
      {
        assert other in nodes;
      }
    }
  }
}
