/**
 * The handshake and the admin calls as clients of the registry. Each call makes several separately
 * locked registry operations, so calls interleave: `Proc` is a call in progress, `System` the registry
 * and all calls in progress.
 */
module Admission {
  import opened Common
  import opened Registry
  import opened RegistryProofs
  import opened Inventory

  // ------------------------------------------------------- calls in progress

  datatype Proc =
    // Handshake
    | CheckRegistered(nd: Identity)
    | Offer(nd: Identity)                  // about to add the candidate
    | AutoRegister(nd: Identity)
    // AcceptNode
    | AcceptLookup(sel: Selector)
    | AcceptLookupRejected(sel: Selector, found: seq<Identity>)
    | AcceptRegister(nd: Identity)
    // RejectNode
    | RejectLookup(sel: Selector)
    | RejectLookupAccepted(sel: Selector, found: seq<Identity>)
    | RejectNext(todo: seq<Identity>)      // head of the loop over the matching nodes
    | RejectShutdown(todo: seq<Identity>)
    | RejectCommit(todo: seq<Identity>)
    // RemoveNode
    | RemoveLookup(sel: Selector)
    | RemoveLookupCandidates(sel: Selector, accepted: seq<Identity>)
    | RemoveLookupRejected(sel: Selector, accepted: seq<Identity>, candidates: seq<Identity>)
    | RemoveNext(todo: seq<Identity>)
    | Finished

  /** A call as it starts. */
  datatype Call =
    | Handshake(nd: Identity)
    | AcceptNode(sel: Selector)
    | RejectNode(sel: Selector)
    | RemoveNode(sel: Selector)

  function Begin(call: Call): Proc {
    match call
    case Handshake(nd) => CheckRegistered(nd)
    case AcceptNode(sel) => AcceptLookup(sel)
    case RejectNode(sel) => RejectLookup(sel)
    case RemoveNode(sel) => RemoveLookup(sel)
  }

  /** What the surroundings do during one step: shutdown requests and registry saves may fail. */
  datatype Env = Env(shutdownOk: bool, savedFirst: bool, saved: bool)

  /** The registry operation the next step of a call performs, if it changes the registry at all. */
  function OpOf(p: Proc, env: Env): Option<Op> {
    match p
    case Offer(nd) => Some(AddCandidateOp(nd))
    case AutoRegister(nd) => Some(RegisterOp(nd, false))
    case AcceptRegister(nd) => Some(RegisterOp(nd, true))
    case RejectCommit(todo) =>
      if todo == [] then None else Some(RejectOp(todo[0], env.savedFirst, env.saved))
    case RemoveNext(todo) =>
      // A failing shutdown does not keep the node from being removed.
      if todo == [] then None else Some(RemoveOp(todo[0], env.savedFirst, env.saved))
    case _ => None
  }

  function Advance(r: Registry, p: Proc, autoAccept: bool, env: Env): Proc {
    match p
    case CheckRegistered(nd) => if IsRegistered(r, nd) then Finished else Offer(nd)
    case Offer(nd) => if autoAccept then AutoRegister(nd) else Finished
    case AutoRegister(_) => Finished
    case AcceptLookup(sel) => AcceptLookupRejected(sel, Selected(sel, r.candidates))
    case AcceptLookupRejected(sel, found) =>
      var nodes := found + Selected(sel, r.rejected);
      if |nodes| == 1 then AcceptRegister(nodes[0]) else Finished
    case AcceptRegister(_) => Finished
    case RejectLookup(sel) => RejectLookupAccepted(sel, Selected(sel, r.candidates))
    case RejectLookupAccepted(sel, found) => RejectNext(found + SelectedAccepted(sel, r.accepted))
    case RejectNext(todo) =>
      if todo == [] then Finished
      else if IsRegistered(r, todo[0]) then RejectShutdown(todo)
      else RejectCommit(todo)
    case RejectShutdown(todo) =>
      if todo == [] then Finished
      else if env.shutdownOk then RejectCommit(todo)
      else RejectNext(todo[1..])
    case RejectCommit(todo) => if todo == [] then Finished else RejectNext(todo[1..])
    case RemoveLookup(sel) => RemoveLookupCandidates(sel, SelectedAccepted(sel, r.accepted))
    case RemoveLookupCandidates(sel, accepted) =>
      RemoveLookupRejected(sel, accepted, Selected(sel, r.candidates))
    case RemoveLookupRejected(sel, accepted, candidates) =>
      RemoveNext(Selected(sel, r.rejected) + candidates + accepted)
    case RemoveNext(todo) => if todo == [] then Finished else RemoveNext(todo[1..])
    case Finished => Finished
  }

  // ------------------------------------------------------------ interleavings

  datatype System = System(reg: Registry, procs: seq<Proc>, autoAccept: bool)

  datatype Action =
    | Start(call: Call)
    | Step(p: nat, env: Env)
    | Background(op: Op)       // connection state, activity and specs, recorded by the task streams

  predicate IsBackground(op: Op) {
    op.MarkActiveOp? || op.MarkStateChangeOp? || op.SetSpecOp?
  }

  predicate Enabled(s: System, a: Action) {
    match a
    case Start(_) => true
    case Step(p, _) => p < |s.procs| && !s.procs[p].Finished?
    case Background(op) => IsBackground(op)
  }

  function OpIn(s: System, a: Action): Option<Op>
    requires Enabled(s, a)
  {
    match a
    case Start(_) => None
    case Step(p, env) => OpOf(s.procs[p], env)
    case Background(op) => Some(op)
  }

  function Next(s: System, a: Action): System
    requires Enabled(s, a)
  {
    var op := OpIn(s, a);
    var reg := if op.Some? then Apply(s.reg, op.value).0 else s.reg;
    match a
    case Start(call) => s.(procs := s.procs + [Begin(call)], reg := reg)
    case Step(p, env) => s.(procs := s.procs[p := Advance(s.reg, s.procs[p], s.autoAccept, env)], reg := reg)
    case Background(_) => s.(reg := reg)
  }

  ghost predicate CanRun(s: System, actions: seq<Action>)
    decreases |actions|
  {
    actions == [] || (Enabled(s, actions[0]) && CanRun(Next(s, actions[0]), actions[1..]))
  }

  ghost function Run(s: System, actions: seq<Action>): System
    requires CanRun(s, actions)
    decreases |actions|
  {
    if actions == [] then s else Run(Next(s, actions[0]), actions[1..])
  }

  /** The registry operations a run performs, in order. */
  ghost function Ops(s: System, actions: seq<Action>): seq<Op>
    requires CanRun(s, actions)
    decreases |actions|
  {
    if actions == [] then []
    else
      var op := OpIn(s, actions[0]);
      (if op.Some? then [op.value] else []) + Ops(Next(s, actions[0]), actions[1..])
  }

  function Fresh(autoAccept: bool): System {
    System(EMPTY, [], autoAccept)
  }

  lemma {:induction false} RunIsItsOps(s: System, actions: seq<Action>)
    requires CanRun(s, actions)
    ensures Run(s, actions).reg == ApplyAll(s.reg, Ops(s, actions))
    ensures Run(s, actions).autoAccept == s.autoAccept
    decreases |actions|
  {
    if actions != [] {
      RunIsItsOps(Next(s, actions[0]), actions[1..]);
      var op := OpIn(s, actions[0]);
      if op.Some? {
        assert Ops(s, actions)[1..] == Ops(Next(s, actions[0]), actions[1..]);
      } else {
        assert Ops(s, actions) == Ops(Next(s, actions[0]), actions[1..]);
      }
    }
  }

  /** The step is the explicit accept, or the removal, of `nd`. */
  predicate ReadmitsNow(s: System, a: Action, nd: Identity) {
    Enabled(s, a) && match OpIn(s, a) case None => false case Some(op) => Readmits(op, nd)
  }

  ghost predicate NeverReadmits(s: System, actions: seq<Action>, nd: Identity)
    requires CanRun(s, actions)
    decreases |actions|
  {
    actions == [] ||
    (!ReadmitsNow(s, actions[0], nd) && NeverReadmits(Next(s, actions[0]), actions[1..], nd))
  }

  lemma {:induction false} OpsNeverReadmit(s: System, actions: seq<Action>, nd: Identity)
    requires CanRun(s, actions) && NeverReadmits(s, actions, nd)
    ensures forall k | 0 <= k < |Ops(s, actions)| :: !Readmits(Ops(s, actions)[k], nd)
    decreases |actions|
  {
    if actions != [] {
      OpsNeverReadmit(Next(s, actions[0]), actions[1..], nd);
    }
  }

  /** The action completes a successful rejection of `nd`. */
  predicate RejectsNow(s: System, a: Action, nd: Identity) {
    Enabled(s, a) &&
    match OpIn(s, a)
    case None => false
    case Some(op) => op.RejectOp? && op.nd == nd && Apply(s.reg, op).1 == Ok
  }

  /**
   * Over every interleaving of handshakes, admin calls and background updates, with any failing saves and
   * with auto-accept on or off: after a successful rejection the node is not accepted again before an
   * explicit accept or a removal of that very node.
   */
  lemma NoHandshakeUndoesAReject(
      autoAccept: bool, before: seq<Action>, reject: Action, after: seq<Action>, nd: Identity)
    requires CanRun(Fresh(autoAccept), before)
    requires RejectsNow(Run(Fresh(autoAccept), before), reject, nd)
    requires CanRun(Next(Run(Fresh(autoAccept), before), reject), after)
    requires NeverReadmits(Next(Run(Fresh(autoAccept), before), reject), after, nd)
    ensures !IsRegistered(Run(Next(Run(Fresh(autoAccept), before), reject), after).reg, nd)
  {
    var s := Run(Fresh(autoAccept), before);
    var t := Next(s, reject);
    var op := OpIn(s, reject).value;
    RunIsItsOps(Fresh(autoAccept), before);
    RunIsItsOps(t, after);
    OpsNeverReadmit(t, after, nd);
    RejectedStaysOut(Ops(Fresh(autoAccept), before), nd, op.savedFirst, op.saved, Ops(t, after));
  }

  /**
   * A step breaks the rule "each identity in at most one list" exactly when it offers a node that has
   * been accepted meanwhile, or commits the rejection of a node that has been rejected meanwhile.
   */
  lemma StepKeepsListsExclusive(s: System, a: Action)
    requires Exclusive(s.reg) && Enabled(s, a)
    ensures Exclusive(Next(s, a).reg) <==>
      match OpIn(s, a)
      case Some(AddCandidateOp(nd)) => !IsRegistered(s.reg, nd)
      case Some(RejectOp(nd, _, _)) => nd !in s.reg.rejected
      case _ => true
  {
    match OpIn(s, a)
    case None =>
    case Some(op) =>
      match op
      case AddCandidateOp(nd) => AddCandidateKeepsExclusive(s.reg, nd);
      case RejectOp(nd, savedFirst, saved) => RejectKeepsExclusive(s.reg, nd, savedFirst, saved);
      case RegisterOp(nd, allow) => RegisterKeepsExclusive(s.reg, nd, allow);
      case RemoveOp(nd, savedFirst, saved) => RemoveKeepsExclusive(s.reg, nd, savedFirst, saved);
      case MarkActiveOp(_, _) =>
      case MarkStateChangeOp(_, _, _) =>
      case SetSpecOp(_, _) =>
  }

  /** Two handshakes of one node, both past the check before either adds its candidate. */
  function Race(nd: Identity): seq<Action> {
    [Start(Handshake(nd)), Start(Handshake(nd)), Step(0, ALL_WELL), Step(1, ALL_WELL)]
    + [Step(0, ALL_WELL), Step(0, ALL_WELL), Step(1, ALL_WELL)]
  }

  const ALL_WELL := Env(true, true, true)

  lemma RunCons(s: System, a: Action, rest: seq<Action>)
    requires Enabled(s, a) && CanRun(Next(s, a), rest)
    ensures CanRun(s, [a] + rest) && Run(s, [a] + rest) == Run(Next(s, a), rest)
  {
    assert ([a] + rest)[1..] == rest;
  }

  lemma BothChecked(nd: Identity, rest: seq<Action>)
    requires CanRun(System(EMPTY, [Offer(nd), Offer(nd)], true), rest)
    ensures CanRun(Fresh(true), Race(nd)[..4] + rest)
    ensures Run(Fresh(true), Race(nd)[..4] + rest) == Run(System(EMPTY, [Offer(nd), Offer(nd)], true), rest)
  {
    var s1 := System(EMPTY, [CheckRegistered(nd)], true);
    var s2 := System(EMPTY, [CheckRegistered(nd), CheckRegistered(nd)], true);
    var s3 := System(EMPTY, [Offer(nd), CheckRegistered(nd)], true);
    assert Next(s3, Step(1, ALL_WELL)) == System(EMPTY, [Offer(nd), Offer(nd)], true);
    assert Next(s2, Step(0, ALL_WELL)) == s3;
    assert Next(s1, Start(Handshake(nd))) == s2;
    assert Next(Fresh(true), Start(Handshake(nd))) == s1;
    RunCons(s3, Step(1, ALL_WELL), rest);
    RunCons(s2, Step(0, ALL_WELL), [Step(1, ALL_WELL)] + rest);
    RunCons(s1, Start(Handshake(nd)), [Step(0, ALL_WELL)] + ([Step(1, ALL_WELL)] + rest));
    RunCons(Fresh(true), Start(Handshake(nd)),
            [Start(Handshake(nd))] + ([Step(0, ALL_WELL)] + ([Step(1, ALL_WELL)] + rest)));
    assert Race(nd)[..4] + rest ==
      [Start(Handshake(nd))] + ([Start(Handshake(nd))] + ([Step(0, ALL_WELL)] + ([Step(1, ALL_WELL)] + rest)));
  }

  lemma OfferedTwice(nd: Identity)
    ensures var s := System(EMPTY, [Offer(nd), Offer(nd)], true);
      && CanRun(s, Race(nd)[4..])
      && IsRegistered(Run(s, Race(nd)[4..]).reg, nd)
      && nd in Run(s, Race(nd)[4..]).reg.candidates
  {
    var s4 := System(EMPTY, [Offer(nd), Offer(nd)], true);
    var s5 := System(EMPTY.(candidates := [nd]), [AutoRegister(nd), Offer(nd)], true);
    var s6 := System(EMPTY.(accepted := map[nd.id := nd]), [Finished, Offer(nd)], true);
    assert Without([nd], nd) == [];
    assert s5 == Next(s4, Step(0, ALL_WELL));
    assert s6 == Next(s5, Step(0, ALL_WELL));
    var s7 := Next(s6, Step(1, ALL_WELL));
    assert s7.reg.candidates == [nd] && IsRegistered(s7.reg, nd);
    RunCons(s6, Step(1, ALL_WELL), []);
    RunCons(s5, Step(0, ALL_WELL), [Step(1, ALL_WELL)]);
    RunCons(s4, Step(0, ALL_WELL), [Step(0, ALL_WELL), Step(1, ALL_WELL)]);
    assert Race(nd)[4..] == [Step(0, ALL_WELL)] + [Step(0, ALL_WELL), Step(1, ALL_WELL)];
  }

  /** Two overlapping handshakes leave their node both accepted and candidate. */
  lemma OverlappingHandshakesRace(nd: Identity)
    ensures CanRun(Fresh(true), Race(nd))
    ensures IsRegistered(Run(Fresh(true), Race(nd)).reg, nd)
    ensures nd in Run(Fresh(true), Race(nd)).reg.candidates
  {
    OfferedTwice(nd);
    BothChecked(nd, Race(nd)[4..]);
    assert Race(nd) == Race(nd)[..4] + Race(nd)[4..];
  }
}
