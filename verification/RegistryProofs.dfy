/** What holds of the registry after any sequence of operations, with any pattern of failing saves. */
module RegistryProofs {
  import opened Common
  import opened Registry

  ghost predicate NoDuplicates(list: seq<Identity>) {
    forall i, j | 0 <= i < j < |list| :: list[i] != list[j]
  }

  ghost predicate KeysMatch(r: Registry) {
    forall id | id in r.accepted :: r.accepted[id].id == id
  }

  /** The invariant of the registry under arbitrary interleavings. */
  ghost predicate Inv(r: Registry) {
    && KeysMatch(r)
    && NoDuplicates(r.candidates)
    && (forall nd | nd in r.candidates :: nd !in r.rejected)
  }

  // ------------------------------------------------------------------ deletion

  lemma WithoutMembers(list: seq<Identity>, nd: Identity, other: Identity)
    ensures other != nd ==> (other in Without(list, nd) <==> other in list)
    ensures other in Without(list, nd) ==> other in list
  {
    var at := FirstIndex(list, nd);
    if at.Some? && other != nd && other in list {
      var k :| 0 <= k < |list| && list[k] == other;
      if k < at.value {
        assert Without(list, nd)[k] == other;
      } else {
        assert Without(list, nd)[k - 1] == other;
      }
    }
  }

  lemma WithoutOnce(list: seq<Identity>, nd: Identity)
    requires NoDuplicates(list)
    ensures NoDuplicates(Without(list, nd)) && nd !in Without(list, nd)
  {}

  /** Comparing two identities finds nothing exactly when they are the same. */
  lemma NoDiffsIffEqual(a: Identity, b: Identity)
    ensures Diffs(a, b) == [] <==> a == b
  {}

  // ----------------------------------------------------------------- invariant

  lemma WithoutShrinks(list: seq<Identity>, nd: Identity)
    ensures forall other | other in Without(list, nd) :: other in list
    ensures NoDuplicates(list) ==> NoDuplicates(Without(list, nd)) && nd !in Without(list, nd)
  {
    forall other | other in Without(list, nd)
      ensures other in list
    {
      WithoutMembers(list, nd, other);
    }
    if NoDuplicates(list) {
      WithoutOnce(list, nd);
    }
  }

  lemma RegisterKeepsInv(r: Registry, nd: Identity, allowRejected: bool)
    requires Inv(r)
    ensures Inv(Register(r, nd, allowRejected).0)
  {
    WithoutShrinks(r.candidates, nd);
    WithoutShrinks(r.rejected, nd);
  }

  lemma RejectKeepsInv(r: Registry, nd: Identity, savedFirst: bool, saved: bool)
    requires Inv(r)
    ensures Inv(Reject(r, nd, savedFirst, saved).0)
  {
    WithoutShrinks(r.candidates, nd);
  }

  lemma RemoveKeepsInv(r: Registry, nd: Identity, savedFirst: bool, saved: bool)
    requires Inv(r)
    ensures Inv(Remove(r, nd, savedFirst, saved).0)
  {
    WithoutShrinks(r.candidates, nd);
    WithoutShrinks(r.rejected, nd);
  }

  lemma ApplyKeepsInv(r: Registry, op: Op)
    requires Inv(r)
    ensures Inv(Apply(r, op).0)
  {
    match op
    case RegisterOp(nd, allowRejected) => RegisterKeepsInv(r, nd, allowRejected);
    case RejectOp(nd, savedFirst, saved) => RejectKeepsInv(r, nd, savedFirst, saved);
    case RemoveOp(nd, savedFirst, saved) => RemoveKeepsInv(r, nd, savedFirst, saved);
    case RemoveCandidateOp(nd) => WithoutShrinks(r.candidates, nd);
    case _ =>
  }

  lemma {:induction false} AllKeepInv(r: Registry, ops: seq<Op>)
    requires Inv(r)
    ensures Inv(ApplyAll(r, ops))
    decreases |ops|
  {
    if ops != [] {
      ApplyKeepsInv(r, ops[0]);
      AllKeepInv(Apply(r, ops[0]).0, ops[1..]);
    }
  }

  /** From an empty registry, no sequence of operations makes a node both candidate and rejected. */
  lemma ListsStayConsistent(ops: seq<Op>)
    ensures Inv(ApplyAll(EMPTY, ops))
  {
    AllKeepInv(EMPTY, ops);
  }

  /** The "both candidate and rejected" error of Register is unreachable. */
  lemma BothListsUnreachable(ops: seq<Op>, nd: Identity, allowRejected: bool)
    ensures Register(ApplyAll(EMPTY, ops), nd, allowRejected).1 != BothCandidateAndRejected
  {
    AllKeepInv(EMPTY, ops);
  }

  // -------------------------------------------------------- rejection is final

  /** An operation that may let a rejected node back in: an explicit accept, or forgetting it. */
  predicate Readmits(op: Op, nd: Identity) {
    (op.RegisterOp? && op.allowRejected && op.nd == nd) || (op.RemoveOp? && op.nd == nd)
  }

  ghost predicate ShutOut(r: Registry, nd: Identity) {
    nd in r.rejected && !IsRegistered(r, nd)
  }

  lemma RejectShutsOut(r: Registry, nd: Identity, savedFirst: bool, saved: bool)
    requires Reject(r, nd, savedFirst, saved).1 == Ok
    ensures ShutOut(Reject(r, nd, savedFirst, saved).0, nd)
  {}

  lemma StaysShutOut(r: Registry, op: Op, nd: Identity)
    requires Inv(r) && ShutOut(r, nd) && !Readmits(op, nd)
    ensures ShutOut(Apply(r, op).0, nd)
  {
    if op.RegisterOp? || op.RejectOp? || op.RemoveOp? {
      WithoutMembers(r.rejected, op.nd, nd);
    }
  }

  lemma {:induction false} RunStaysShutOut(r: Registry, ops: seq<Op>, nd: Identity)
    requires Inv(r) && ShutOut(r, nd)
    requires forall k | 0 <= k < |ops| :: !Readmits(ops[k], nd)
    ensures ShutOut(ApplyAll(r, ops), nd)
    decreases |ops|
  {
    if ops != [] {
      assert !Readmits(ops[0], nd);
      StaysShutOut(r, ops[0], nd);
      ApplyKeepsInv(r, ops[0]);
      RunStaysShutOut(Apply(r, ops[0]).0, ops[1..], nd);
    }
  }

  /**
   * Once a reject has succeeded the node is not accepted in any later state, whatever operations and
   * failing saves follow, until it is accepted explicitly or removed.
   */
  lemma RejectedStaysOut(before: seq<Op>, nd: Identity, savedFirst: bool, saved: bool, after: seq<Op>)
    requires Reject(ApplyAll(EMPTY, before), nd, savedFirst, saved).1 == Ok
    requires forall k | 0 <= k < |after| :: !Readmits(after[k], nd)
    ensures !IsRegistered(ApplyAll(Reject(ApplyAll(EMPTY, before), nd, savedFirst, saved).0, after), nd)
  {
    var r := ApplyAll(EMPTY, before);
    AllKeepInv(EMPTY, before);
    RejectKeepsInv(r, nd, savedFirst, saved);
    RejectShutsOut(r, nd, savedFirst, saved);
    RunStaysShutOut(Reject(r, nd, savedFirst, saved).0, after, nd);
  }

  // ----------------------------------------------------------- identity binding

  /** An operation that gives up the binding of `nd`'s id. */
  predicate Unbinds(op: Op, nd: Identity) {
    (op.UnregisterOp? || op.RejectOp? || op.RemoveOp?) && op.nd == nd
  }

  lemma StaysBound(r: Registry, op: Op, nd: Identity)
    requires KeysMatch(r) && IsRegistered(r, nd) && !Unbinds(op, nd)
    ensures KeysMatch(Apply(r, op).0) && IsRegistered(Apply(r, op).0, nd)
  {}

  lemma {:induction false} RunStaysBound(r: Registry, ops: seq<Op>, nd: Identity)
    requires KeysMatch(r) && IsRegistered(r, nd)
    requires forall k | 0 <= k < |ops| :: !Unbinds(ops[k], nd)
    ensures IsRegistered(ApplyAll(r, ops), nd)
    decreases |ops|
  {
    if ops != [] {
      assert !Unbinds(ops[0], nd);
      StaysBound(r, ops[0], nd);
      RunStaysBound(Apply(r, ops[0]).0, ops[1..], nd);
    }
  }

  /** Another identity with a bound id is rogue. */
  lemma RogueIsRefused(r: Registry, nd: Identity, other: Identity, allow: bool)
    requires IsRegistered(r, nd) && other.id == nd.id && other != nd
    ensures Register(r, other, allow).0 == r
    ensures Register(r, other, allow).1.Rogue? && Register(r, other, allow).1.diffs != []
  {
    NoDiffsIffEqual(nd, other);
  }

  /**
   * From its registration until the node itself is unregistered, rejected or removed, its id belongs to
   * exactly that identity: any other identity claiming the id is reported as rogue, with the
   * differences, and changes nothing.
   */
  lemma RogueIsDetected(before: seq<Op>, nd: Identity, allow: bool, after: seq<Op>, other: Identity, allowOther: bool)
    requires Register(ApplyAll(EMPTY, before), nd, allow).1 == Ok
    requires forall k | 0 <= k < |after| :: !Unbinds(after[k], nd)
    requires other.id == nd.id && other != nd
    ensures var r := ApplyAll(Register(ApplyAll(EMPTY, before), nd, allow).0, after);
      && IsRegistered(r, nd)
      && Register(r, other, allowOther).0 == r
      && Register(r, other, allowOther).1.Rogue?
      && Register(r, other, allowOther).1.diffs != []
  {
    AllKeepInv(EMPTY, before);
    var r1 := Register(ApplyAll(EMPTY, before), nd, allow).0;
    ApplyKeepsInv(ApplyAll(EMPTY, before), RegisterOp(nd, allow));
    RunStaysBound(r1, after, nd);
    RogueIsRefused(ApplyAll(r1, after), nd, other, allowOther);
  }

  // ------------------------------------------------------------- at most one list

  /** Every identity is in at most one of the three lists, at most once. */
  ghost predicate Exclusive(r: Registry) {
    && Inv(r)
    && NoDuplicates(r.rejected)
    && (forall nd | nd in r.candidates :: !IsRegistered(r, nd))
    && (forall nd | nd in r.rejected :: !IsRegistered(r, nd))
  }

  lemma RegisterKeepsExclusive(r: Registry, nd: Identity, allowRejected: bool)
    requires Exclusive(r)
    ensures Exclusive(Register(r, nd, allowRejected).0)
  {
    RegisterKeepsInv(r, nd, allowRejected);
    WithoutShrinks(r.candidates, nd);
    WithoutShrinks(r.rejected, nd);
  }

  lemma RemoveKeepsExclusive(r: Registry, nd: Identity, savedFirst: bool, saved: bool)
    requires Exclusive(r)
    ensures Exclusive(Remove(r, nd, savedFirst, saved).0)
  {
    RemoveKeepsInv(r, nd, savedFirst, saved);
    WithoutShrinks(r.candidates, nd);
    WithoutShrinks(r.rejected, nd);
  }

  /** Adding a candidate keeps the lists exclusive exactly when the node is not already accepted. */
  lemma AddCandidateKeepsExclusive(r: Registry, nd: Identity)
    requires Exclusive(r)
    ensures Exclusive(AddCandidate(r, nd).0) <==> !IsRegistered(r, nd)
  {
    ApplyKeepsInv(r, AddCandidateOp(nd));
    var r' := AddCandidate(r, nd).0;
    if IsRegistered(r, nd) {
      assert nd !in r.candidates && nd !in r.rejected;
      assert r'.candidates[|r.candidates|] == nd;
      assert nd in r'.candidates && IsRegistered(r', nd);
    }
  }

  /** Rejecting keeps them exclusive exactly when the node is not already rejected. */
  lemma RejectKeepsExclusive(r: Registry, nd: Identity, savedFirst: bool, saved: bool)
    requires Exclusive(r)
    ensures Exclusive(Reject(r, nd, savedFirst, saved).0) <==> nd !in r.rejected
  {
    RejectKeepsInv(r, nd, savedFirst, saved);
    var r' := Reject(r, nd, savedFirst, saved).0;
    WithoutShrinks(r.candidates, nd);
    if nd in r.rejected {
      var k :| 0 <= k < |r.rejected| && r.rejected[k] == nd;
      assert !IsRegistered(r, nd);
      assert r'.rejected[k] == nd && r'.rejected[|r.rejected|] == nd;
      assert !NoDuplicates(r'.rejected);
    }
  }
}
