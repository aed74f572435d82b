/** What each registry operation does to every list and every binding, and with which answer. */
module RegistryEffects {
  import opened Common
  import opened Registry
  import opened RegistryProofs

  lemma WithoutBag(list: seq<Identity>, nd: Identity)
    ensures multiset(Without(list, nd)) == multiset(list) - multiset{nd}
  {
    match FirstIndex(list, nd)
    case None =>
    case Some(i) => assert list == list[..i] + [nd] + list[i + 1..];
  }

  /** The binding and the state of one id are gone, all others are as before. */
  ghost predicate Unbound(r: Registry, r': Registry, id: string) {
    && (forall other | other != id ::
          && (other in r'.accepted <==> other in r.accepted)
          && (other in r.accepted ==> r'.accepted[other] == r.accepted[other])
          && (other in r'.states <==> other in r.states)
          && (other in r.states ==> r'.states[other] == r.states[other]))
    && id !in r'.accepted && id !in r'.states
  }

  predicate SameBindings(r: Registry, r': Registry) {
    r'.accepted == r.accepted && r'.states == r.states
  }

  /** Offering a node adds it at the end of the candidates, unless it is listed already. */
  lemma AddCandidateEffect(r: Registry, nd: Identity)
    ensures var (r', outcome) := AddCandidate(r, nd);
      && (outcome == AlreadyCandidate <==> nd in r.candidates)
      && (outcome == IsRejected <==> nd !in r.candidates && nd in r.rejected)
      && (outcome == Ok <==> nd !in r.candidates && nd !in r.rejected)
      && SameBindings(r, r') && r'.rejected == r.rejected
      && r'.candidates == if outcome == Ok then r.candidates + [nd] else r.candidates
  {}

  /** Registering binds the id of a node from exactly one of the two lists, and takes it off that list. */
  lemma RegisterEffect(r: Registry, nd: Identity, allowRejected: bool)
    ensures var (r', outcome) := Register(r, nd, allowRejected);
      var bound, offered, banned := nd.id in r.accepted, nd in r.candidates, nd in r.rejected;
      && (outcome == AlreadyRegistered <==> bound && r.accepted[nd.id] == nd)
      && (outcome.Rogue? <==> bound && r.accepted[nd.id] != nd)
      && (outcome == NotFound <==> !bound && !offered && !banned)
      && (outcome == BothCandidateAndRejected <==> !bound && offered && banned)
      && (outcome == IsRejected <==> !bound && !offered && banned && !allowRejected)
      && (outcome == Ok <==> !bound && ((offered && !banned) || (!offered && banned && allowRejected)))
      && (outcome != Ok ==> r' == r)
      && (outcome == Ok ==>
            && r'.accepted == r.accepted[nd.id := nd] && r'.states == r.states
            && multiset(r'.candidates) == multiset(r.candidates) - multiset{nd}
            && multiset(r'.rejected) == multiset(r.rejected) - multiset{nd})
  {
    WithoutBag(r.candidates, nd);
    WithoutBag(r.rejected, nd);
    NoDiffsIffEqual(if nd.id in r.accepted then r.accepted[nd.id] else nd, nd);
  }

  /** Rejecting takes a node off everything else and puts it at the end of the rejected list. */
  lemma RejectEffect(r: Registry, nd: Identity, savedFirst: bool, saved: bool)
    ensures var (r', outcome) := Reject(r, nd, savedFirst, saved);
      if IsRegistered(r, nd) && !savedFirst then
        outcome == SaveFailed && Unbound(r, r', nd.id) && r'.candidates == r.candidates && r'.rejected == r.rejected
      else
        && outcome == (if saved then Ok else SaveFailed)
        && (if IsRegistered(r, nd) then Unbound(r, r', nd.id) else SameBindings(r, r'))
        && multiset(r'.candidates) == multiset(r.candidates) - multiset{nd}
        && r'.rejected == r.rejected + [nd]
  {
    WithoutBag(r.candidates, nd);
  }

  /** Removing takes a node off everything. */
  lemma RemoveEffect(r: Registry, nd: Identity, savedFirst: bool, saved: bool)
    ensures var (r', outcome) := Remove(r, nd, savedFirst, saved);
      if IsRegistered(r, nd) && !savedFirst then
        outcome == SaveFailed && Unbound(r, r', nd.id) && r'.candidates == r.candidates && r'.rejected == r.rejected
      else
        && outcome == (if saved then Ok else SaveFailed)
        && (if IsRegistered(r, nd) then Unbound(r, r', nd.id) else SameBindings(r, r'))
        && multiset(r'.candidates) == multiset(r.candidates) - multiset{nd}
        && multiset(r'.rejected) == multiset(r.rejected) - multiset{nd}
  {
    WithoutBag(r.candidates, nd);
    WithoutBag(r.rejected, nd);
  }

  /** Unregistering drops the state of the id, whoever has it, and the binding of exactly this node. */
  lemma UnregisterEffect(r: Registry, nd: Identity, saved: bool)
    ensures var (r', outcome) := Unregister(r, nd, saved);
      && r'.candidates == r.candidates && r'.rejected == r.rejected && nd.id !in r'.states
      && (if IsRegistered(r, nd) then Unbound(r, r', nd.id) else r'.accepted == r.accepted)
      && (forall id | id != nd.id :: (id in r'.states <==> id in r.states)
                                     && (id in r.states ==> r'.states[id] == r.states[id]))
      && (outcome == SaveFailed <==> !saved && (IsRegistered(r, nd) || nd.id in r.states))
      && (outcome == Ok <==> IsRegistered(r, nd) && saved)
      && (outcome == Ok || outcome == SaveFailed || outcome == NotFound)
  {}

  /** The states of the other ids are as before. */
  predicate OnlyState(r: Registry, r': Registry, id: string) {
    && r'.accepted == r.accepted && r'.candidates == r.candidates && r'.rejected == r.rejected
    && r'.states.Keys == r.states.Keys + {id}
    && forall other | other in r.states && other != id :: r'.states[other] == r.states[other]
  }

  /** Each of the three updates touches one id's state and in it only what it is about. */
  lemma StateEffects(r: Registry, id: string, now: int, connected: bool, specs: Specs)
    ensures var before := if id in r.states then r.states[id] else NodeState(false, 0, 0, map[]);
      && OnlyState(r, MarkActive(r, id, now), id)
      && MarkActive(r, id, now).states[id] == NodeState(before.connected, before.since, now, before.specs)
      && OnlyState(r, MarkStateChange(r, id, connected, now), id)
      && MarkStateChange(r, id, connected, now).states[id] == NodeState(connected, now, before.lastMsg, before.specs)
      && (SetSpec(r, id, Some(specs)).1 == Ok <==> id in r.states)
      && (SetSpec(r, id, Some(specs)).1 != Ok ==> SetSpec(r, id, Some(specs)).0 == r)
      && (id in r.states ==>
            && OnlyState(r, SetSpec(r, id, Some(specs)).0, id)
            && SetSpec(r, id, Some(specs)).0.states[id]
                 == NodeState(before.connected, before.since, before.lastMsg, specs))
  {}

  /** A comparison names each field that differs, with the expected value first, and hides certificates. */
  lemma DiffsSayWhat(expected: Identity, got: Identity)
    ensures var diffs := Diffs(expected, got);
      && (forall d :: d in diffs <==>
            || (d == Diff("ID", expected.id, got.id) && expected.id != got.id)
            || (d == Diff("address", expected.address, got.address) && expected.address != got.address)
            || (d == Diff("certificate", "hidden", "hidden") && expected.certificate != got.certificate))
      && |diffs| == Bit(expected.id != got.id) + Bit(expected.address != got.address)
                    + Bit(expected.certificate != got.certificate)
  {}
}
