/** The registry object: its fields, and methods proved to do what `Registry` says. */
module Inventory {
  import opened Common
  import opened Registry
  import Spec = Registry
  import opened RegistryProofs

  /** Which nodes an admin call means: an id, optionally narrowed by address and certificate. */
  datatype Selector = Selector(id: string, address: Option<string>, certificate: Option<string>)

  predicate Selects(sel: Selector, nd: Identity) {
    && nd.id == sel.id
    && (sel.address.Some? ==> nd.address == sel.address.value)
    && (sel.certificate.Some? ==> nd.certificate == sel.certificate.value)
  }

  function Selected(sel: Selector, list: seq<Identity>): (r: seq<Identity>)
    ensures forall nd :: nd in r <==> nd in list && Selects(sel, nd)
    ensures NoDuplicates(list) ==> NoDuplicates(r)
  {
    if list == [] then []
    else
      var last := list[|list| - 1];
      var init := Selected(sel, list[..|list| - 1]);
      assert list == list[..|list| - 1] + [last];
      if Selects(sel, last) then init + [last] else init
  }

  /** At most one accepted node has a given id. */
  function SelectedAccepted(sel: Selector, accepted: map<string, Identity>): seq<Identity> {
    if sel.id in accepted && Selects(sel, accepted[sel.id]) then [accepted[sel.id]] else []
  }

  method Compare(node1: Identity, node2: Identity) returns (diffs: seq<Diff>)
    ensures diffs == Diffs(node1, node2)
    ensures diffs == [] <==> node1 == node2
  {
    diffs := [];
    if node1.id != node2.id {
      diffs := diffs + [Diff("ID", node1.id, node2.id)];
    }
    if node1.address != node2.address {
      diffs := diffs + [Diff("address", node1.address, node2.address)];
    }
    if node1.certificate != node2.certificate {
      diffs := diffs + [Diff("certificate", "hidden", "hidden")];
    }
  }

  /** `slices.Delete` of one element. */
  function Delete(list: seq<Identity>, index: int): seq<Identity>
    requires 0 <= index < |list|
  {
    list[..index] + list[index + 1..]
  }

  /** Search loop shared by the candidate and the rejected list. */
  method Find(list: seq<Identity>, nd: Identity) returns (index: int, found: bool)
    ensures found <==> nd in list
    ensures found ==> 0 <= index < |list| && Delete(list, index) == Without(list, nd)
    ensures !found ==> index == -1
  {
    for i := 0 to |list|
      invariant forall k | 0 <= k < i :: list[k] != nd
    {
      if list[i] == nd {
        assert FirstIndex(list, nd) == Some(i);
        return i, true;
      }
    }
    return -1, false;
  }

  class Nodes {
    var accepted: map<string, Identity>
    var states: map<string, NodeState>
    var rejected: seq<Identity>
    var candidates: seq<Identity>

    ghost function View(): Registry
      reads this
    {
      Registry(accepted, states, rejected, candidates)
    }

    ghost predicate Valid()
      reads this
    {
      KeysMatch(View())
    }

    constructor ()
      ensures Valid() && View() == EMPTY
    {
      accepted, states, rejected, candidates := map[], map[], [], [];
    }

    method IsRegistered(nd: Identity) returns (registered: bool)
      ensures registered <==> Spec.IsRegistered(View(), nd)
    {
      registered := nd.id in accepted && accepted[nd.id] == nd;
    }

    method AddCandidate(nd: Identity) returns (outcome: Outcome)
      requires Valid()
      modifies this
      ensures Valid()
      ensures (View(), outcome) == Spec.AddCandidate(old(View()), nd)
    {
      if nd in candidates {
        return AlreadyCandidate;
      }
      var _, isRejected := Find(rejected, nd);
      if isRejected {
        return IsRejected;
      }
      candidates := candidates + [nd];
      return Ok;
    }

    method RemoveCandidate(nd: Identity) returns (outcome: Outcome)
      requires Valid()
      modifies this
      ensures Valid()
      ensures (View(), outcome) == Spec.RemoveCandidate(old(View()), nd)
    {
      for i := 0 to |candidates|
        invariant unchanged(this)
        invariant forall k | 0 <= k < i :: candidates[k] != nd
      {
        if candidates[i] == nd {
          assert FirstIndex(candidates, nd) == Some(i);
          candidates := Delete(candidates, i);
          return Ok;
        }
      }
      return NotFound;
    }

    method Register(nd: Identity, allowRejected: bool) returns (outcome: Outcome)
      requires Valid()
      modifies this
      ensures Valid()
      ensures (View(), outcome) == Spec.Register(old(View()), nd, allowRejected)
    {
      if nd.id in accepted {
        var diffs := Compare(accepted[nd.id], nd);
        if |diffs| == 0 {
          return AlreadyRegistered;
        }
        return Rogue(diffs);
      }
      var candidateIndex, isCandidate := Find(candidates, nd);
      var rejectedIndex, isRejected := Find(rejected, nd);
      if !isCandidate && !isRejected {
        return NotFound;
      }
      if isCandidate && isRejected {
        return BothCandidateAndRejected;
      }
      if isCandidate {
        candidates := Delete(candidates, candidateIndex);
      }
      if isRejected {
        if !allowRejected {
          return IsRejected;
        }
        rejected := Delete(rejected, rejectedIndex);
      }
      accepted := accepted[nd.id := nd];
      return Ok;
    }

    /** Drops the state of `id`, found by walking the map in any order. */
    method DropState(id: string) returns (changed: bool)
      modifies this`states
      ensures changed <==> id in old(states)
      ensures states == old(states) - {id}
    {
      changed := false;
      var ids := states.Keys;
      while ids != {}
        invariant states == old(states)
        invariant ids <= states.Keys && (id in states ==> id in ids)
        decreases ids
      {
        var some :| some in ids;
        if some == id {
          states := states - {some};
          return true;
        }
        ids := ids - {some};
      }
    }

    /** Drops the binding to `nd`, found by walking the map in any order. */
    method DropAccepted(nd: Identity) returns (found: bool)
      requires Valid()
      modifies this`accepted
      ensures found <==> Spec.IsRegistered(old(View()), nd)
      ensures accepted == if found then old(accepted) - {nd.id} else old(accepted)
    {
      found := false;
      var names := accepted.Keys;
      while names != {}
        invariant accepted == old(accepted)
        invariant names <= accepted.Keys
        invariant forall name | name in accepted && name !in names :: accepted[name] != nd
        decreases names
      {
        var name :| name in names;
        if accepted[name] == nd {
          accepted := accepted - {name};
          return true;
        }
        names := names - {name};
      }
    }

    method Unregister(nd: Identity, saved: bool) returns (outcome: Outcome)
      requires Valid()
      modifies this
      ensures Valid()
      ensures (View(), outcome) == Spec.Unregister(old(View()), nd, saved)
    {
      var changed := DropState(nd.id);
      var found := DropAccepted(nd);
      if (changed || found) && !saved {
        return SaveFailed;
      }
      return if found then Ok else NotFound;
    }

    method Reject(nd: Identity, savedFirst: bool, saved: bool) returns (outcome: Outcome)
      requires Valid()
      modifies this
      ensures Valid()
      ensures (View(), outcome) == Spec.Reject(old(View()), nd, savedFirst, saved)
    {
      var registered := IsRegistered(nd);
      if registered {
        outcome := Unregister(nd, savedFirst);
        if outcome != Ok {
          return;
        }
      }
      var index, isCandidate := Find(candidates, nd);
      if isCandidate {
        candidates := Delete(candidates, index);
      }
      rejected := rejected + [nd];
      return if saved then Ok else SaveFailed;
    }

    method Remove(nd: Identity, savedFirst: bool, saved: bool) returns (outcome: Outcome)
      requires Valid()
      modifies this
      ensures Valid()
      ensures (View(), outcome) == Spec.Remove(old(View()), nd, savedFirst, saved)
    {
      var registered := IsRegistered(nd);
      if registered {
        outcome := Unregister(nd, savedFirst);
        if outcome != Ok {
          return;
        }
      }
      ghost var r1 := View();
      var candidateIndex, isCandidate := Find(candidates, nd);
      if isCandidate {
        candidates := Delete(candidates, candidateIndex);
      }
      assert candidates == Without(r1.candidates, nd);
      var rejectedIndex, isRejected := Find(rejected, nd);
      if isRejected {
        rejected := Delete(rejected, rejectedIndex);
      }
      assert rejected == Without(r1.rejected, nd);
      assert View() == r1.(candidates := Without(r1.candidates, nd), rejected := Without(r1.rejected, nd));
      return if saved then Ok else SaveFailed;
    }

    method MarkNodeActive(id: string, now: int)
      requires Valid()
      modifies this
      ensures Valid() && View() == MarkActive(old(View()), id, now)
    {
      if id !in states {
        states := states[id := NEW_STATE];
      }
      states := states[id := states[id].(lastMsg := now)];
    }

    method MarkNodeStateChange(id: string, connected: bool, now: int)
      requires Valid()
      modifies this
      ensures Valid() && View() == MarkStateChange(old(View()), id, connected, now)
    {
      if id !in states {
        states := states[id := NEW_STATE];
      }
      states := states[id := states[id].(connected := connected, since := now)];
    }

    method SetSpec(id: string, specs: Option<Specs>) returns (outcome: Outcome)
      requires Valid()
      modifies this
      ensures Valid() && (View(), outcome) == Spec.SetSpec(old(View()), id, specs)
    {
      if specs.None? {
        return Ok;
      }
      if id !in states {
        return NotFound;
      }
      states := states[id := states[id].(specs := specs.value)];
      return Ok;
    }

    method GetMatching(list: seq<Identity>, sel: Selector) returns (matching: seq<Identity>)
      ensures matching == Selected(sel, list)
    {
      matching := [];
      for i := 0 to |list|
        invariant matching == Selected(sel, list[..i])
      {
        assert list[..i + 1][..i] == list[..i];
        if list[i].id != sel.id { continue; }
        if sel.address.Some? && list[i].address != sel.address.value { continue; }
        if sel.certificate.Some? && list[i].certificate != sel.certificate.value { continue; }
        matching := matching + [list[i]];
      }
      assert list[..|list|] == list;
    }

    method GetMatchingAccepted(sel: Selector) returns (matching: seq<Identity>)
      requires Valid()
      ensures matching == SelectedAccepted(sel, accepted)
    {
      matching := [];
      var names := accepted.Keys;
      while names != {}
        invariant names <= accepted.Keys
        invariant matching == if sel.id in names then [] else SelectedAccepted(sel, accepted)
        decreases names
      {
        var name :| name in names;
        names := names - {name};
        var nd := accepted[name];
        if nd.id != sel.id { continue; }
        if sel.address.Some? && nd.address != sel.address.value { continue; }
        if sel.certificate.Some? && nd.certificate != sel.certificate.value { continue; }
        matching := matching + [nd];
      }
    }
  }
}
