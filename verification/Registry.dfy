/**
 * The node registry as a value: the accepted, candidate and rejected lists, and what each registry
 * operation does to them. Saving the registry file may fail; `saved` says whether it worked.
 */
module Registry {
  import opened Common

  datatype Identity = Identity(id: string, address: string, certificate: string)

  /** Specs by their leaves: dotted path to printed value. */
  type Specs = map<string, string>

  datatype NodeState = NodeState(connected: bool, since: int, lastMsg: int, specs: Specs)

  const NEW_STATE := NodeState(false, 0, 0, map[])

  datatype Registry = Registry(
    accepted: map<string, Identity>,
    states: map<string, NodeState>,
    rejected: seq<Identity>,
    candidates: seq<Identity>)

  const EMPTY := Registry(map[], map[], [], [])

  datatype Diff = Diff(key: string, expected: string, got: string)

  datatype Outcome =
    | Ok
    | AlreadyRegistered
    | AlreadyCandidate
    | NotFound
    | IsRejected
    | Rogue(diffs: seq<Diff>)
    | BothCandidateAndRejected
    | SaveFailed

  // ------------------------------------------------------------------- lookups

  /** Where `nd` first occurs in a list. */
  function FirstIndex(list: seq<Identity>, nd: Identity): (r: Option<nat>)
    ensures r.Some? <==> nd in list
    ensures r.Some? ==> r.value < |list| && list[r.value] == nd
    ensures r.Some? ==> forall i | 0 <= i < r.value :: list[i] != nd
  {
    if list == [] then None
    else if list[0] == nd then Some(0)
    else match FirstIndex(list[1..], nd)
         case None => None
         case Some(i) => Some(i + 1)
  }

  /** The list without the first occurrence of `nd`. */
  function Without(list: seq<Identity>, nd: Identity): seq<Identity> {
    match FirstIndex(list, nd)
    case None => list
    case Some(i) => list[..i] + list[i + 1..]
  }

  predicate IsRegistered(r: Registry, nd: Identity) {
    nd.id in r.accepted && r.accepted[nd.id] == nd
  }

  /** The fields in which `got` differs from `expected`, in a fixed order; certificates are not shown. */
  function Diffs(expected: Identity, got: Identity): seq<Diff> {
    (if expected.id != got.id then [Diff("ID", expected.id, got.id)] else [])
    + (if expected.address != got.address then [Diff("address", expected.address, got.address)] else [])
    + (if expected.certificate != got.certificate then [Diff("certificate", "hidden", "hidden")] else [])
  }

  // ---------------------------------------------------------------- operations

  function AddCandidate(r: Registry, nd: Identity): (Registry, Outcome) {
    if nd in r.candidates then (r, AlreadyCandidate)
    else if nd in r.rejected then (r, IsRejected)
    else (r.(candidates := r.candidates + [nd]), Ok)
  }

  function RemoveCandidate(r: Registry, nd: Identity): (Registry, Outcome) {
    if nd in r.candidates then (r.(candidates := Without(r.candidates, nd)), Ok) else (r, NotFound)
  }

  /** A failing save is only logged. */
  function Register(r: Registry, nd: Identity, allowRejected: bool): (Registry, Outcome) {
    if nd.id in r.accepted then
      var diffs := Diffs(r.accepted[nd.id], nd);
      (r, if diffs == [] then AlreadyRegistered else Rogue(diffs))
    else if nd !in r.candidates && nd !in r.rejected then (r, NotFound)
    else if nd in r.candidates && nd in r.rejected then (r, BothCandidateAndRejected)
    else if nd in r.candidates then
      (r.(candidates := Without(r.candidates, nd), accepted := r.accepted[nd.id := nd]), Ok)
    else if !allowRejected then (r, IsRejected)
    else
      (r.(rejected := Without(r.rejected, nd), accepted := r.accepted[nd.id := nd]), Ok)
  }

  /** The change stays in memory even when it could not be saved. */
  function Unregister(r: Registry, nd: Identity, saved: bool): (Registry, Outcome) {
    var found := IsRegistered(r, nd);
    var r' := r.(
      states := r.states - {nd.id},
      accepted := if found then r.accepted - {nd.id} else r.accepted);
    if (found || nd.id in r.states) && !saved then (r', SaveFailed)
    else (r', if found then Ok else NotFound)
  }

  /** `savedFirst` is the save made while unregistering, `saved` the one at the end. */
  function Reject(r: Registry, nd: Identity, savedFirst: bool, saved: bool): (Registry, Outcome) {
    if IsRegistered(r, nd) && !savedFirst then Unregister(r, nd, savedFirst)
    else
      var r1 := if IsRegistered(r, nd) then Unregister(r, nd, savedFirst).0 else r;
      (r1.(candidates := Without(r1.candidates, nd), rejected := r1.rejected + [nd]),
       if saved then Ok else SaveFailed)
  }

  function Remove(r: Registry, nd: Identity, savedFirst: bool, saved: bool): (Registry, Outcome) {
    if IsRegistered(r, nd) && !savedFirst then Unregister(r, nd, savedFirst)
    else
      var r1 := if IsRegistered(r, nd) then Unregister(r, nd, savedFirst).0 else r;
      (r1.(candidates := Without(r1.candidates, nd), rejected := Without(r1.rejected, nd)),
       if saved then Ok else SaveFailed)
  }

  function StateOf(r: Registry, id: string): NodeState {
    if id in r.states then r.states[id] else NEW_STATE
  }

  function MarkActive(r: Registry, id: string, now: int): Registry {
    r.(states := r.states[id := StateOf(r, id).(lastMsg := now)])
  }

  function MarkStateChange(r: Registry, id: string, connected: bool, now: int): Registry {
    r.(states := r.states[id := StateOf(r, id).(connected := connected, since := now)])
  }

  function SetSpec(r: Registry, id: string, specs: Option<Specs>): (Registry, Outcome) {
    if specs.None? then (r, Ok)
    else if id !in r.states then (r, NotFound)
    else (r.(states := r.states[id := r.states[id].(specs := specs.value)]), Ok)
  }

  // ----------------------------------------------------- one operation as a value

  /** An operation the registry performs under its mutex, with what happens to its saves. */
  datatype Op =
    | AddCandidateOp(nd: Identity)
    | RemoveCandidateOp(nd: Identity)
    | RegisterOp(nd: Identity, allowRejected: bool)
    | UnregisterOp(nd: Identity, saved: bool)
    | RejectOp(nd: Identity, savedFirst: bool, saved: bool)
    | RemoveOp(nd: Identity, savedFirst: bool, saved: bool)
    | MarkActiveOp(id: string, now: int)
    | MarkStateChangeOp(id: string, connected: bool, now: int)
    | SetSpecOp(id: string, specs: Option<Specs>)

  function Apply(r: Registry, op: Op): (Registry, Outcome) {
    match op
    case AddCandidateOp(nd) => AddCandidate(r, nd)
    case RemoveCandidateOp(nd) => RemoveCandidate(r, nd)
    case RegisterOp(nd, allowRejected) => Register(r, nd, allowRejected)
    case UnregisterOp(nd, saved) => Unregister(r, nd, saved)
    case RejectOp(nd, savedFirst, saved) => Reject(r, nd, savedFirst, saved)
    case RemoveOp(nd, savedFirst, saved) => Remove(r, nd, savedFirst, saved)
    case MarkActiveOp(id, now) => (MarkActive(r, id, now), Ok)
    case MarkStateChangeOp(id, connected, now) => (MarkStateChange(r, id, connected, now), Ok)
    case SetSpecOp(id, specs) => SetSpec(r, id, specs)
  }

  function ApplyAll(r: Registry, ops: seq<Op>): Registry
    decreases |ops|
  {
    if ops == [] then r else ApplyAll(Apply(r, ops[0]).0, ops[1..])
  }
}
