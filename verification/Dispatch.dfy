/** The dispatcher: one task channel per connected node, and which nodes are ready. */
module Dispatch {
  import opened Common
  import opened Text
  import Query
  import QuerySemantics

  /** A map entry: an open channel, known by its identity, or nil once it has been closed. */
  datatype Slot = Open(gen: nat) | Nil

  datatype Table = Table(dispatch: map<string, Slot>, ready: map<string, bool>)

  const EMPTY := Table(map[], map[])

  // ------------------------------------------------------------ specifications

  predicate IsReady(t: Table, node: string) {
    node in t.ready && t.ready[node]
  }

  /** Fails when the node has an entry, even a nil one. `gen` is the channel made for it. */
  function Register(t: Table, node: string, gen: nat): Option<Table> {
    if node in t.dispatch then None
    else Some(Table(t.dispatch[node := Open(gen)], t.ready[node := true]))
  }

  function Unregister(t: Table, node: string): Table {
    Table(t.dispatch - {node}, t.ready[node := false])
  }

  function Lookup(t: Table, node: string): Option<Slot> {
    if node in t.dispatch then Some(t.dispatch[node]) else None
  }

  /** The channel that gets closed; None is the panic of closing a nil channel. */
  function Close(t: Table, node: string): (Table, Option<nat>) {
    (Table(t.dispatch[node := Nil], t.ready[node := false]),
     match Lookup(t, node) case Some(Open(gen)) => Some(gen) case _ => None)
  }

  function Forget(t: Table, node: string): Option<Table> {
    if node in t.dispatch then None else Some(t.(ready := t.ready - {node}))
  }

  datatype SendStart = NodeNotFound | ClosedChannel | SendTo(gen: nat)

  function StartSend(t: Table, node: string): SendStart {
    match Lookup(t, node)
    case None => NodeNotFound
    case Some(Nil) => ClosedChannel
    case Some(Open(gen)) => SendTo(gen)
  }

  datatype TargetMode = UnknownMode | Exact | List | Glob | Regex | QueryMode | Unrecognized(code: int)

  function Targets(t: Table, specs: map<string, map<string, string>>, m: Query.Matchers, target: string,
                   mode: TargetMode): Query.Eval {
    var w := Query.World(t.ready, specs, m);
    match mode
    case Exact => Query.Matched(map[target := IsReady(t, target)])
    case List => Query.Matched(Query.EvalList(w, target))
    case Glob => Query.EvalGlob(w, target)
    case Regex => Query.EvalRegex(w, target)
    case QueryMode => Query.EvalQuery(w, target)
    case _ => Query.Failed
  }

  /** Every target comes with its readiness at that moment, whatever the mode. */
  lemma TargetsCarryReadiness(
      t: Table, specs: map<string, map<string, string>>, m: Query.Matchers, target: string, mode: TargetMode)
    requires Targets(t, specs, m, target, mode).Matched?
    ensures var nodes := Targets(t, specs, m, target, mode).nodes;
      nodes.Keys != {} && forall node | node in nodes :: nodes[node] == IsReady(t, node)
  {
    if mode.List? {
      assert Split(target, ",")[0] in Targets(t, specs, m, target, mode).nodes;
    }
    if mode.Exact? {
      assert target in Targets(t, specs, m, target, mode).nodes;
    }
    if mode.QueryMode? {
      var w := Query.World(t.ready, specs, m);
      QuerySemantics.QueryMeaning(w, target);
      var id :| id in w.nodes && QuerySemantics.Satisfies(QuerySemantics.TruthIn(w), Query.Groups(target), id);
      assert id in Targets(t, specs, m, target, mode).nodes;
    }
  }

  /** The known nodes that a test selects, with their readiness. */
  predicate Selected(t: Table, answer: Query.Eval, test: string -> bool) {
    answer.Matched? && answer.nodes == map id | id in t.ready && test(id) :: t.ready[id]
  }

  /** One id or a list of ids: just these, known or not. No mode, or an unknown one, is an error. */
  lemma NamedTargets(
      t: Table, specs: map<string, map<string, string>>, m: Query.Matchers, target: string, mode: TargetMode)
    ensures var answer := Targets(t, specs, m, target, mode);
      match mode
      case Exact => answer.Matched? && answer.nodes == map[target := target in t.ready && t.ready[target]]
      case List => answer.Matched? && forall id :: id in answer.nodes <==> id in Split(target, ",")
      case UnknownMode => answer.Failed?
      case Unrecognized(_) => answer.Failed?
      case _ => true
  {}

  /** A glob: the known nodes it matches, if it is good for all of them and matches one. */
  lemma GlobTargets(t: Table, specs: map<string, map<string, string>>, m: Query.Matchers, target: string)
    ensures var answer := Targets(t, specs, m, target, Glob);
      && (answer.Matched? <==>
            (forall id | id in t.ready :: m.glob(target, id).Some?)
            && (exists id | id in t.ready :: m.glob(target, id) == Some(true)))
      && (answer.Matched? ==> Selected(t, answer, id => m.glob(target, id) == Some(true)))
      && !answer.Crashed?
  {
    QuerySemantics.GlobMeaning(Query.World(t.ready, specs, m), target);
  }

  /** A regular expression: the known nodes that match it as a whole, if it compiles and one does. */
  lemma RegexTargets(t: Table, specs: map<string, map<string, string>>, m: Query.Matchers, target: string)
    ensures var answer := Targets(t, specs, m, target, Regex);
      && (answer.Matched? <==>
            m.compiles("^" + target + "$") && exists id | id in t.ready :: m.regex("^" + target + "$", id))
      && (answer.Matched? ==> Selected(t, answer, id => m.regex("^" + target + "$", id)))
      && !answer.Crashed?
  {
    QuerySemantics.RegexMeaning(Query.World(t.ready, specs, m), target);
  }

  /** A query: the known nodes that satisfy it. */
  lemma QueryTargets(t: Table, specs: map<string, map<string, string>>, m: Query.Matchers, target: string)
    ensures var answer := Targets(t, specs, m, target, QueryMode);
      var w, groups := Query.World(t.ready, specs, m), Query.Groups(target);
      && (answer.Matched? <==>
            && Trim(target) != "" && QuerySemantics.Throughout(groups, QuerySemantics.EvaluatesIn(w))
            && exists id | id in t.ready :: QuerySemantics.Satisfies(QuerySemantics.TruthIn(w), groups, id))
      && (answer.Matched? ==>
            Selected(t, answer, id => QuerySemantics.Satisfies(QuerySemantics.TruthIn(w), groups, id)))
  {
    QuerySemantics.QueryMeaning(Query.World(t.ready, specs, m), target);
  }

  /** A forgotten node is no longer known, and nobody else is affected; a node with an entry is not forgotten. */
  lemma ForgottenIsUnknown(t: Table, node: string)
    ensures Forget(t, node).None? <==> node in t.dispatch
    ensures Forget(t, node).Some? ==>
      var t' := Forget(t, node).value;
      && t'.dispatch == t.dispatch && node !in t'.ready
      && forall other | other != node ::
           (other in t'.ready <==> other in t.ready) && (other in t.ready ==> t'.ready[other] == t.ready[other])
  {}

  // -------------------------------------------------------------------- class

  class Dispatcher {
    var dispatch: map<string, Slot>
    var ready: map<string, bool>
    var made: nat                        // channels made so far

    ghost function View(): Table
      reads this
    {
      Table(dispatch, ready)
    }

    constructor ()
      ensures View() == EMPTY && made == 0
    {
      dispatch, ready, made := map[], map[], 0;
    }

    method RegisterNode(node: string) returns (ok: bool)
      modifies this
      ensures ok <==> Register(old(View()), node, old(made)).Some?
      ensures ok ==> Some(View()) == Register(old(View()), node, old(made)) && made == old(made) + 1
      ensures !ok ==> View() == old(View()) && made == old(made)
    {
      if node in dispatch {
        return false;
      }
      dispatch := dispatch[node := Open(made)];
      made := made + 1;
      ready := ready[node := true];
      return true;
    }

    method UnregisterNode(node: string)
      modifies this
      ensures View() == Unregister(old(View()), node) && made == old(made)
    {
      dispatch := dispatch - {node};
      ready := ready[node := false];
    }

    method CloseNode(node: string) returns (closed: Option<nat>)
      modifies this
      ensures (View(), closed) == Close(old(View()), node) && made == old(made)
    {
      closed := None;
      if node in dispatch && dispatch[node].Open? {
        closed := Some(dispatch[node].gen);
      }
      dispatch := dispatch[node := Nil];
      ready := ready[node := false];
    }

    method ForgetNode(node: string) returns (ok: bool)
      modifies this
      ensures ok <==> Forget(old(View()), node).Some?
      ensures View() == (if ok then Forget(old(View()), node).value else old(View())) && made == old(made)
    {
      if node in dispatch {
        return false;
      }
      ready := ready - {node};
      return true;
    }

    method BeginSend(node: string) returns (start: SendStart)
      ensures start == StartSend(View(), node)
    {
      if node !in dispatch {
        return NodeNotFound;
      }
      match dispatch[node]
      case Nil => return ClosedChannel;
      case Open(gen) => return SendTo(gen);
    }

    method GetTasksChannel(node: string) returns (channel: Option<Slot>)
      ensures channel == Lookup(View(), node)
    {
      return if node in dispatch then Some(dispatch[node]) else None;
    }

    method TargetedNodes(specs: map<string, map<string, string>>, m: Query.Matchers, target: string, mode: TargetMode)
      returns (r: Query.Eval)
      ensures r == Targets(View(), specs, m, target, mode)
    {
      var w := Query.World(ready, specs, m);
      match mode
      case Exact =>
        r := Query.Matched(map[target := target in ready && ready[target]]);
      case List =>
        var nodes := Query.ListMatching(w, target);
        r := Query.Matched(nodes);
      case Glob => r := Query.GlobMatching(w, target);
      case Regex => r := Query.RegexMatching(w, target);
      case QueryMode => r := Query.QueryMatching(w, target);
      case UnknownMode => r := Query.Failed;
      case Unrecognized(_) => r := Query.Failed;
    }
  }
}
