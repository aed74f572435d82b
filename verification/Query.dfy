/**
 * Query targeting: evaluates expressions such as "specs.os==linux and id=~web-* or id==db-1" over the
 * known nodes. Globs, regular expressions and dotted access to specs belong to libraries and are
 * parameters here.
 */
module Query {
  import opened Common
  import opened Text

  datatype Matchers = Matchers(
    glob: (string, string) -> Option<bool>,     // pattern, name; None for a bad pattern
    compiles: string -> bool,
    regex: (string, string) -> bool)            // pattern, text

  /** The dispatcher's nodes with their readiness, and the specs of every node by dotted path. */
  datatype World = World(
    nodes: map<string, bool>,
    specs: map<string, map<string, string>>,
    matchers: Matchers)

  /** `Crashed` is a slice expression out of range: the pattern between two slashes of "/". */
  datatype Eval = Matched(nodes: map<string, bool>) | Failed | Crashed

  const OR := " or "
  const AND := " and "

  // ------------------------------------------------------------------ parsing

  /** Parts trimmed, blank ones left out. */
  function NonBlank(parts: seq<string>): seq<string> {
    if parts == [] then []
    else
      var last := Trim(parts[|parts| - 1]);
      NonBlank(parts[..|parts| - 1]) + (if last == "" then [] else [last])
  }

  function Conditions(group: string): seq<string> {
    NonBlank(Split(group, AND))
  }

  function AllConditions(groups: seq<string>): seq<seq<string>> {
    if groups == [] then []
    else AllConditions(groups[..|groups| - 1]) + [Conditions(groups[|groups| - 1])]
  }

  /** The expression as a disjunction of conjunctions. */
  function Groups(expr: string): seq<seq<string>> {
    AllConditions(NonBlank(Split(expr, OR)))
  }

  datatype Operator = Equals | Matches
  datatype Condition = Condition(field: string, operator: Operator, value: string)

  /** "==" is looked for before "=~". */
  function Parse(condition: string): Option<Condition> {
    match Index(condition, "==")
    case Some(i) => Some(Condition(Trim(condition[..i]), Equals, Trim(condition[i + 2..])))
    case None =>
      match Index(condition, "=~")
      case Some(i) => Some(Condition(Trim(condition[..i]), Matches, Trim(condition[i + 2..])))
      case None => None
  }

  predicate IsRegex(value: string) {
    "/" <= value && HasSuffix(value, "/")
  }

  // -------------------------------------------------------------- evaluation

  predicate IsReady(w: World, id: string) {
    id in w.nodes && w.nodes[id]
  }

  function EvalList(w: World, list: string): map<string, bool> {
    map id | id in Split(list, ",") :: IsReady(w, id)
  }

  function NonEmpty(nodes: map<string, bool>): Eval {
    if |nodes| == 0 then Failed else Matched(nodes)
  }

  function EvalGlob(w: World, pattern: string): Eval {
    if exists id | id in w.nodes :: w.matchers.glob(pattern, id).None? then Failed
    else NonEmpty(map id | id in w.nodes && w.matchers.glob(pattern, id) == Some(true) :: w.nodes[id])
  }

  function Anchored(pattern: string): string {
    "^" + pattern + "$"
  }

  function EvalRegex(w: World, pattern: string): Eval {
    if !w.matchers.compiles(Anchored(pattern)) then Failed
    else NonEmpty(map id | id in w.nodes && w.matchers.regex(Anchored(pattern), id) :: w.nodes[id])
  }

  function EvalId(w: World, operator: Operator, value: string): Eval {
    match operator
    case Equals => Matched(EvalList(w, value))
    case Matches =>
      if !IsRegex(value) then EvalGlob(w, value)
      else if |value| < 2 then Crashed
      else EvalRegex(w, value[1..|value| - 1])
  }

  /** Comparing one spec with the wanted value. Unlike ids, specs are matched without anchors. */
  function EvalLeaf(m: Matchers, operator: Operator, value: string, leaf: string): (bool, Eval) {
    match operator
    case Equals => (leaf == value, Matched(map[]))
    case Matches =>
      if !IsRegex(value) then
        match m.glob(value, leaf)
        case None => (false, Failed)
        case Some(b) => (b, Matched(map[]))
      else if |value| < 2 then (false, Crashed)
      else if !m.compiles(value[1..|value| - 1]) then (false, Failed)
      else (m.regex(value[1..|value| - 1], leaf), Matched(map[]))
  }

  predicate HasLeaf(w: World, id: string, path: string) {
    id in w.specs && path in w.specs[id]
  }

  predicate LeafFails(w: World, id: string, path: string, operator: Operator, value: string) {
    HasLeaf(w, id, path) && !EvalLeaf(w.matchers, operator, value, w.specs[id][path]).1.Matched?
  }

  predicate LeafMatches(w: World, id: string, path: string, operator: Operator, value: string) {
    HasLeaf(w, id, path) && EvalLeaf(w.matchers, operator, value, w.specs[id][path]).0
  }

  function EvalSpecs(w: World, path: string, operator: Operator, value: string): Eval {
    if exists id | id in w.specs :: LeafFails(w, id, path, operator, value) then
      if operator.Matches? && IsRegex(value) && |value| < 2 then Crashed else Failed
    else Matched(map id | id in w.specs && LeafMatches(w, id, path, operator, value) :: IsReady(w, id))
  }

  function EvalCondition(w: World, condition: string): Eval {
    match Parse(condition)
    case None => Failed
    case Some(c) =>
      if c.field == "id" then EvalId(w, c.operator, c.value)
      else
        match CutPrefix(c.field, "specs.")
        case None => Failed
        case Some(path) => EvalSpecs(w, path, c.operator, c.value)
  }

  /** AND: start from all nodes and keep those every condition matches. */
  function EvalGroup(w: World, conditions: seq<string>): Eval {
    if conditions == [] then Matched(w.nodes)
    else
      match EvalGroup(w, conditions[..|conditions| - 1])
      case Matched(kept) =>
        (match EvalCondition(w, conditions[|conditions| - 1])
         case Matched(nodes) => Matched(map id | id in kept && id in nodes :: kept[id])
         case failure => failure)
      case failure => failure
  }

  /** OR: add up the nodes of all groups. */
  function EvalGroups(w: World, groups: seq<seq<string>>): Eval {
    if groups == [] then Matched(map[])
    else
      match EvalGroups(w, groups[..|groups| - 1])
      case Matched(found) =>
        (match EvalGroup(w, groups[|groups| - 1])
         case Matched(nodes) => Matched(found + nodes)
         case failure => failure)
      case failure => failure
  }

  function EvalParsed(w: World, groups: seq<seq<string>>): Eval {
    match EvalGroups(w, groups)
    case Matched(nodes) => NonEmpty(nodes)
    case failure => failure
  }

  function EvalQuery(w: World, expr: string): Eval {
    if Trim(expr) == "" then Failed else EvalParsed(w, Groups(expr))
  }

  // ----------------------------------------------------- lemmas for the loops

  lemma {:induction false} NonBlankSplit(a: seq<string>, b: seq<string>)
    ensures NonBlank(a + b) == NonBlank(a) + NonBlank(b)
    decreases |b|
  {
    if b == [] {
      assert a + b == a;
    } else {
      var init := b[..|b| - 1];
      assert (a + b)[..|a + b| - 1] == a + init;
      NonBlankSplit(a, init);
    }
  }

  lemma {:induction false} GroupFailureSticks(w: World, a: seq<string>, b: seq<string>)
    requires !EvalGroup(w, a).Matched?
    ensures EvalGroup(w, a + b) == EvalGroup(w, a)
    decreases |b|
  {
    if b == [] {
      assert a + b == a;
    } else {
      var init := b[..|b| - 1];
      assert (a + b)[..|a + b| - 1] == a + init;
      GroupFailureSticks(w, a, init);
    }
  }

  lemma {:induction false} GroupsFailureSticks(w: World, a: seq<seq<string>>, b: seq<seq<string>>)
    requires !EvalGroups(w, a).Matched?
    ensures EvalGroups(w, a + b) == EvalGroups(w, a)
    decreases |b|
  {
    if b == [] {
      assert a + b == a;
    } else {
      var init := b[..|b| - 1];
      assert (a + b)[..|a + b| - 1] == a + init;
      GroupsFailureSticks(w, a, init);
    }
  }

  lemma {:induction false} AllConditionsSplit(a: seq<string>, b: seq<string>)
    ensures AllConditions(a + b) == AllConditions(a) + AllConditions(b)
    decreases |b|
  {
    if b == [] {
      assert a + b == a;
    } else {
      var init := b[..|b| - 1];
      assert (a + b)[..|a + b| - 1] == a + init;
      AllConditionsSplit(a, init);
    }
  }

  lemma NonBlankStep(parts: seq<string>, i: nat)
    requires i < |parts|
    ensures NonBlank(parts[..i + 1]) ==
      if Trim(parts[i]) == "" then NonBlank(parts[..i]) else NonBlank(parts[..i]) + [Trim(parts[i])]
  {
    assert parts[..i + 1][..i] == parts[..i];
  }

  lemma EvalGroupStep(w: World, done: seq<string>, condition: string)
    requires EvalGroup(w, done).Matched?
    ensures EvalGroup(w, done + [condition]) ==
      match EvalCondition(w, condition)
      case Matched(nodes) =>
        Matched(map id | id in EvalGroup(w, done).nodes && id in nodes :: EvalGroup(w, done).nodes[id])
      case failure => failure
  {
    assert (done + [condition])[..|done|] == done;
  }

  lemma EvalGroupFails(w: World, parts: seq<string>, i: nat)
    requires i <= |parts| && !EvalGroup(w, NonBlank(parts[..i])).Matched?
    ensures EvalGroup(w, NonBlank(parts)) == EvalGroup(w, NonBlank(parts[..i]))
  {
    assert NonBlank(parts) == NonBlank(parts[..i]) + NonBlank(parts[i..]) by {
      assert parts == parts[..i] + parts[i..];
      NonBlankSplit(parts[..i], parts[i..]);
    }
    GroupFailureSticks(w, NonBlank(parts[..i]), NonBlank(parts[i..]));
  }

  lemma EvalGroupsStep(w: World, done: seq<string>, group: string)
    requires EvalGroups(w, AllConditions(done)).Matched?
    ensures EvalGroups(w, AllConditions(done + [group])) ==
      match EvalGroup(w, Conditions(group))
      case Matched(nodes) => Matched(EvalGroups(w, AllConditions(done)).nodes + nodes)
      case failure => failure
  {
    assert (done + [group])[..|done|] == done;
    var groups := AllConditions(done);
    assert (groups + [Conditions(group)])[..|groups|] == groups;
  }

  lemma EvalGroupsFails(w: World, parts: seq<string>, i: nat)
    requires i <= |parts| && !EvalGroups(w, AllConditions(NonBlank(parts[..i]))).Matched?
    ensures EvalGroups(w, AllConditions(NonBlank(parts))) == EvalGroups(w, AllConditions(NonBlank(parts[..i])))
  {
    assert parts == parts[..i] + parts[i..];
    NonBlankSplit(parts[..i], parts[i..]);
    AllConditionsSplit(NonBlank(parts[..i]), NonBlank(parts[i..]));
    GroupsFailureSticks(w, AllConditions(NonBlank(parts[..i])), AllConditions(NonBlank(parts[i..])));
  }

  // ------------------------------------------------------------------ methods

  method ListMatching(w: World, list: string) returns (nodes: map<string, bool>)
    ensures nodes == EvalList(w, list)
  {
    nodes := map[];
    var ids := Split(list, ",");
    for i := 0 to |ids|
      invariant nodes == map id | id in ids[..i] :: IsReady(w, id)
    {
      nodes := nodes[ids[i] := IsReady(w, ids[i])];
      assert ids[..i + 1] == ids[..i] + [ids[i]];
    }
    assert ids[..|ids|] == ids;
  }

  method GlobMatching(w: World, pattern: string) returns (r: Eval)
    ensures r == EvalGlob(w, pattern)
  {
    var nodes: map<string, bool> := map[];
    var todo := w.nodes.Keys;
    while todo != {}
      invariant todo <= w.nodes.Keys
      invariant forall id | id in w.nodes && id !in todo :: w.matchers.glob(pattern, id).Some?
      invariant nodes ==
        map id | id in w.nodes && id !in todo && w.matchers.glob(pattern, id) == Some(true) :: w.nodes[id]
      decreases todo
    {
      var id :| id in todo;
      todo := todo - {id};
      var matched := w.matchers.glob(pattern, id);
      if matched.None? {
        return Failed;
      }
      if matched.value {
        nodes := nodes[id := w.nodes[id]];
      }
    }
    r := NonEmpty(nodes);
  }

  method RegexMatching(w: World, pattern: string) returns (r: Eval)
    ensures r == EvalRegex(w, pattern)
  {
    var regex := Anchored(pattern);
    if !w.matchers.compiles(regex) {
      return Failed;
    }
    var nodes: map<string, bool> := map[];
    var todo := w.nodes.Keys;
    while todo != {}
      invariant todo <= w.nodes.Keys
      invariant nodes == map id | id in w.nodes && id !in todo && w.matchers.regex(regex, id) :: w.nodes[id]
      decreases todo
    {
      var id :| id in todo;
      todo := todo - {id};
      if w.matchers.regex(regex, id) {
        nodes := nodes[id := w.nodes[id]];
      }
    }
    r := NonEmpty(nodes);
  }

  /** One turn of the loop over all specs. */
  method MatchLeaf(w: World, id: string, path: string, operator: Operator, value: string)
    returns (hit: bool, status: Eval)
    requires id in w.specs
    ensures status.Matched? ==> !LeafFails(w, id, path, operator, value)
    ensures status.Matched? ==> (hit <==> LeafMatches(w, id, path, operator, value))
    ensures !status.Matched? ==> LeafFails(w, id, path, operator, value)
    ensures !status.Matched? ==>
      status == if operator.Matches? && IsRegex(value) && |value| < 2 then Crashed else Failed
  {
    if path !in w.specs[id] {
      return false, Matched(map[]);
    }
    var (b, e) := EvalLeaf(w.matchers, operator, value, w.specs[id][path]);
    return b, e;
  }

  method EvaluateSpecsCondition(w: World, path: string, operator: Operator, value: string) returns (r: Eval)
    ensures r == EvalSpecs(w, path, operator, value)
  {
    var matched: map<string, bool> := map[];
    var todo := w.specs.Keys;
    while todo != {}
      invariant todo <= w.specs.Keys
      invariant forall id | id in w.specs && id !in todo :: !LeafFails(w, id, path, operator, value)
      invariant forall id | id in matched ::
        id in w.specs && id !in todo && LeafMatches(w, id, path, operator, value) && matched[id] == IsReady(w, id)
      invariant forall id | id in w.specs && id !in todo :: LeafMatches(w, id, path, operator, value) ==> id in matched
      decreases todo
    {
      var id :| id in todo;
      todo := todo - {id};
      var hit, status := MatchLeaf(w, id, path, operator, value);
      if !status.Matched? {
        return status;
      }
      if hit {
        matched := matched[id := IsReady(w, id)];
      }
    }
    assert matched == map id | id in w.specs && LeafMatches(w, id, path, operator, value) :: IsReady(w, id);
    r := Matched(matched);
  }

  method EvaluateCondition(w: World, condition: string) returns (r: Eval)
    ensures r == EvalCondition(w, condition)
  {
    var parsed := Parse(condition);
    if parsed.None? {
      return Failed;
    }
    var c := parsed.value;
    if c.field == "id" {
      match c.operator
      case Equals =>
        var nodes := ListMatching(w, c.value);
        r := Matched(nodes);
      case Matches =>
        if !IsRegex(c.value) {
          r := GlobMatching(w, c.value);
        } else if |c.value| < 2 {
          r := Crashed;
        } else {
          r := RegexMatching(w, c.value[1..|c.value| - 1]);
        }
    } else {
      var path := CutPrefix(c.field, "specs.");
      if path.None? {
        return Failed;
      }
      r := EvaluateSpecsCondition(w, path.value, c.operator, c.value);
    }
  }

  /** Deletes from `candidates`, in any order, what is not in `matched`. */
  method Retain(candidates: map<string, bool>, matched: map<string, bool>) returns (kept: map<string, bool>)
    ensures kept == map id | id in candidates && id in matched :: candidates[id]
  {
    kept := candidates;
    var todo := candidates.Keys;
    while todo != {}
      invariant todo <= candidates.Keys
      invariant kept == map id | id in candidates && (id in todo || id in matched) :: candidates[id]
      decreases todo
    {
      var id :| id in todo;
      todo := todo - {id};
      if id !in matched {
        kept := kept - {id};
      }
    }
  }

  method EvaluateAndGroup(w: World, group: string) returns (r: Eval)
    ensures r == EvalGroup(w, Conditions(group))
  {
    var parts := Split(group, AND);
    var candidates := w.nodes;
    for i := 0 to |parts|
      invariant EvalGroup(w, NonBlank(parts[..i])) == Matched(candidates)
    {
      NonBlankStep(parts, i);
      var condition := Trim(parts[i]);
      if condition == "" {
        continue;
      }
      EvalGroupStep(w, NonBlank(parts[..i]), condition);
      var status := EvaluateCondition(w, condition);
      if !status.Matched? {
        EvalGroupFails(w, parts, i + 1);
        return status;
      }
      candidates := Retain(candidates, status.nodes);
    }
    assert parts[..|parts|] == parts;
    r := Matched(candidates);
  }

  /** The loop over the OR groups. */
  method MergeGroups(w: World, parts: seq<string>) returns (r: Eval)
    ensures r == EvalGroups(w, AllConditions(NonBlank(parts)))
  {
    var result: map<string, bool> := map[];
    for i := 0 to |parts|
      invariant EvalGroups(w, AllConditions(NonBlank(parts[..i]))) == Matched(result)
    {
      NonBlankStep(parts, i);
      var group := Trim(parts[i]);
      if group == "" {
        continue;
      }
      EvalGroupsStep(w, NonBlank(parts[..i]), group);
      var status := EvaluateAndGroup(w, group);
      if !status.Matched? {
        EvalGroupsFails(w, parts, i + 1);
        return status;
      }
      result := result + status.nodes;
    }
    assert parts[..|parts|] == parts;
    r := Matched(result);
  }

  method QueryMatching(w: World, expr: string) returns (r: Eval)
    ensures r == EvalQuery(w, expr)
  {
    if Trim(expr) == "" {
      return Failed;
    }
    r := MergeGroups(w, Split(expr, OR));
    if r.Matched? {
      r := NonEmpty(r.nodes);
    }
  }
}
