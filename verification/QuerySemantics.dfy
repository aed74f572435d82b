/** What a query means, node by node, and the proof that the evaluator computes exactly that. */
module QuerySemantics {
  import opened Common
  import opened Text
  import opened Query

  // ------------------------------------------------------- reference semantics

  function Inner(value: string): string {
    if |value| < 2 then "" else value[1..|value| - 1]
  }

  /** The value stands between slashes: a regular expression and not a glob. */
  predicate Slashed(value: string) {
    value != "" && value[0] == '/' && value[|value| - 1] == '/'
  }

  lemma SlashedIsRegex(value: string)
    ensures IsRegex(value) <==> Slashed(value)
  {
    assert HasSuffix(value, "/") <==> value != "" && value[|value| - 1] == '/';
  }

  predicate IdHolds(w: World, operator: Operator, value: string, id: string) {
    match operator
    case Equals => id in Split(value, ",")
    case Matches =>
      if Slashed(value) then w.matchers.regex("^" + Inner(value) + "$", id)
      else w.matchers.glob(value, id) == Some(true)
  }

  predicate SpecHolds(w: World, path: string, operator: Operator, value: string, id: string) {
    HasLeaf(w, id, path) &&
    match operator
    case Equals => w.specs[id][path] == value
    case Matches =>
      if Slashed(value) then w.matchers.regex(Inner(value), w.specs[id][path])
      else w.matchers.glob(value, w.specs[id][path]) == Some(true)
  }

  /** The condition is true of the node. */
  predicate Holds(w: World, condition: string, id: string) {
    match Parse(condition)
    case None => false
    case Some(c) =>
      if c.field == "id" then IdHolds(w, c.operator, c.value, id)
      else
        match CutPrefix(c.field, "specs.")
        case None => false
        case Some(path) => SpecHolds(w, path, c.operator, c.value, id)
  }

  /** The matching library rejects the pattern `value` on some text it is tried on. */
  predicate BadPattern(w: World, value: string, anchored: bool, texts: set<string>) {
    if Slashed(value) then
      || |value| < 2
      || !w.matchers.compiles(if anchored then "^" + Inner(value) + "$" else Inner(value))
    else exists text | text in texts :: w.matchers.glob(value, text).None?
  }

  function Leaves(w: World, path: string): set<string> {
    set id | id in w.specs && path in w.specs[id] :: w.specs[id][path]
  }

  /** No operator, an unknown field, or a pattern the matching library rejects. */
  predicate Malformed(w: World, condition: string) {
    match Parse(condition)
    case None => true
    case Some(c) =>
      if c.field == "id" then c.operator.Matches? && BadPattern(w, c.value, true, w.nodes.Keys)
      else
        match CutPrefix(c.field, "specs.")
        case None => true
        case Some(path) =>
          c.operator.Matches? && Leaves(w, path) != {} && BadPattern(w, c.value, false, Leaves(w, path))
  }

  predicate IsIdPattern(condition: string) {
    match Parse(condition) case None => false case Some(c) => c.field == "id" && c.operator.Matches?
  }

  /** An id pattern that no known node matches. */
  predicate MatchesNobody(w: World, condition: string) {
    IsIdPattern(condition) && forall id | id in w.nodes :: !Holds(w, condition, id)
  }

  // ------------------------------------------------------------ one condition

  lemma IdMeaning(w: World, operator: Operator, value: string)
    ensures EvalId(w, operator, value).Matched? <==>
      (operator.Matches? ==>
        !BadPattern(w, value, true, w.nodes.Keys) && exists id | id in w.nodes :: IdHolds(w, operator, value, id))
    ensures EvalId(w, operator, value).Matched? ==>
      forall id | id in w.nodes :: id in EvalId(w, operator, value).nodes <==> IdHolds(w, operator, value, id)
    ensures EvalId(w, operator, value).Crashed? ==> operator.Matches? && BadPattern(w, value, true, w.nodes.Keys)
  {
    SlashedIsRegex(value);
    if operator.Matches? {
      if IsRegex(value) {
        if |value| >= 2 {
          RegexMeaning(w, Inner(value));
        }
      } else {
        GlobMeaning(w, value);
      }
    }
  }

  lemma NonEmptyMeaning(nodes: map<string, bool>)
    ensures NonEmpty(nodes).Matched? <==> exists id :: id in nodes
  {
    if |nodes| > 0 {
      assert |nodes.Keys| > 0;
      var id :| id in nodes.Keys;
    }
  }

  lemma GlobMeaning(w: World, pattern: string)
    ensures EvalGlob(w, pattern).Matched? <==>
      && !(exists id | id in w.nodes :: w.matchers.glob(pattern, id).None?)
      && (exists id | id in w.nodes :: w.matchers.glob(pattern, id) == Some(true))
    ensures EvalGlob(w, pattern).Matched? ==>
      forall id | id in w.nodes :: id in EvalGlob(w, pattern).nodes <==> w.matchers.glob(pattern, id) == Some(true)
    ensures !EvalGlob(w, pattern).Crashed?
  {
    var nodes := map id | id in w.nodes && w.matchers.glob(pattern, id) == Some(true) :: w.nodes[id];
    NonEmptyMeaning(nodes);
    assert forall id :: id in nodes <==> id in w.nodes && w.matchers.glob(pattern, id) == Some(true);
  }

  lemma RegexMeaning(w: World, pattern: string)
    ensures EvalRegex(w, pattern).Matched? <==>
      && w.matchers.compiles(Anchored(pattern))
      && (exists id | id in w.nodes :: w.matchers.regex(Anchored(pattern), id))
    ensures EvalRegex(w, pattern).Matched? ==>
      forall id | id in w.nodes :: id in EvalRegex(w, pattern).nodes <==> w.matchers.regex(Anchored(pattern), id)
    ensures !EvalRegex(w, pattern).Crashed?
  {
    var nodes := map id | id in w.nodes && w.matchers.regex(Anchored(pattern), id) :: w.nodes[id];
    NonEmptyMeaning(nodes);
    assert forall id :: id in nodes <==> id in w.nodes && w.matchers.regex(Anchored(pattern), id);
  }

  lemma LeafMeaning(w: World, path: string, operator: Operator, value: string, id: string)
    ensures LeafFails(w, id, path, operator, value) ==>
      operator.Matches? && BadPattern(w, value, false, Leaves(w, path)) && Leaves(w, path) != {}
    ensures !LeafFails(w, id, path, operator, value) ==>
      (LeafMatches(w, id, path, operator, value) <==> SpecHolds(w, path, operator, value, id))
  {
    SlashedIsRegex(value);
    if HasLeaf(w, id, path) {
      assert w.specs[id][path] in Leaves(w, path);
    }
  }

  /** A bad pattern fails on some node that has the spec. */
  lemma BadPatternFails(w: World, path: string, operator: Operator, value: string)
    requires operator.Matches? && Leaves(w, path) != {} && BadPattern(w, value, false, Leaves(w, path))
    ensures exists id | id in w.specs :: LeafFails(w, id, path, operator, value)
  {
    SlashedIsRegex(value);
    var leaf :| leaf in Leaves(w, path);
    if !IsRegex(value) {
      leaf :| leaf in Leaves(w, path) && w.matchers.glob(value, leaf).None?;
    }
    var id :| id in w.specs && path in w.specs[id] && w.specs[id][path] == leaf;
    assert LeafFails(w, id, path, operator, value);
  }

  lemma SpecsMeaning(w: World, path: string, operator: Operator, value: string)
    ensures var bad := operator.Matches? && Leaves(w, path) != {} && BadPattern(w, value, false, Leaves(w, path));
      && (EvalSpecs(w, path, operator, value).Matched? <==> !bad)
      && (EvalSpecs(w, path, operator, value).Matched? ==>
            forall id :: id in EvalSpecs(w, path, operator, value).nodes <==> SpecHolds(w, path, operator, value, id))
  {
    forall id
      ensures LeafFails(w, id, path, operator, value) ==>
        operator.Matches? && BadPattern(w, value, false, Leaves(w, path)) && Leaves(w, path) != {}
      ensures !LeafFails(w, id, path, operator, value) ==>
        (LeafMatches(w, id, path, operator, value) <==> SpecHolds(w, path, operator, value, id))
    {
      LeafMeaning(w, path, operator, value, id);
    }
    if operator.Matches? && Leaves(w, path) != {} && BadPattern(w, value, false, Leaves(w, path)) {
      BadPatternFails(w, path, operator, value);
    }
  }

  /** A condition evaluates unless it is malformed or an id pattern nobody matches; then it means what it says. */
  lemma ConditionMeaning(w: World, condition: string)
    ensures EvalCondition(w, condition).Matched? <==> !Malformed(w, condition) && !MatchesNobody(w, condition)
    ensures EvalCondition(w, condition).Matched? ==>
      forall id | id in w.nodes :: id in EvalCondition(w, condition).nodes <==> Holds(w, condition, id)
    ensures EvalCondition(w, condition).Crashed? ==> Malformed(w, condition)
  {
    match Parse(condition)
    case None =>
    case Some(c) =>
      if c.field == "id" {
        IdMeaning(w, c.operator, c.value);
        forall id ensures Holds(w, condition, id) <==> IdHolds(w, c.operator, c.value, id) {}
      } else {
        match CutPrefix(c.field, "specs.")
        case None =>
        case Some(path) => SpecsMeaning(w, path, c.operator, c.value);
      }
  }

  // --------------------------------------------------------------- the whole query

  /** Which nodes a condition is true of. */
  type Truth = (string, string) -> bool

  function TruthIn(w: World): Truth {
    (condition, id) => Holds(w, condition, id)
  }

  function EvaluatesIn(w: World): string -> bool {
    condition => !Malformed(w, condition) && !MatchesNobody(w, condition)
  }

  predicate GroupHolds(holds: Truth, group: seq<string>, id: string) {
    forall c | c in group :: holds(c, id)
  }

  /** Some group has only true conditions. */
  predicate Satisfies(holds: Truth, groups: seq<seq<string>>, id: string) {
    exists group | group in groups :: GroupHolds(holds, group, id)
  }

  predicate Throughout(groups: seq<seq<string>>, p: string -> bool) {
    forall group, c | group in groups && c in group :: p(c)
  }

  /** The known nodes that satisfy the query, with their readiness. */
  function Answer(holds: Truth, nodes: map<string, bool>, groups: seq<seq<string>>): map<string, bool> {
    map id | id in nodes && Satisfies(holds, groups, id) :: nodes[id]
  }

  lemma ConditionReflects(w: World, condition: string, holds: Truth, ok: string -> bool)
    requires holds == TruthIn(w) && ok == EvaluatesIn(w)
    ensures EvalCondition(w, condition).Matched? <==> ok(condition)
    ensures EvalCondition(w, condition).Matched? ==>
      forall id | id in w.nodes :: id in EvalCondition(w, condition).nodes <==> holds(condition, id)
  {
    ConditionMeaning(w, condition);
  }

  /** `nodes` are the known nodes that satisfy `group`, with their readiness. */
  ghost predicate GroupSelection(w: World, nodes: map<string, bool>, group: seq<string>, holds: Truth) {
    && (forall id :: id in nodes <==> id in w.nodes && GroupHolds(holds, group, id))
    && (forall id | id in nodes :: nodes[id] == w.nodes[id])
  }

  lemma NarrowSelection(
      w: World, kept: map<string, bool>, matched: map<string, bool>, init: seq<string>, last: string, holds: Truth)
    requires GroupSelection(w, kept, init, holds)
    requires forall id | id in w.nodes :: id in matched <==> holds(last, id)
    ensures GroupSelection(w, map id | id in kept && id in matched :: kept[id], init + [last], holds)
  {
    forall id
      ensures GroupHolds(holds, init + [last], id) <==> GroupHolds(holds, init, id) && holds(last, id)
    {
      if GroupHolds(holds, init + [last], id) {
        assert last in init + [last];
        forall c | c in init ensures holds(c, id) { assert c in init + [last]; }
      }
    }
  }

  lemma {:induction false} GroupMeaning(w: World, group: seq<string>, holds: Truth, ok: string -> bool)
    requires holds == TruthIn(w) && ok == EvaluatesIn(w)
    ensures EvalGroup(w, group).Matched? <==> forall c | c in group :: ok(c)
    ensures EvalGroup(w, group).Matched? ==> GroupSelection(w, EvalGroup(w, group).nodes, group, holds)
    decreases |group|
  {
    if group != [] {
      var init, last := group[..|group| - 1], group[|group| - 1];
      assert group == init + [last];
      GroupMeaning(w, init, holds, ok);
      ConditionReflects(w, last, holds, ok);
      if EvalGroup(w, init).Matched? && EvalCondition(w, last).Matched? {
        NarrowSelection(w, EvalGroup(w, init).nodes, EvalCondition(w, last).nodes, init, last, holds);
      }
    }
  }

  lemma SatisfiesStep(holds: Truth, init: seq<seq<string>>, last: seq<string>, id: string)
    ensures Satisfies(holds, init + [last], id) <==> Satisfies(holds, init, id) || GroupHolds(holds, last, id)
  {
    if Satisfies(holds, init, id) {
      var g :| g in init && GroupHolds(holds, g, id);
      assert g in init + [last];
    }
    assert last in init + [last];
  }

  lemma {:induction false} GroupsMeaning(w: World, groups: seq<seq<string>>, holds: Truth, ok: string -> bool)
    requires holds == TruthIn(w) && ok == EvaluatesIn(w)
    ensures EvalGroups(w, groups).Matched? <==> Throughout(groups, ok)
    ensures EvalGroups(w, groups).Matched? ==> EvalGroups(w, groups).nodes == Answer(holds, w.nodes, groups)
    decreases |groups|
  {
    if groups != [] {
      var init, last := groups[..|groups| - 1], groups[|groups| - 1];
      assert groups == init + [last];
      GroupsMeaning(w, init, holds, ok);
      GroupMeaning(w, last, holds, ok);
      ThroughoutStep(init, last, ok);
      if EvalGroups(w, init).Matched? && EvalGroup(w, last).Matched? {
        WidenAnswer(w, init, last, holds, EvalGroup(w, last).nodes);
      }
    }
  }

  lemma WidenAnswer(
      w: World, init: seq<seq<string>>, last: seq<string>, holds: Truth, nodes: map<string, bool>)
    requires GroupSelection(w, nodes, last, holds)
    ensures Answer(holds, w.nodes, init) + nodes == Answer(holds, w.nodes, init + [last])
  {
    forall id
      ensures Satisfies(holds, init + [last], id) <==> Satisfies(holds, init, id) || GroupHolds(holds, last, id)
    {
      SatisfiesStep(holds, init, last, id);
    }
  }

  lemma ThroughoutStep(init: seq<seq<string>>, last: seq<string>, p: string -> bool)
    ensures Throughout(init + [last], p) <==> Throughout(init, p) && forall c | c in last :: p(c)
  {
    if Throughout(init + [last], p) {
      forall group, c | group in init && c in group ensures p(c) {
        assert group in init + [last];
      }
      assert last in init + [last];
    }
  }

  lemma AnswerMembers(holds: Truth, nodes: map<string, bool>, groups: seq<seq<string>>)
    ensures Answer(holds, nodes, groups) != map[] <==> exists id | id in nodes :: Satisfies(holds, groups, id)
  {
    if id :| id in nodes && Satisfies(holds, groups, id) {
      assert id in Answer(holds, nodes, groups);
    }
    if Answer(holds, nodes, groups) != map[] {
      var id :| id in Answer(holds, nodes, groups);
    }
  }

  lemma ParsedMeaning(w: World, groups: seq<seq<string>>)
    ensures EvalParsed(w, groups).Matched? <==>
      Throughout(groups, EvaluatesIn(w)) && Answer(TruthIn(w), w.nodes, groups) != map[]
    ensures EvalParsed(w, groups).Matched? ==> EvalParsed(w, groups).nodes == Answer(TruthIn(w), w.nodes, groups)
  {
    GroupsMeaning(w, groups, TruthIn(w), EvaluatesIn(w));
    NonEmptyMeaning(Answer(TruthIn(w), w.nodes, groups));
  }

  /**
   * A query succeeds exactly when it is not blank, every condition evaluates and some known node
   * satisfies it; its result is then exactly the satisfying nodes with their readiness.
   */
  lemma QueryMeaning(w: World, expr: string)
    ensures EvalQuery(w, expr).Matched? <==>
      && Trim(expr) != ""
      && Throughout(Groups(expr), EvaluatesIn(w))
      && exists id | id in w.nodes :: Satisfies(TruthIn(w), Groups(expr), id)
    ensures EvalQuery(w, expr).Matched? ==> EvalQuery(w, expr).nodes == Answer(TruthIn(w), w.nodes, Groups(expr))
  {
    ParsedMeaning(w, Groups(expr));
    AnswerMembers(TruthIn(w), w.nodes, Groups(expr));
  }

  // ---------------------------------------------------------- order of evaluation

  ghost predicate SameConditions(g: seq<string>, h: seq<string>) {
    forall c :: c in g <==> c in h
  }

  ghost predicate HasTwin(g: seq<string>, b: seq<seq<string>>) {
    exists h | h in b :: SameConditions(g, h)
  }

  /** Each group of `a` has a counterpart with the same conditions in `b`. */
  ghost predicate Covers(a: seq<seq<string>>, b: seq<seq<string>>) {
    forall g {:trigger HasTwin(g, b)} | g in a :: HasTwin(g, b)
  }

  lemma CoveredAnswer(holds: Truth, a: seq<seq<string>>, b: seq<seq<string>>, id: string)
    requires Covers(a, b) && Satisfies(holds, a, id)
    ensures Satisfies(holds, b, id)
  {
    var g :| g in a && GroupHolds(holds, g, id);
    assert HasTwin(g, b);
    var h :| h in b && SameConditions(g, h);
    assert GroupHolds(holds, h, id);
  }

  lemma SameAnswers(holds: Truth, nodes: map<string, bool>, a: seq<seq<string>>, b: seq<seq<string>>)
    requires Covers(a, b) && Covers(b, a)
    ensures Answer(holds, nodes, a) == Answer(holds, nodes, b)
  {
    forall id
      ensures Satisfies(holds, a, id) <==> Satisfies(holds, b, id)
    {
      if Satisfies(holds, a, id) { CoveredAnswer(holds, a, b, id); }
      if Satisfies(holds, b, id) { CoveredAnswer(holds, b, a, id); }
    }
  }

  lemma CoveredThroughout(a: seq<seq<string>>, b: seq<seq<string>>, p: string -> bool)
    requires Covers(a, b) && Throughout(b, p)
    ensures Throughout(a, p)
  {
    forall g, c | g in a && c in g ensures p(c) {
      assert HasTwin(g, b);
      var h :| h in b && SameConditions(g, h);
    }
  }

  /** Neither the order of the groups nor that of the conditions matters, nor repetitions of either. */
  lemma OrderIsIrrelevant(w: World, expr1: string, expr2: string)
    requires Trim(expr1) != "" && Trim(expr2) != ""
    requires Covers(Groups(expr1), Groups(expr2)) && Covers(Groups(expr2), Groups(expr1))
    ensures EvalQuery(w, expr1).Matched? <==> EvalQuery(w, expr2).Matched?
    ensures EvalQuery(w, expr1).Matched? ==> EvalQuery(w, expr1) == EvalQuery(w, expr2)
  {
    OrderIsIrrelevantParsed(w, Groups(expr1), Groups(expr2));
  }

  lemma OrderIsIrrelevantParsed(w: World, a: seq<seq<string>>, b: seq<seq<string>>)
    requires Covers(a, b) && Covers(b, a)
    ensures EvalParsed(w, a).Matched? <==> EvalParsed(w, b).Matched?
    ensures EvalParsed(w, a).Matched? ==> EvalParsed(w, a) == EvalParsed(w, b)
  {
    ParsedMeaning(w, a);
    ParsedMeaning(w, b);
    SameAnswers(TruthIn(w), w.nodes, a, b);
    if Throughout(a, EvaluatesIn(w)) { CoveredThroughout(b, a, EvaluatesIn(w)); }
    if Throughout(b, EvaluatesIn(w)) { CoveredThroughout(a, b, EvaluatesIn(w)); }
  }

  /** Every group of a query has at least one condition, so no group matches every node for want of one. */
  lemma NoEmptyGroup(expr: string)
    ensures forall g | g in Groups(expr) :: g != []
  {
    NonBlankPartsAreTrimmed(Split(expr, OR));
    NoEmptyConditions(NonBlank(Split(expr, OR)));
  }

  lemma {:induction false} NonBlankPartsAreTrimmed(parts: seq<string>)
    ensures forall p | p in NonBlank(parts) :: p != "" && Trimmed(p)
    decreases |parts|
  {
    if parts != [] {
      NonBlankPartsAreTrimmed(parts[..|parts| - 1]);
    }
  }

  lemma {:induction false} NoEmptyConditions(groups: seq<string>)
    requires forall g | g in groups :: g != "" && Trimmed(g)
    ensures forall c | c in AllConditions(groups) :: c != []
    decreases |groups|
  {
    if groups != [] {
      var init, last := groups[..|groups| - 1], groups[|groups| - 1];
      assert groups == init + [last];
      forall g | g in init ensures g != "" && Trimmed(g) { assert g in groups; }
      assert last in groups;
      NoEmptyConditions(init);
      FirstConditionIsThere(last);
    }
  }

  lemma FirstConditionIsThere(group: string)
    requires group != "" && Trimmed(group)
    ensures Conditions(group) != []
  {
    var parts := Split(group, AND);
    var first := parts[0];
    match Index(group, AND) {
      case None => assert first == group;
      case Some(i) =>
        assert first == group[..i];
        assert group[i..i + |AND|][0] == AND[0];
        assert group[i] == ' ';
        assert IsSpace(' ') && !IsSpace(group[0]);
        assert i > 0;
    }
    assert first != "" && !IsSpace(first[0]);
    TrimKeepsStart(first);
    assert parts == [first] + parts[1..];
    NonBlankSplit([first], parts[1..]);
    assert [first][..0] == [];
  }

  lemma TrimKeepsStart(s: string)
    requires s != "" && !IsSpace(s[0])
    ensures Trim(s) != ""
  {
    TrimRightKeeps(s);
  }

  lemma {:induction false} TrimRightKeeps(s: string)
    requires s != "" && !IsSpace(s[0])
    ensures TrimRight(s) != ""
    decreases |s|
  {
    if IsSpace(s[|s| - 1]) {
      TrimRightKeeps(s[..|s| - 1]);
    }
  }

  // -------------------------------------------------------- id patterns that miss

  function WellFormedIn(w: World): string -> bool {
    condition => !Malformed(w, condition)
  }

  function HitsIn(w: World): string -> bool {
    condition => !MatchesNobody(w, condition)
  }

  lemma {:induction false} GroupCrash(w: World, group: seq<string>)
    requires forall c | c in group :: WellFormedIn(w)(c)
    ensures !EvalGroup(w, group).Crashed?
    decreases |group|
  {
    if group != [] {
      var init, last := group[..|group| - 1], group[|group| - 1];
      assert group == init + [last];
      forall c | c in init ensures WellFormedIn(w)(c) { assert c in group; }
      GroupCrash(w, init);
      assert last in group;
      ConditionMeaning(w, last);
    }
  }

  lemma {:induction false} GroupsCrash(w: World, groups: seq<seq<string>>)
    requires Throughout(groups, WellFormedIn(w))
    ensures !EvalGroups(w, groups).Crashed?
    decreases |groups|
  {
    if groups != [] {
      var init, last := groups[..|groups| - 1], groups[|groups| - 1];
      assert groups == init + [last];
      ThroughoutStep(init, last, WellFormedIn(w));
      GroupsCrash(w, init);
      GroupCrash(w, last);
    }
  }

  lemma BothThroughout(w: World, groups: seq<seq<string>>)
    ensures Throughout(groups, EvaluatesIn(w)) <==>
      Throughout(groups, WellFormedIn(w)) && Throughout(groups, HitsIn(w))
  {
    assert forall c :: EvaluatesIn(w)(c) <==> WellFormedIn(w)(c) && HitsIn(w)(c);
  }

  lemma MissedPatternParsed(w: World, groups: seq<seq<string>>)
    requires Throughout(groups, WellFormedIn(w))
    ensures var answer := Answer(TruthIn(w), w.nodes, groups);
      EvalParsed(w, groups) == NonEmpty(answer) <==> answer == map[] || Throughout(groups, HitsIn(w))
  {
    ParsedMeaning(w, groups);
    BothThroughout(w, groups);
    GroupsCrash(w, groups);
    NonEmptyMeaning(Answer(TruthIn(w), w.nodes, groups));
  }

  /**
   * A well-formed query gives the nodes that satisfy it exactly when every id pattern in it is matched by
   * somebody, or nobody satisfies the query anyway: a pattern that misses is an error even where another
   * OR group has matches.
   */
  lemma MissedPatternIsFatal(w: World, expr: string)
    requires Trim(expr) != "" && Throughout(Groups(expr), WellFormedIn(w))
    ensures var answer := Answer(TruthIn(w), w.nodes, Groups(expr));
      EvalQuery(w, expr) == NonEmpty(answer) <==> answer == map[] || Throughout(Groups(expr), HitsIn(w))
  {
    MissedPatternParsed(w, Groups(expr));
  }

  // ------------------------------------------------------- the pattern of one slash

  /** The value "/" counts as a regular expression, and has nothing between its slashes to slice out. */
  predicate IsLoneSlash(w: World, condition: string) {
    match Parse(condition)
    case None => false
    case Some(c) =>
      && c.operator.Matches? && c.value == "/"
      && (c.field == "id" ||
          match CutPrefix(c.field, "specs.") case None => false case Some(path) => Leaves(w, path) != {})
  }

  lemma SlashOnly(value: string)
    ensures IsRegex(value) && |value| < 2 <==> value == "/"
  {
    SlashedIsRegex(value);
  }

  lemma SpecsCrash(w: World, path: string, operator: Operator, value: string)
    ensures EvalSpecs(w, path, operator, value).Crashed? <==> operator.Matches? && value == "/" && Leaves(w, path) != {}
  {
    SlashOnly(value);
    if operator.Matches? && value == "/" && Leaves(w, path) != {} {
      BadPatternFails(w, path, operator, value);
    }
    if id :| id in w.specs && LeafFails(w, id, path, operator, value) {
      assert w.specs[id][path] in Leaves(w, path);
    }
  }

  /** A condition panics exactly when it matches an id, or a spec that some node has, with "/". */
  lemma ConditionCrashes(w: World, condition: string)
    ensures EvalCondition(w, condition).Crashed? <==> IsLoneSlash(w, condition)
  {
    match Parse(condition)
    case None =>
    case Some(c) =>
      SlashOnly(c.value);
      match CutPrefix(c.field, "specs.")
      case None =>
      case Some(path) => SpecsCrash(w, path, c.operator, c.value);
  }

  /** All conditions of a query in the order in which they are evaluated. */
  function Flatten(groups: seq<seq<string>>): seq<string> {
    if groups == [] then [] else Flatten(groups[..|groups| - 1]) + groups[|groups| - 1]
  }

  /** The first condition that does not evaluate panics. */
  ghost predicate FirstFailurePanics(conditions: seq<string>, ok: string -> bool, panics: string -> bool) {
    exists k | 0 <= k < |conditions| :: panics(conditions[k]) && AllBefore(conditions, k, ok)
  }

  predicate AllBefore(conditions: seq<string>, k: nat, ok: string -> bool)
    requires k <= |conditions|
  {
    forall j | 0 <= j < k :: ok(conditions[j])
  }

  function PanicsIn(w: World): string -> bool {
    condition => IsLoneSlash(w, condition)
  }

  /** One more condition makes a difference exactly when all the ones before it evaluate. */
  lemma OneMorePanics(init: seq<string>, last: string, ok: string -> bool, panics: string -> bool)
    ensures FirstFailurePanics(init + [last], ok, panics) <==>
      FirstFailurePanics(init, ok, panics) || (panics(last) && AllBefore(init, |init|, ok))
  {
    var all := init + [last];
    if FirstFailurePanics(init, ok, panics) {
      var k :| 0 <= k < |init| && panics(init[k]) && AllBefore(init, k, ok);
      assert panics(all[k]) && AllBefore(all, k, ok);
    }
    if panics(last) && AllBefore(init, |init|, ok) {
      assert panics(all[|init|]) && AllBefore(all, |init|, ok);
    }
    if FirstFailurePanics(all, ok, panics) {
      var k :| 0 <= k < |all| && panics(all[k]) && AllBefore(all, k, ok);
      if k < |init| {
        assert all[k] == init[k];
        assert AllBefore(init, k, ok) by { forall j | 0 <= j < k ensures ok(init[j]) { assert ok(all[j]); } }
      } else {
        assert AllBefore(init, |init|, ok) by { forall j | 0 <= j < |init| ensures ok(init[j]) { assert ok(all[j]); } }
      }
    }
  }

  lemma {:induction false} MorePanics(
      before: seq<string>, group: seq<string>, ok: string -> bool, panics: string -> bool)
    ensures FirstFailurePanics(before + group, ok, panics) <==>
      FirstFailurePanics(before, ok, panics)
      || (AllBefore(before, |before|, ok) && FirstFailurePanics(group, ok, panics))
    decreases |group|
  {
    if group == [] {
      assert before + group == before;
    } else {
      var init, last := group[..|group| - 1], group[|group| - 1];
      assert group == init + [last] && before + group == (before + init) + [last];
      MorePanics(before, init, ok, panics);
      OneMorePanics(before + init, last, ok, panics);
      OneMorePanics(init, last, ok, panics);
      AllBeforeBoth(before, init, ok);
    }
  }

  lemma AllBeforeBoth(a: seq<string>, b: seq<string>, ok: string -> bool)
    ensures AllBefore(a + b, |a + b|, ok) <==> AllBefore(a, |a|, ok) && AllBefore(b, |b|, ok)
  {
    if AllBefore(a + b, |a + b|, ok) {
      forall j | 0 <= j < |a| ensures ok(a[j]) { assert ok((a + b)[j]); }
      forall j | 0 <= j < |b| ensures ok(b[j]) { assert ok((a + b)[|a| + j]); }
    }
  }

  lemma ConditionOutcome(w: World, condition: string, ok: string -> bool, panics: string -> bool)
    requires ok == EvaluatesIn(w) && panics == PanicsIn(w)
    ensures EvalCondition(w, condition).Matched? <==> ok(condition)
    ensures EvalCondition(w, condition).Crashed? <==> panics(condition)
  {
    ConditionMeaning(w, condition);
    ConditionCrashes(w, condition);
  }

  lemma {:induction false} GroupCrashes(w: World, group: seq<string>, ok: string -> bool, panics: string -> bool)
    requires ok == EvaluatesIn(w) && panics == PanicsIn(w)
    ensures EvalGroup(w, group).Matched? <==> AllBefore(group, |group|, ok)
    ensures EvalGroup(w, group).Crashed? <==> FirstFailurePanics(group, ok, panics)
    decreases |group|
  {
    if group != [] {
      var init, last := group[..|group| - 1], group[|group| - 1];
      assert group == init + [last];
      GroupCrashes(w, init, ok, panics);
      ConditionOutcome(w, last, ok, panics);
      OneMorePanics(init, last, ok, panics);
      AllBeforeBoth(init, [last], ok);
      NoPanicOnceOk(init, ok, panics, w);
    }
  }

  /** A condition that panics does not evaluate. */
  lemma NoPanicOnceOk(conditions: seq<string>, ok: string -> bool, panics: string -> bool, w: World)
    requires ok == EvaluatesIn(w) && panics == PanicsIn(w)
    ensures AllBefore(conditions, |conditions|, ok) ==> !FirstFailurePanics(conditions, ok, panics)
  {
    forall k | 0 <= k < |conditions|
      ensures !(ok(conditions[k]) && panics(conditions[k]))
    {
      ConditionOutcome(w, conditions[k], ok, panics);
    }
  }

  lemma {:induction false} GroupsCrashWhen(
      w: World, groups: seq<seq<string>>, ok: string -> bool, panics: string -> bool)
    requires ok == EvaluatesIn(w) && panics == PanicsIn(w)
    ensures EvalGroups(w, groups).Matched? <==> AllBefore(Flatten(groups), |Flatten(groups)|, ok)
    ensures EvalGroups(w, groups).Crashed? <==> FirstFailurePanics(Flatten(groups), ok, panics)
    decreases |groups|
  {
    if groups != [] {
      var init, last := groups[..|groups| - 1], groups[|groups| - 1];
      GroupsCrashWhen(w, init, ok, panics);
      GroupCrashes(w, last, ok, panics);
      MorePanics(Flatten(init), last, ok, panics);
      AllBeforeBoth(Flatten(init), last, ok);
      NoPanicOnceOk(Flatten(init), ok, panics, w);
    }
  }

  /**
   * A query panics exactly when it is not blank and the first of its conditions that does not evaluate, in
   * the order in which they are written, matches an id or some node's spec with "/".
   */
  lemma QueryCrashes(w: World, expr: string)
    ensures EvalQuery(w, expr).Crashed? <==>
      Trim(expr) != "" && FirstFailurePanics(Flatten(Groups(expr)), EvaluatesIn(w), PanicsIn(w))
  {
    GroupsCrashWhen(w, Groups(expr), EvaluatesIn(w), PanicsIn(w));
  }
}
