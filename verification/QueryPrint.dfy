/** Writing a list of AND groups as a query expression, and reading the same groups back. */
module QueryPrint {
  import opened Common
  import opened Text
  import opened Query

  function PrintGroups(groups: seq<seq<string>>): (parts: seq<string>)
    ensures |parts| == |groups|
  {
    if groups == [] then []
    else PrintGroups(groups[..|groups| - 1]) + [Join(groups[|groups| - 1], AND)]
  }

  function Print(groups: seq<seq<string>>): string {
    Join(PrintGroups(groups), OR)
  }

  function Pad(s: string): string {
    " " + s + " "
  }

  /** Non-empty, trimmed, and free of separators even when padded with spaces. */
  ghost predicate Printable(condition: string) {
    && condition != "" && Trimmed(condition)
    && !Contains(Pad(condition), AND)
    && !Contains(Pad(condition), OR)
  }

  ghost predicate PrintableGroup(group: seq<string>) {
    group != [] && forall c | c in group :: Printable(c)
  }

  /** A separator starts and ends with its only spaces. */
  predicate Spaced(sep: string) {
    && |sep| >= 3 && sep[0] == ' ' && sep[|sep| - 1] == ' '
    && forall k | 0 < k < |sep| - 1 :: sep[k] != ' '
  }

  lemma PaddedIsClean(s: string, sep: string)
    requires Spaced(sep) && !Contains(Pad(s), sep)
    ensures Clean(s, sep)
  {
    forall i | 0 <= i < |s|
      ensures !OccursAt(s + sep, i, sep)
    {
      if OccursAt(s + sep, i, sep) {
        if i + |sep| <= |s| + 1 {
          assert Pad(s)[i + 1..i + 1 + |sep|] == (s + sep)[i..i + |sep|];
          assert OccursAt(Pad(s), i + 1, sep);
        } else {
          // The text's own separator would start inside the one found, at a character that is no space.
          assert false;
        }
      }
    }
  }

  lemma OrCoversNoOtherLetter(s: string, i: int, p: nat)
    requires OccursAt(s, i, OR) && p < |s| && s[p] !in OR
    ensures p < i || p >= i + |OR|
  {}

  /** "or" cannot reach across an "and". */
  lemma NoOrAcrossAnd(x: string, y: string)
    requires !Contains(x, OR) && !Contains(y, OR)
    ensures !Contains(x + "and" + y, OR)
  {
    var s := x + "and" + y;
    forall i | 0 <= i <= |s|
      ensures !OccursAt(s, i, OR)
    {
      if OccursAt(s, i, OR) {
        OrCoversNoOtherLetter(s, i, |x|);
        OrCoversNoOtherLetter(s, i, |x| + 1);
        OrCoversNoOtherLetter(s, i, |x| + 2);
        if i + 4 <= |x| {
          assert x[i..i + 4] == s[i..i + 4];
          assert OccursAt(x, i, OR);
        } else {
          assert y[i - |x| - 3..i - |x| - 3 + 4] == s[i..i + 4];
          assert OccursAt(y, i - |x| - 3, OR);
        }
      }
    }
  }

  lemma {:induction false} GroupTextHasNoOr(group: seq<string>)
    requires PrintableGroup(group)
    ensures !Contains(Pad(Join(group, AND)), OR)
    decreases |group|
  {
    if |group| > 1 {
      var rest := group[1..];
      forall c | c in rest ensures Printable(c) { assert c in group; }
      GroupTextHasNoOr(rest);
      assert Printable(group[0]);
      NoOrAcrossAnd(Pad(group[0]), Pad(Join(rest, AND)));
      assert Pad(Join(group, AND)) == Pad(group[0]) + "and" + Pad(Join(rest, AND));
    } else {
      assert Printable(group[0]);
    }
  }

  lemma {:induction false} GroupTextIsTrimmed(group: seq<string>)
    requires PrintableGroup(group)
    ensures Join(group, AND) != "" && Trimmed(Join(group, AND))
    decreases |group|
  {
    assert Printable(group[0]);
    if |group| > 1 {
      forall c | c in group[1..] ensures Printable(c) { assert c in group; }
      GroupTextIsTrimmed(group[1..]);
    }
  }

  lemma {:induction false} NonBlankIsIdentity(parts: seq<string>)
    requires forall p | p in parts :: p != "" && Trimmed(p)
    ensures NonBlank(parts) == parts
    decreases |parts|
  {
    if parts != [] {
      var init, last := parts[..|parts| - 1], parts[|parts| - 1];
      assert parts == init + [last];
      forall p | p in init ensures p != "" && Trimmed(p) { assert p in parts; }
      NonBlankIsIdentity(init);
      assert last in parts;
      TrimOfTrimmed(last);
    }
  }

  lemma GroupRoundTrip(group: seq<string>)
    requires PrintableGroup(group)
    ensures Conditions(Join(group, AND)) == group
  {
    forall c | c in group
      ensures Clean(c, AND) && c != "" && Trimmed(c)
    {
      assert Printable(c);
      PaddedIsClean(c, AND);
    }
    SplitJoin(group, AND);
    NonBlankIsIdentity(group);
  }

  lemma {:induction false} PartsAreClean(groups: seq<seq<string>>)
    requires forall g | g in groups :: PrintableGroup(g)
    ensures forall p | p in PrintGroups(groups) :: Clean(p, OR) && p != "" && Trimmed(p)
    decreases |groups|
  {
    if groups != [] {
      var init, last := groups[..|groups| - 1], groups[|groups| - 1];
      assert groups == init + [last];
      forall g | g in init ensures PrintableGroup(g) { assert g in groups; }
      PartsAreClean(init);
      assert last in groups;
      GroupTextHasNoOr(last);
      PaddedIsClean(Join(last, AND), OR);
      GroupTextIsTrimmed(last);
    }
  }

  lemma {:induction false} PartsRoundTrip(groups: seq<seq<string>>)
    requires forall g | g in groups :: PrintableGroup(g)
    ensures AllConditions(PrintGroups(groups)) == groups
    decreases |groups|
  {
    if groups != [] {
      var init, last := groups[..|groups| - 1], groups[|groups| - 1];
      assert groups == init + [last];
      forall g | g in init ensures PrintableGroup(g) { assert g in groups; }
      PartsRoundTrip(init);
      assert last in groups;
      GroupRoundTrip(last);
      var parts := PrintGroups(groups);
      assert parts[..|parts| - 1] == PrintGroups(init);
    }
  }

  /** Parsing a printed query gives back exactly the groups that were printed. */
  lemma PrintRoundTrip(groups: seq<seq<string>>)
    requires forall g | g in groups :: PrintableGroup(g)
    ensures Groups(Print(groups)) == groups
  {
    var parts := PrintGroups(groups);
    if groups == [] {
      BlankQuery();
    } else {
      PartsAreClean(groups);
      SplitJoin(parts, OR);
      NonBlankIsIdentity(parts);
      PartsRoundTrip(groups);
    }
  }

  lemma BlankQuery()
    ensures Groups("") == []
  {
    assert Split("", OR) == [""];
    assert [""][..0] == [];
  }

  // ------------------------------------------------- white space and blank parts

  lemma BlankIsTrimmedAway(s: string)
    ensures Blank(s) <==> Trim(s) == ""
  {
    var l, r := TrimSplits(s);
    if Blank(s) {
      TrimPadded(s, "", "");
      assert s + "" + "" == s;
    }
    if Trim(s) == "" { assert s == l + r; }
  }

  /** The parts that are not all white space, trimmed, in order. */
  function Kept(parts: seq<string>): seq<string> {
    if parts == [] then []
    else if Blank(parts[0]) then Kept(parts[1..])
    else [Trim(parts[0])] + Kept(parts[1..])
  }

  lemma {:induction false} NonBlankIsKept(parts: seq<string>)
    ensures NonBlank(parts) == Kept(parts)
    decreases |parts|
  {
    if parts != [] {
      assert parts == [parts[0]] + parts[1..];
      NonBlankSplit([parts[0]], parts[1..]);
      NonBlankIsKept(parts[1..]);
      assert [parts[0]][..0] == [];
      assert NonBlank([parts[0]]) == if Trim(parts[0]) == "" then [] else [Trim(parts[0])];
      BlankIsTrimmedAway(parts[0]);
    }
  }

  /** However conditions are padded, and whatever blank ones are between them, a group reads as the others, trimmed. */
  lemma GroupIgnoresBlanks(parts: seq<string>)
    requires parts != [] && forall p | p in parts :: Clean(p, AND)
    ensures Conditions(Join(parts, AND)) == Kept(parts)
  {
    SplitJoin(parts, AND);
    NonBlankIsKept(parts);
  }

  lemma {:induction false} AllConditionsAt(groups: seq<string>, i: nat)
    requires i < |groups|
    ensures |AllConditions(groups)| == |groups| && AllConditions(groups)[i] == Conditions(groups[i])
    decreases |groups|
  {
    var n := |groups| - 1;
    if i < n {
      AllConditionsAt(groups[..n], i);
    } else if n > 0 {
      AllConditionsAt(groups[..n], 0);
    }
  }

  /** And so for the groups of a query. */
  lemma QueryIgnoresBlanks(parts: seq<string>)
    requires parts != [] && forall p | p in parts :: Clean(p, OR)
    ensures var groups := Groups(Join(parts, OR));
      |groups| == |Kept(parts)| && forall i | 0 <= i < |groups| :: groups[i] == Conditions(Kept(parts)[i])
  {
    SplitJoin(parts, OR);
    NonBlankIsKept(parts);
    forall i | 0 <= i < |Kept(parts)|
      ensures |AllConditions(Kept(parts))| == |Kept(parts)|
      ensures AllConditions(Kept(parts))[i] == Conditions(Kept(parts)[i])
    {
      AllConditionsAt(Kept(parts), i);
    }
    assert Kept(parts) == [] ==> AllConditions(Kept(parts)) == [];
  }

  // --------------------------------------------------------------- one condition

  /** The first occurrence of a separator whose first letter does not occur before. */
  lemma FirstOccurrence(before: string, sep: string, after: string)
    requires sep != "" && sep[0] !in before
    ensures Index(before + sep + after, sep) == Some(|before|)
  {
    var s := before + sep + after;
    assert s[|before|..|before| + |sep|] == sep;
    assert OccursAt(s, |before|, sep);
    forall i | 0 <= i < |before|
      ensures !OccursAt(s, i, sep)
    {
      assert s[i] == before[i];
      NotAt(s, i, sep, 0);
    }
  }

  /** "field == value", with any white space anywhere around the two, is read as just that. */
  lemma EqualsIsRead(a: string, field: string, b: string, c: string, value: string, d: string)
    requires Blank(a) && Blank(b) && Blank(c) && Blank(d)
    requires Trimmed(field) && Trimmed(value) && '=' !in field
    ensures Parse((a + field + b) + "==" + (c + value + d)) == Some(Condition(field, Equals, value))
  {
    var l, r := a + field + b, c + value + d;
    FirstOccurrence(l, "==", r);
    assert (l + "==" + r)[..|l|] == l && (l + "==" + r)[|l| + 2..] == r;
    TrimPadded(a, field, b);
    TrimPadded(c, value, d);
  }

  /** Likewise "field =~ value", if "==" is not in the value. */
  lemma MatchesIsRead(a: string, field: string, b: string, c: string, value: string, d: string)
    requires Blank(a) && Blank(b) && Blank(c) && Blank(d)
    requires Trimmed(field) && Trimmed(value) && '=' !in field && !Contains(c + value + d, "==")
    ensures Parse((a + field + b) + "=~" + (c + value + d)) == Some(Condition(field, Matches, value))
  {
    var l, r := a + field + b, c + value + d;
    var s := l + "=~" + r;
    FirstOccurrence(l, "=~", r);
    NoDoubleEquals(l, r);
    assert s[..|l|] == l && s[|l| + 2..] == r;
    TrimPadded(a, field, b);
    TrimPadded(c, value, d);
  }

  lemma NoDoubleEquals(l: string, r: string)
    requires '=' !in l && !Contains(r, "==")
    ensures !Contains(l + "=~" + r, "==")
  {
    var s := l + "=~" + r;
    forall i | 0 <= i <= |s|
      ensures !OccursAt(s, i, "==")
    {
      if OccursAt(s, i, "==") {
        assert s[i..i + 2][0] == s[i] && s[i..i + 2][1] == s[i + 1];
        assert i >= |l| + 2;
        assert r[i - |l| - 2..i - |l| - 2 + 2] == s[i..i + 2];
        assert OccursAt(r, i - |l| - 2, "==");
      }
    }
  }

  /** Only a text without either operator is no condition. */
  lemma OperatorIsNeeded(condition: string)
    ensures Parse(condition).None? <==> !Contains(condition, "==") && !Contains(condition, "=~")
  {}
}
