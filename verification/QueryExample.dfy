/** A query that some node satisfies and the evaluator refuses all the same. */
module QueryExample {
  import opened Common
  import opened Text
  import opened Query
  import opened QuerySemantics
  import opened QueryPrint

  lemma NoSuchLetter(s: string, sep: string, k: nat)
    requires k < |sep| && sep[k] !in s
    ensures !Contains(s, sep)
  {
    forall i | 0 <= i <= |s|
      ensures !OccursAt(s, i, sep)
    {
      NotAt(s, i, sep, k);
    }
  }

  lemma ShortConditionsPrint()
    ensures Printable("id==a") && Printable("id=~b")
  {
    NoSuchLetter(Pad("id==a"), AND, 2);
    NoSuchLetter(Pad("id==a"), OR, 2);
    NoSuchLetter(Pad("id=~b"), AND, 2);
    NoSuchLetter(Pad("id=~b"), OR, 2);
  }

  lemma FoundAt(s: string, sep: string, at: nat)
    requires sep != "" && OccursAt(s, at, sep)
    requires forall i | 0 <= i < at :: !OccursAt(s, i, sep)
    ensures Index(s, sep) == Some(at)
  {}

  lemma ShortConditionsParse()
    ensures Parse("id==a") == Some(Condition("id", Equals, "a"))
    ensures Parse("id=~b") == Some(Condition("id", Matches, "b"))
  {
    assert OccursAt("id==a", 2, "==");
    NotAt("id==a", 0, "==", 0);
    NotAt("id==a", 1, "==", 0);
    FoundAt("id==a", "==", 2);
    assert OccursAt("id=~b", 2, "=~");
    NotAt("id=~b", 0, "=~", 0);
    NotAt("id=~b", 1, "=~", 0);
    FoundAt("id=~b", "=~", 2);
    forall i | 0 <= i <= |"id=~b"| ensures !OccursAt("id=~b", i, "==") {
      NotAt("id=~b", i, "==", if i == 2 then 1 else 0);
    }
    assert Index("id=~b", "==").None?;
    assert Trimmed("id") && Trimmed("a") && Trimmed("b");
    TrimOfTrimmed("id");
    TrimOfTrimmed("a");
    TrimOfTrimmed("b");
    assert "id==a"[..2] == "id" && "id==a"[4..] == "a";
    assert "id=~b"[..2] == "id" && "id=~b"[4..] == "b";
  }

  const LITERAL := Matchers((p: string, s: string) => Some(p == s), p => true, (p, s) => false)
  const ONE_NODE := World(map["a" := true], map[], LITERAL)
  const EITHER := [["id==a"], ["id=~b"]]

  lemma EitherIsReadBack()
    ensures Groups(Print(EITHER)) == EITHER
  {
    ShortConditionsPrint();
    PrintRoundTrip(EITHER);
  }

  lemma FirstHolds()
    ensures Satisfies(TruthIn(ONE_NODE), EITHER, "a")
  {
    ShortConditionsParse();
    CleanHasNoSeparator("a", ",");
    assert Split("a", ",") == ["a"];
    assert Holds(ONE_NODE, "id==a", "a");
    assert GroupHolds(TruthIn(ONE_NODE), EITHER[0], "a");
  }

  lemma SecondMisses()
    ensures !Throughout(EITHER, EvaluatesIn(ONE_NODE))
  {
    ShortConditionsParse();
    assert MatchesNobody(ONE_NODE, "id=~b");
    assert EITHER[1] in EITHER && "id=~b" in EITHER[1];
    assert !EvaluatesIn(ONE_NODE)("id=~b");
  }

  /** Node a satisfies "id==a or id=~b", yet the query fails, because nobody matches the pattern b. */
  lemma OrFailsOnMissedPattern()
    ensures Groups(Print(EITHER)) == EITHER
    ensures Satisfies(TruthIn(ONE_NODE), Groups(Print(EITHER)), "a")
    ensures !EvalQuery(ONE_NODE, Print(EITHER)).Matched?
  {
    EitherIsReadBack();
    FirstHolds();
    SecondMisses();
    QueryMeaning(ONE_NODE, Print(EITHER));
  }

  const SLASH := "id=~/"

  lemma SlashParses()
    ensures Printable(SLASH) && Parse(SLASH) == Some(Condition("id", Matches, "/"))
  {
    NoSuchLetter(Pad(SLASH), AND, 2);
    NoSuchLetter(Pad(SLASH), OR, 2);
    assert OccursAt(SLASH, 2, "=~");
    NotAt(SLASH, 0, "=~", 0);
    NotAt(SLASH, 1, "=~", 0);
    FoundAt(SLASH, "=~", 2);
    forall i | 0 <= i <= |SLASH| ensures !OccursAt(SLASH, i, "==") {
      NotAt(SLASH, i, "==", if i == 2 then 1 else 0);
    }
    assert Index(SLASH, "==").None?;
    assert Trimmed("id") && Trimmed("/");
    TrimOfTrimmed("id");
    TrimOfTrimmed("/");
    assert SLASH[..2] == "id" && SLASH[4..] == "/";
  }

  /** On every manager, whatever its nodes, the query "id=~/" panics. */
  lemma LoneSlashPanics(w: World)
    ensures EvalQuery(w, "id=~/").Crashed?
  {
    SlashParses();
    assert PrintGroups([]) == [] && [[SLASH]][..0] == [];
    assert Print([[SLASH]]) == SLASH;
    PrintRoundTrip([[SLASH]]);
    assert Groups(SLASH) == [[SLASH]];
    assert Flatten([[SLASH]]) == [SLASH];
    assert AllBefore([SLASH], 0, EvaluatesIn(w)) && PanicsIn(w)([SLASH][0]);
    TrimOfTrimmed(SLASH);
    QueryCrashes(w, SLASH);
  }
}
