/** Two stores of two results each, and requests that are not answered as expected. */
module ListingExamples {
  import opened Common
  import opened Proto
  import opened Decimal
  import opened Store
  import opened Listing
  import opened ListingProofs

  /** An ungrouped result is stored for each of two tasks. */
  function Two(node: string, a: TaskResponse, b: TaskResponse): seq<Write> {
    [Result(node, a, true), Result(node, b, true)]
  }

  function ItemOf(c: Codec, node: string, m: TaskResponse): Item {
    (ResultKey(FormatInt(m.id)), c.encode(Task(node, Some(m))))
  }

  predicate Plain(m: TaskResponse) {
    m.id > 0 && m.id <= MAX_INT64 && m.groupID.None?
  }

  /** The store's two entries, and that the iterator yields first the one that sorts last as text. */
  lemma TwoScan(c: Codec, node: string, a: TaskResponse, b: TaskResponse)
    requires Plain(a) && Plain(b) && Less(FormatInt(b.id), FormatInt(a.id))
    ensures WellFormed(ApplyAll(c, Two(node, a, b)))
    ensures IsReverseScan(ApplyAll(c, Two(node, a, b)), [ItemOf(c, node, a), ItemOf(c, node, b)])
  {
    var writes := Two(node, a, b);
    var ia, ib := ItemOf(c, node, a), ItemOf(c, node, b);
    assert writes[..1] == [Result(node, a, true)] && writes[..1][..0] == [];
    assert ApplyAll(c, writes[..1]) == map[ia.0 := ia.1];
    NotBothWays(FormatInt(b.id), FormatInt(a.id));
    ResultKeysOrder(b.id, a.id);
    if ia.0 == ib.0 { ResultKeyInjective(a.id, b.id); }
    assert ApplyAll(c, writes) == map[ia.0 := ia.1, ib.0 := ib.1];
    assert (ia.0, ia.1) == ia && (ib.0, ib.1) == ib;
    HistoryIsWellFormed(c, writes);
  }

  lemma TwoShown(c: Codec, node: string, a: TaskResponse, b: TaskResponse)
    requires Plain(a) && Plain(b)
    ensures var ia, ib := ItemOf(c, node, a), ItemOf(c, node, b);
      && Shown(Judge(c, None, []), [ib]) == [(b.id, ib.1)]
      && Shown(Judge(c, None, []), [ia, ib]) == [(a.id, ia.1)] + [(b.id, ib.1)]
  {
    var ia, ib := ItemOf(c, node, a), ItemOf(c, node, b);
    IdOfGenerated(ia.0, a.id);
    IdOfGenerated(ib.0, b.id);
    assert [ia, ib][1..] == [ib] && [ib][1..] == [];
  }

  /** What the scan makes of the two items when it starts at the first, or behind it. */
  lemma TwoAnswers(c: Codec, node: string, a: TaskResponse, b: TaskResponse, req: ListRequest, start: nat)
    requires Plain(a) && Plain(b) && req.fromDate.None? && req.targets == [] && req.offset == 0 && start < 2
    requires StartAt([ItemOf(c, node, a), ItemOf(c, node, b)], req.toDate) == Some(start)
    requires start == 0 ==> req.limit == 1
    ensures var shown := if start == 0 then a else b;
      Respond(c, [ItemOf(c, node, a), ItemOf(c, node, b)], req)
        == Listed([EntryOf(c, shown.id, ItemOf(c, node, shown).1)])
  {
    var ia, ib := ItemOf(c, node, a), ItemOf(c, node, b);
    TwoShown(c, node, a, b);
    assert [ia, ib][1..] == [ib] && [ia, ib][0..] == [ia, ib];
    OneEntry(c, Shown(Judge(c, None, []), [ia, ib][start..]), Limit(req));
  }

  /** A page of one entry. */
  lemma OneEntry(c: Codec, shown: seq<Record>, limit: nat)
    requires shown != [] && limit >= 1 && (limit == 1 || |shown| == 1)
    ensures Page(c, shown, 0, limit) == [EntryOf(c, shown[0].0, shown[0].1)]
  {
    assert Page(c, shown[1..], 0, limit - 1) == [];
  }

  /** On a store of results 9 and 10 the newest result listed is 9. */
  lemma NineComesBeforeTen(c: Codec, node: string, nine: TaskResponse, ten: TaskResponse)
    requires Plain(nine) && Plain(ten) && nine.id == 9 && ten.id == 10
    ensures var db, items := ApplyAll(c, Two(node, nine, ten)), [ItemOf(c, node, nine), ItemOf(c, node, ten)];
      && WellFormed(db) && IsReverseScan(db, items)
      && Respond(c, items, Nth(0, None)) == Listed([EntryOf(c, 9, ItemOf(c, node, nine).1)])
  {
    TenSortsBeforeNine();
    TwoScan(c, node, nine, ten);
    TwoAnswers(c, node, nine, ten, Nth(0, None), 0);
  }

  /** Up to 9, a store of results 11 and 12 answers with 11: the seek finds both, the extra step skips one. */
  lemma BoundIsOverrun(c: Codec, node: string, eleven: TaskResponse, twelve: TaskResponse)
    requires Plain(eleven) && Plain(twelve) && eleven.id == 11 && twelve.id == 12
    ensures var db, items := ApplyAll(c, Two(node, twelve, eleven)), [ItemOf(c, node, twelve), ItemOf(c, node, eleven)];
      && WellFormed(db) && IsReverseScan(db, items)
      && Respond(c, items, ListRequest(0, 100, None, Some(9), []))
           == Listed([EntryOf(c, 11, ItemOf(c, node, eleven).1)])
  {
    assert FormatInt(9) == "9" && FormatInt(11) == FormatNat(1) + [Digit(1)] == "11";
    assert FormatInt(12) == FormatNat(1) + [Digit(2)] == "12";
    var it, ie := ItemOf(c, node, twelve), ItemOf(c, node, eleven);
    assert "11"[1..] == "1" && "12"[1..] == "2";
    TwoScan(c, node, twelve, eleven);
    ResultKeysOrder(9, 12);
    var items := [it, ie];
    assert SeekFrom(items, ResultKey(FormatInt(9)), 0) == 0;
    ScanKeysGenerated(ApplyAll(c, Two(node, twelve, eleven)), items);
    IdOfGenerated(it.0, 12);
    StartAtSeek(items, Some(9), 0, 12);
    TwoAnswers(c, node, twelve, eleven, ListRequest(0, 100, None, Some(9), []), 1);
  }
}
