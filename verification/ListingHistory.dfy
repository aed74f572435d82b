/**
 * What a listing says, in terms of what was stored: neither keys nor codecs nor the scan occur in it. The
 * listing shows the stored results and their groups, newest first, and describes each by its reply.
 */
module ListingHistory {
  import opened Common
  import opened Proto
  import opened Text
  import opened Decimal
  import opened Store
  import opened Listing
  import opened ListingProofs

  // ------------------------------------------------------------------- meaning

  /** There is something to list under this id: a result, or a group with results. */
  predicate HasEntry(writes: seq<Write>, id: int) {
    LastResult(writes, id).Some? || GroupIds(writes, id) != []
  }

  ghost function ListedIds(writes: seq<Write>): iset<int> {
    iset id | HasEntry(writes, id)
  }

  /** All of it, newest first. */
  ghost predicate IsHistory(writes: seq<Write>, ids: seq<int>) {
    && (forall i, j | 0 <= i < j < |ids| :: ids[i] > ids[j])
    && forall id :: id in ids <==> HasEntry(writes, id)
  }

  /** The result stored under the id comes from one of the nodes; a group comes from none. */
  predicate FromTarget(writes: seq<Write>, targets: seq<string>, id: int) {
    match LastResult(writes, id)
    case Some(task) => task.node in targets
    case None => false
  }

  /** The request asks for the id: not newer than its upper date, not older than its lower one, on its targets. */
  predicate AskedFor(writes: seq<Write>, req: ListRequest, id: int) {
    && (req.toDate.Some? && req.toDate.value > 0 ==> id <= req.toDate.value)
    && (req.fromDate.Some? && req.fromDate.value > 0 ==> id >= req.fromDate.value)
    && (req.targets != [] ==> FromTarget(writes, req.targets, id))
  }

  function Asked(writes: seq<Write>, req: ListRequest, ids: seq<int>): seq<int> {
    if ids == [] then []
    else (if AskedFor(writes, req, ids[0]) then [ids[0]] else []) + Asked(writes, req, ids[1..])
  }

  /** The entry says of a result what its reply says, and of a group which ids it has. */
  predicate Describes(writes: seq<Write>, id: int, entry: Entry) {
    && entry.id == id
    && match LastResult(writes, id)
       case Some(Task(node, Some(reply))) =>
         && entry.node == node && entry.error == reply.error && entry.internalError == reply.internalError
         && (entry.status == "success" <==> reply.internalError.OK? && reply.error == "")
         && (entry.status == "error" <==> reply.error != "")
         && (entry.status == "internal error" <==> !reply.internalError.OK? && reply.error == "")
       case _ =>
         && entry.node == "grouped:" + Join(Texts(GroupIds(writes, id)), ",")
         && entry.status == "success" && entry.error == "" && entry.internalError.OK?
  }

  // -------------------------------------------------------------------- proofs

  function ValueOf(c: Codec, writes: seq<Write>, id: int): string {
    match Expected(c, writes, id) case Some(value) => value case None => ""
  }

  function RecordsOf(c: Codec, writes: seq<Write>, ids: seq<int>): (all: seq<Record>)
    ensures |all| == |ids| && forall i | 0 <= i < |ids| :: all[i] == (ids[i], ValueOf(c, writes, ids[i]))
  {
    seq(|ids|, i requires 0 <= i < |ids| => (ids[i], ValueOf(c, writes, ids[i])))
  }

  lemma {:induction false} ResultIdsAreStored(writes: seq<Write>, id: int)
    requires forall k | 0 <= k < |writes| :: IdsInRange(writes[k])
    ensures HasEntry(writes, id) ==> InRange(id)
    decreases |writes|
  {
    if writes != [] {
      var w := writes[|writes| - 1];
      ResultIdsAreStored(writes[..|writes| - 1], id);
      assert IdsInRange(w);
    }
  }

  lemma StoredUnder(c: Codec, writes: seq<Write>, id: int)
    requires Disjoint(writes) && forall k | 0 <= k < |writes| :: IdsInRange(writes[k])
    ensures id in ResultIds(ApplyAll(c, writes)) <==> HasEntry(writes, id)
    ensures HasEntry(writes, id) ==> ApplyAll(c, writes)[ResultKey(FormatInt(id))] == ValueOf(c, writes, id)
  {
    ContentsAre(c, writes, id);
    ResultIdsAreStored(writes, id);
  }

  lemma HistoryIsNumeric(c: Codec, writes: seq<Write>, ids: seq<int>)
    requires Disjoint(writes) && (forall k | 0 <= k < |writes| :: IdsInRange(writes[k])) && IsHistory(writes, ids)
    ensures IsNumericListing(ApplyAll(c, writes), RecordsOf(c, writes, ids))
  {
    var db, all := ApplyAll(c, writes), RecordsOf(c, writes, ids);
    forall r
      ensures r in all <==> r.0 in ResultIds(db) && db[ResultKey(FormatInt(r.0))] == r.1
    {
      StoredUnder(c, writes, r.0);
      if r.0 in ids {
        var i :| 0 <= i < |ids| && ids[i] == r.0;
        assert all[i] == (r.0, ValueOf(c, writes, r.0));
      }
    }
  }

  lemma GroupValue(c: Codec, writes: seq<Write>, id: int)
    requires HasEntry(writes, id) && LastResult(writes, id).None?
    ensures ValueOf(c, writes, id) == "grouped:" + Join(Texts(GroupIds(writes, id)), ",")
    ensures GROUPED <= ValueOf(c, writes, id)
  {}

  /** The scan's filter by node lets through exactly the results of the targets, and no group. */
  lemma FilteredByNode(c: Codec, writes: seq<Write>, targets: seq<string>, id: int)
    requires ValidCodec(c) && HasEntry(writes, id) && targets != []
    ensures OnTarget(c, targets, ValueOf(c, writes, id)) <==> FromTarget(writes, targets, id)
  {
    if LastResult(writes, id).None? { GroupValue(c, writes, id); }
  }

  lemma WantedIsAsked(c: Codec, writes: seq<Write>, req: ListRequest, id: int)
    requires ValidCodec(c) && HasEntry(writes, id)
    ensures var r := (id, ValueOf(c, writes, id));
      (NotAfter(Date(req.toDate))(r) && NotBefore(Date(req.fromDate))(r) && ForTargets(c, req.targets)(r))
      <==> AskedFor(writes, req, id)
  {
    if req.targets != [] { FilteredByNode(c, writes, req.targets, id); }
  }

  lemma {:induction false} SelectThrice(
      s: seq<Record>, p: Record -> bool, q: Record -> bool, t: Record -> bool, all: Record -> bool)
    requires forall r :: all(r) <==> p(r) && q(r) && t(r)
    ensures Select(Select(Select(s, p), q), t) == Select(s, all)
    decreases |s|
  {
    if s != [] {
      SelectThrice(s[1..], p, q, t, all);
      SelectCons(s[0], Select(s[1..], p), q);
      SelectCons(s[0], Select(Select(s[1..], p), q), t);
      assert [] + Select(s[1..], p) == Select(s[1..], p);
      assert [] + Select(Select(s[1..], p), q) == Select(Select(s[1..], p), q);
    }
  }

  lemma SelectCons(r: Record, rest: seq<Record>, p: Record -> bool)
    ensures Select([r] + rest, p) == (if p(r) then [r] else []) + Select(rest, p)
  {
    assert ([r] + rest)[1..] == rest;
  }

  /** Selecting records is selecting their ids. */
  lemma {:induction false} SelectIsAsked(
      c: Codec, writes: seq<Write>, req: ListRequest, ids: seq<int>, wanted: Record -> bool)
    requires forall id | id in ids :: wanted((id, ValueOf(c, writes, id))) <==> AskedFor(writes, req, id)
    ensures Select(RecordsOf(c, writes, ids), wanted) == RecordsOf(c, writes, Asked(writes, req, ids))
    decreases |ids|
  {
    if ids != [] {
      var all, rest := RecordsOf(c, writes, ids), Asked(writes, req, ids[1..]);
      assert all[1..] == RecordsOf(c, writes, ids[1..]);
      SelectIsAsked(c, writes, req, ids[1..], wanted);
      assert all[0] == (ids[0], ValueOf(c, writes, ids[0])) && ids[0] in ids;
      assert RecordsOf(c, writes, [ids[0]] + rest) == [all[0]] + RecordsOf(c, writes, rest);
      assert [] + Select(all[1..], wanted) == Select(all[1..], wanted);
      assert [] + rest == rest;
    }
  }

  lemma WantedFromHistory(c: Codec, writes: seq<Write>, req: ListRequest, ids: seq<int>)
    requires ValidCodec(c) && IsHistory(writes, ids)
    ensures Wanted(c, RecordsOf(c, writes, ids), req) == RecordsOf(c, writes, Asked(writes, req, ids))
  {
    var p, q, t := NotAfter(Date(req.toDate)), NotBefore(Date(req.fromDate)), ForTargets(c, req.targets);
    var all: Record -> bool := r => p(r) && q(r) && t(r);
    forall id | id in ids
      ensures all((id, ValueOf(c, writes, id))) <==> AskedFor(writes, req, id)
    {
      WantedIsAsked(c, writes, req, id);
    }
    SelectThrice(RecordsOf(c, writes, ids), p, q, t, all);
    SelectIsAsked(c, writes, req, ids, all);
  }

  /** What the listing makes of one stored value. */
  lemma EntryDescribes(c: Codec, writes: seq<Write>, id: int)
    requires ValidCodec(c) && HasEntry(writes, id)
    ensures Describes(writes, id, EntryOf(c, id, ValueOf(c, writes, id)))
  {
    match LastResult(writes, id)
    case None => GroupValue(c, writes, id);
    case Some(task) =>
      assert c.decode(c.encode(task)) == Some(task) && !(GROUPED <= c.encode(task));
      ResultIsThere(writes, id);
  }

  lemma {:induction false} ResultIsThere(writes: seq<Write>, id: int)
    requires LastResult(writes, id).Some?
    ensures LastResult(writes, id).value.result.Some?
    decreases |writes|
  {
    var w := writes[|writes| - 1];
    if !(Stored(w) && w.msg.id == id) {
      ResultIsThere(writes[..|writes| - 1], id);
    }
  }

  /** One page of ids. */
  function PageOfIds(writes: seq<Write>, req: ListRequest, ids: seq<int>): seq<int> {
    TakeN(DropN(Asked(writes, req, ids), req.offset), PageSize(req.limit))
  }

  lemma {:induction false} AskedIsListed(writes: seq<Write>, req: ListRequest, ids: seq<int>)
    ensures forall id | id in Asked(writes, req, ids) :: id in ids && AskedFor(writes, req, id)
    decreases |ids|
  {
    if ids != [] {
      AskedIsListed(writes, req, ids[1..]);
    }
  }

  lemma PageOfRecords(c: Codec, writes: seq<Write>, ids: seq<int>, offset: int, size: nat)
    ensures TakeN(DropN(RecordsOf(c, writes, ids), offset), size)
         == RecordsOf(c, writes, TakeN(DropN(ids, offset), size))
  {}

  lemma ResponseFromHistory(c: Codec, writes: seq<Write>, items: seq<Item>, ids: seq<int>, req: ListRequest)
    requires ValidCodec(c) && Disjoint(writes) && forall k | 0 <= k < |writes| :: IdsInRange(writes[k])
    requires IsReverseScan(ApplyAll(c, writes), items) && IsHistory(writes, ids)
    requires ListingFits(ListedIds(writes), Date(req.toDate))
    ensures Respond(c, items, req)
         == Response.Listed(Entries(c, RecordsOf(c, writes, PageOfIds(writes, req, ids))))
  {
    var db := ApplyAll(c, writes);
    HistoryIsWellFormed(c, writes);
    HistoryIsNumeric(c, writes, ids);
    forall id ensures id in ResultIds(db) <==> HasEntry(writes, id) { StoredUnder(c, writes, id); }
    assert ResultIds(db) == ListedIds(writes);
    DateIsBound(req.toDate);
    ListingIsNumeric(c, db, items, RecordsOf(c, writes, ids), req);
    WantedFromHistory(c, writes, req, ids);
    PageOfRecords(c, writes, Asked(writes, req, ids), req.offset, PageSize(req.limit));
  }

  /**
   * After any history without colliding ids, a listing whose dates fit the stored ids answers with one page of
   * exactly the results and groups that the request asks for, newest first, and each entry says of its
   * result what the node's reply said.
   */
  lemma HistoryIsListed(c: Codec, writes: seq<Write>, items: seq<Item>, ids: seq<int>, req: ListRequest)
    requires ValidCodec(c) && Disjoint(writes) && forall k | 0 <= k < |writes| :: IdsInRange(writes[k])
    requires IsReverseScan(ApplyAll(c, writes), items) && IsHistory(writes, ids)
    requires ListingFits(ListedIds(writes), Date(req.toDate))
    ensures Respond(c, items, req).Listed?
    ensures var page, entries := PageOfIds(writes, req, ids), Respond(c, items, req).entries;
      |entries| == |page| && forall i | 0 <= i < |page| :: Describes(writes, page[i], entries[i])
  {
    ResponseFromHistory(c, writes, items, ids, req);
    var page := PageOfIds(writes, req, ids);
    AskedIsListed(writes, req, ids);
    forall i | 0 <= i < |page|
      ensures Describes(writes, page[i], EntryOf(c, page[i], ValueOf(c, writes, page[i])))
    {
      assert page[i] in Asked(writes, req, ids);
      EntryDescribes(c, writes, page[i]);
    }
  }
}
