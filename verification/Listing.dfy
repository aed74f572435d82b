/**
 * Listing stored results: a reverse scan over the store's keys with seek, early stop, filters and
 * paging, and what it amounts to.
 */
module Listing {
  import opened Common
  import opened Proto
  import opened Text
  import opened Decimal
  import opened Store

  const RESULTS_LIMIT := 100
  const RESULTS_PAGE_LIMIT := 100

  datatype ListRequest = ListRequest(
    offset: int,
    limit: int,
    fromDate: Option<int>,
    toDate: Option<int>,
    targets: seq<string>)

  datatype Entry = Entry(id: int, node: string, status: string, internalError: InternalError, error: string)

  datatype Response = Listed(entries: seq<Entry>) | InvalidKey

  /** A key and its value, as the iterator yields them. */
  type Item = (string, string)

  /** Zero and negative dates mean no bound. */
  function Bound(date: Option<int>): Option<int> {
    if date.Some? && date.value > 0 then date else None
  }

  function Limit(req: ListRequest): nat {
    if req.limit > 0 then (if req.limit < RESULTS_PAGE_LIMIT then req.limit else RESULTS_PAGE_LIMIT)
    else RESULTS_LIMIT
  }

  // ---------------------------------------------------------- one stored value

  function StatusOf(r: TaskResponse): string {
    if r.internalError.OK? && r.error == "" then "success"
    else if r.error != "" then "error"
    else "internal error"
  }

  function EntryOf(c: Codec, id: int, value: string): Entry {
    if GROUPED <= value then Entry(id, value, "success", OK, "")
    else
      match c.decode(value)
      case None => Entry(id, "", "unknown", OK, "")
      case Some(Task(node, None)) => Entry(id, node, "unknown", UnknownError, "")
      case Some(Task(node, Some(r))) => Entry(id, node, StatusOf(r), r.internalError, r.error)
  }

  /** A group entry has no node, so a target filter never lets it through. */
  predicate OnTarget(c: Codec, targets: seq<string>, value: string) {
    targets == [] || match c.decodeNode(value) case None => false case Some(node) => node in targets
  }

  /** The result id in a key, if it is the key of a result. */
  function IdOf(key: string): Option<int> {
    if !(RESULT_PREFIX <= key) then None
    else
      match StringToKey(key)
      case None => None
      case Some(k) => ParseInt(k.id)
  }

  // ------------------------------------------------------------------ the scan

  /** A reverse iterator's `Seek`: the first item whose key is not above `key`. */
  function SeekFrom(items: seq<Item>, key: string, i: nat): (r: nat)
    requires i <= |items|
    ensures i <= r <= |items|
    ensures forall k | i <= k < r :: Less(key, items[k].0)
    ensures r < |items| ==> !Less(key, items[r].0)
    decreases |items| - i
  {
    if i == |items| || !Less(key, items[i].0) then i else SeekFrom(items, key, i + 1)
  }

  /** From the seek position `i`, one item further if the id there is beyond the date. */
  function StartFrom(items: seq<Item>, i: nat, to: int): (r: Option<nat>)
    requires i <= |items|
    ensures r.Some? ==> r.value <= |items|
  {
    if i == |items| then Some(i)
    else
      match StringToKey(items[i].0)
      case None => None
      case Some(k) =>
        match ParseInt(k.id)
        case Some(current) => Some(if current > to then i + 1 else i)
        case None => Some(i)
  }

  /** Where the scan starts, or None when the key found there is not a key of this store. */
  function StartAt(items: seq<Item>, toDate: Option<int>): (r: Option<nat>)
    ensures r.Some? ==> r.value <= |items|
  {
    match Bound(toDate)
    case None => Some(0)
    case Some(to) => StartFrom(items, SeekFrom(items, ResultKey(FormatInt(to)), 0), to)
  }

  /** A result id and its stored value. */
  type Record = (int, string)

  /** What the scan does with one item: pass over it, end, or show it. */
  datatype Verdict = Ignore | Stop | Show(record: Record)

  function Judge(c: Codec, fromDate: Option<int>, targets: seq<string>): Item -> Verdict {
    (item: Item) =>
      match IdOf(item.0)
      case None => Ignore
      case Some(id) =>
        if Bound(fromDate).Some? && id < Bound(fromDate).value then Stop
        else if OnTarget(c, targets, item.1) then Show((id, item.1))
        else Ignore
  }

  /** What a scan shows, before paging. */
  function Shown(judge: Item -> Verdict, items: seq<Item>): seq<Record> {
    if items == [] then []
    else
      match judge(items[0])
      case Ignore => Shown(judge, items[1..])
      case Stop => []
      case Show(r) => [r] + Shown(judge, items[1..])
  }

  /** One page of `shown`: pass over `offset` records, then make entries of the next `limit`. */
  function Page(c: Codec, shown: seq<Record>, offset: int, limit: int): seq<Entry> {
    if shown == [] || limit <= 0 then []
    else if offset > 0 then Page(c, shown[1..], offset - 1, limit)
    else [EntryOf(c, shown[0].0, shown[0].1)] + Page(c, shown[1..], offset, limit - 1)
  }

  function Respond(c: Codec, items: seq<Item>, req: ListRequest): Response {
    match StartAt(items, req.toDate)
    case None => InvalidKey
    case Some(start) =>
      Listed(Page(c, Shown(Judge(c, req.fromDate, req.targets), items[start..]), req.offset, Limit(req)))
  }

  // ---------------------------------------------------------------- the loop

  lemma ShownStep(judge: Item -> Verdict, items: seq<Item>, i: nat)
    requires i < |items|
    ensures Shown(judge, items[i..]) ==
      match judge(items[i])
      case Ignore => Shown(judge, items[i + 1..])
      case Stop => []
      case Show(r) => [r] + Shown(judge, items[i + 1..])
  {
    assert items[i..][0] == items[i] && items[i..][1..] == items[i + 1..];
  }

  lemma LoopStep(c: Codec, judge: Item -> Verdict, items: seq<Item>, i: nat, offset: int, limit: int)
    requires i < |items| && limit > 0
    ensures Page(c, Shown(judge, items[i..]), offset, limit) ==
      match judge(items[i])
      case Ignore => Page(c, Shown(judge, items[i + 1..]), offset, limit)
      case Stop => []
      case Show(r) =>
        if offset > 0 then Page(c, Shown(judge, items[i + 1..]), offset - 1, limit)
        else [EntryOf(c, r.0, r.1)] + Page(c, Shown(judge, items[i + 1..]), offset, limit - 1)
  {
    ShownStep(judge, items, i);
    match judge(items[i])
    case Ignore =>
    case Stop =>
    case Show(r) =>
      var rest := Shown(judge, items[i + 1..]);
      assert ([r] + rest)[1..] == rest;
  }

  method FindStart(items: seq<Item>, toDate: Option<int>) returns (start: Option<nat>)
    ensures start == StartAt(items, toDate)
  {
    if toDate.None? || toDate.value <= 0 {
      return Some(0);
    }
    var i := SeekFrom(items, ResultKey(FormatInt(toDate.value)), 0);
    if i < |items| {
      var k := StringToKey(items[i].0);
      if k.None? {
        return None;
      }
      var current := ParseInt(k.value.id);
      if current.Some? && current.value > toDate.value {
        i := i + 1;
      }
    }
    return Some(i);
  }

  method JudgeItem(c: Codec, req: ListRequest, item: Item) returns (verdict: Verdict)
    ensures verdict == Judge(c, req.fromDate, req.targets)(item)
  {
    var (key, value) := item;
    if !(RESULT_PREFIX <= key) {
      return Ignore;
    }
    var dbKey := StringToKey(key);
    if dbKey.None? {
      return Ignore;
    }
    var id := ParseInt(dbKey.value.id);
    if id.None? {
      return Ignore;
    }
    if req.fromDate.Some? && req.fromDate.value > 0 && id.value < req.fromDate.value {
      return Stop;
    }
    if |req.targets| > 0 {
      var node := c.decodeNode(value);
      if node.None? || node.value !in req.targets {
        return Ignore;
      }
    }
    verdict := Show((id.value, value));
  }

  /** The iterator loop, from `start` on. */
  method ScanItems(c: Codec, items: seq<Item>, req: ListRequest, start: nat, limit: int, ghost judge: Item -> Verdict)
    returns (entries: seq<Entry>)
    requires start <= |items| && limit > 0 && judge == Judge(c, req.fromDate, req.targets)
    ensures entries == Page(c, Shown(judge, items[start..]), req.offset, limit)
  {
    entries := [];
    var i, count, skipped := start, 0, 0;
    while i < |items|
      invariant start <= i <= |items| && 0 <= count <= limit
      invariant entries + Page(c, Shown(judge, items[i..]), req.offset - skipped, limit - count)
             == Page(c, Shown(judge, items[start..]), req.offset, limit)
    {
      if count >= limit {
        break;
      }
      LoopStep(c, judge, items, i, req.offset - skipped, limit - count);
      var verdict := JudgeItem(c, req, items[i]);
      assert verdict == judge(items[i]);
      i := i + 1;
      match verdict
      case Ignore =>
      case Stop =>
        return;
      case Show(r) =>
        if skipped < req.offset {
          skipped := skipped + 1;
        } else {
          entries := entries + [EntryOf(c, r.0, r.1)];
          count := count + 1;
        }
    }
  }

  method ListResults(c: Codec, items: seq<Item>, req: ListRequest) returns (response: Response)
    ensures response == Respond(c, items, req)
  {
    var limit := RESULTS_LIMIT;
    if req.limit > 0 {
      limit := if req.limit < RESULTS_PAGE_LIMIT then req.limit else RESULTS_PAGE_LIMIT;
    }
    var start := FindStart(items, req.toDate);
    if start.None? {
      return InvalidKey;
    }
    var entries := ScanItems(c, items, req, start.value, limit, Judge(c, req.fromDate, req.targets));
    response := Listed(entries);
  }
}
