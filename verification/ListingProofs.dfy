/**
 * The reverse lexicographic scan agrees with the listing a caller expects: filter by date and target,
 * newest first, one page. It does so exactly on stores whose ids sort as text the way they sort as numbers.
 */
module ListingProofs {
  import opened Common
  import Proto
  import opened Text
  import opened Decimal
  import opened Store
  import opened Listing

  // --------------------------------------------------- the expected listing

  function Select(s: seq<Record>, p: Record -> bool): seq<Record> {
    if s == [] then [] else (if p(s[0]) then [s[0]] else []) + Select(s[1..], p)
  }

  function NotBefore(from: Option<int>): Record -> bool {
    (r: Record) => from.None? || r.0 >= from.value
  }

  function NotAfter(to: Option<int>): Record -> bool {
    (r: Record) => to.None? || r.0 <= to.value
  }

  /** Without targets everything is wanted, else what the codec says is some target's. */
  function ForTargets(c: Codec, targets: seq<string>): Record -> bool {
    (r: Record) => targets == [] || (c.decodeNode(r.1).Some? && c.decodeNode(r.1).value in targets)
  }

  /** A date in a request; zero and negative ones stand for none. */
  function Date(date: Option<int>): Option<int> {
    match date case Some(d) => if d > 0 then Some(d) else None case None => None
  }

  lemma DateIsBound(date: Option<int>)
    ensures Date(date) == Bound(date)
  {}

  /** The number of entries asked for: one to a hundred, and a hundred if the request asks for less or more. */
  function PageSize(limit: int): nat {
    if 1 <= limit <= 100 then limit else 100
  }

  /** The records a request asks for, out of `all`. */
  function Wanted(c: Codec, all: seq<Record>, req: ListRequest): seq<Record> {
    Select(Select(Select(all, NotAfter(Date(req.toDate))), NotBefore(Date(req.fromDate))),
           ForTargets(c, req.targets))
  }

  function TakeN<T>(s: seq<T>, n: int): seq<T> {
    if n <= 0 then [] else if n >= |s| then s else s[..n]
  }

  function DropN<T>(s: seq<T>, n: int): seq<T> {
    if n <= 0 then s else if n >= |s| then [] else s[n..]
  }

  function Entries(c: Codec, records: seq<Record>): (entries: seq<Entry>)
    ensures |entries| == |records|
    ensures forall i | 0 <= i < |records| :: entries[i] == EntryOf(c, records[i].0, records[i].1)
  {
    seq(|records|, i requires 0 <= i < |records| => EntryOf(c, records[i].0, records[i].1))
  }

  ghost predicate Descending(s: seq<Record>) {
    forall i, j | 0 <= i < j < |s| :: s[i].0 > s[j].0
  }

  // ------------------------------------------------------- store and iterator

  ghost predicate InRange(id: int) {
    MIN_INT64 <= id <= MAX_INT64
  }

  ghost predicate GeneratedKey(key: string, id: int) {
    InRange(id) && (key == ResultKey(FormatInt(id)) || key == RequestKey(FormatInt(id)))
  }

  ghost predicate Generated(key: string) {
    exists id :: GeneratedKey(key, id)
  }

  /** Every key was generated for a 64-bit id. */
  ghost predicate WellFormed(db: Db) {
    forall key | key in db :: Generated(key)
  }

  /** The reverse iterator over `db`: all items, greatest key first. */
  ghost predicate IsReverseScan(db: Db, items: seq<Item>) {
    && (forall i, j | 0 <= i < j < |items| :: Less(items[j].0, items[i].0))
    && (forall i | 0 <= i < |items| :: items[i].0 in db && items[i].1 == db[items[i].0])
    && (forall key | key in db :: (key, db[key]) in items)
  }

  ghost function ResultIds(db: Db): iset<int> {
    iset id | InRange(id) && ResultKey(FormatInt(id)) in db
  }

  /** All results of `db`, newest first. */
  ghost predicate IsNumericListing(db: Db, all: seq<Record>) {
    && Descending(all)
    && (forall r :: r in all <==> r.0 in ResultIds(db) && db[ResultKey(FormatInt(r.0))] == r.1)
  }

  /** The ids sort as text the way they sort as numbers. */
  ghost predicate OrderAgrees(ids: iset<int>) {
    forall a, b | a in ids && b in ids :: Less(FormatInt(a), FormatInt(b)) <==> a < b
  }

  /** The id is within the upper bound. */
  predicate Within(id: int, to: Option<int>) {
    to.None? || id <= to.value
  }

  /** The id sorts behind the upper bound as text, so the seek leaves it out. */
  predicate SeekMisses(id: int, to: Option<int>) {
    to.Some? && Less(FormatInt(to.value), FormatInt(id))
  }

  /** Of the ids the seek does not leave out, `id` comes first in the scan. */
  ghost predicate ComesFirst(ids: iset<int>, to: Option<int>, id: int) {
    forall other | other in ids && !SeekMisses(other, to) && other != id :: Less(FormatInt(other), FormatInt(id))
  }

  /** The one id the extra step past the seek position passes over. */
  ghost predicate Skipped(ids: iset<int>, to: Option<int>, id: int) {
    !SeekMisses(id, to) && !Within(id, to) && ComesFirst(ids, to, id)
  }

  ghost function UpTo(ids: iset<int>, to: Option<int>): iset<int> {
    iset id | id in ids && Within(id, to)
  }

  /**
   * The ids within the bound sort as text the way they sort as numbers, the seek leaves out none of them,
   * and an id beyond the bound that it does not leave out is the first one it finds.
   */
  ghost predicate ListingFits(ids: iset<int>, to: Option<int>) {
    && OrderAgrees(UpTo(ids, to))
    && (forall id | id in ids && SeekMisses(id, to) :: !Within(id, to))
    && (forall id | id in ids && !SeekMisses(id, to) && !Within(id, to) :: ComesFirst(ids, to, id))
  }

  // -------------------------------------------------------- scan as a pipeline

  /** The results among the items, in scan order. */
  function Visible(items: seq<Item>): seq<Record> {
    if items == [] then []
    else
      (match IdOf(items[0].0) case None => [] case Some(id) => [(id, items[0].1)]) + Visible(items[1..])
  }

  function UntilBefore(s: seq<Record>, from: Option<int>): seq<Record> {
    if s == [] || (from.Some? && s[0].0 < from.value) then [] else [s[0]] + UntilBefore(s[1..], from)
  }

  /** The loop's single pass shows what stopping, then filtering the visible records shows. */
  lemma {:induction false} ShownIsPipeline(c: Codec, req: ListRequest, items: seq<Item>)
    ensures Shown(Judge(c, req.fromDate, req.targets), items)
         == Select(UntilBefore(Visible(items), Bound(req.fromDate)), ForTargets(c, req.targets))
    decreases |items|
  {
    if items != [] {
      ShownIsPipeline(c, req, items[1..]);
      PipelineStep(c, req, items);
    }
  }

  lemma PipelineStep(c: Codec, req: ListRequest, items: seq<Item>)
    requires items != []
    ensures var from, p := Bound(req.fromDate), ForTargets(c, req.targets);
      Select(UntilBefore(Visible(items), from), p) ==
        match IdOf(items[0].0)
        case None => Select(UntilBefore(Visible(items[1..]), from), p)
        case Some(id) =>
          if from.Some? && id < from.value then []
          else
            (if OnTarget(c, req.targets, items[0].1) then [(id, items[0].1)] else [])
              + Select(UntilBefore(Visible(items[1..]), from), p)
  {
    var rest := Visible(items[1..]);
    match IdOf(items[0].0)
    case None =>
      assert Visible(items) == rest;
    case Some(id) =>
      var head := (id, items[0].1);
      assert Visible(items) == [head] + rest;
      assert ([head] + rest)[1..] == rest;
      var from := Bound(req.fromDate);
      if !(from.Some? && id < from.value) {
        var kept := UntilBefore(rest, from);
        assert UntilBefore(Visible(items), from) == [head] + kept;
        assert ([head] + kept)[1..] == kept;
      }
  }

  // ----------------------------------------------------------- lists of records

  lemma {:induction false} SelectMembers(s: seq<Record>, p: Record -> bool, r: Record)
    ensures r in Select(s, p) <==> r in s && p(r)
    decreases |s|
  {
    if s != [] {
      assert s == [s[0]] + s[1..];
      SelectMembers(s[1..], p, r);
    }
  }

  lemma {:induction false} SelectDescending(s: seq<Record>, p: Record -> bool)
    requires Descending(s)
    ensures Descending(Select(s, p))
    decreases |s|
  {
    if s != [] {
      SelectDescending(s[1..], p);
      forall r | r in Select(s[1..], p)
        ensures r.0 < s[0].0
      {
        SelectMembers(s[1..], p, r);
        var k :| 0 <= k < |s[1..]| && s[1..][k] == r;
        assert s[k + 1] == r;
      }
    }
  }

  lemma SameHead(a: seq<Record>, b: seq<Record>)
    requires Descending(a) && Descending(b) && a != [] && b != []
    requires a[0] in b && b[0] in a
    ensures a[0] == b[0]
  {
    var i :| 0 <= i < |b| && b[i] == a[0];
    var j :| 0 <= j < |a| && a[j] == b[0];
  }

  /** A descending list is determined by its members. */
  lemma {:induction false} DescendingIsUnique(a: seq<Record>, b: seq<Record>)
    requires Descending(a) && Descending(b)
    requires forall r :: r in a <==> r in b
    ensures a == b
    decreases |a|
  {
    assert b != [] ==> b[0] in b;
    if a == [] {
      assert b == [];
    } else {
      assert a[0] in b;
      SameHead(a, b);
      forall r ensures r in a[1..] <==> r in b[1..] {
        TailMembers(a, r);
        TailMembers(b, r);
      }
      DescendingIsUnique(a[1..], b[1..]);
      assert a == [a[0]] + a[1..] && b == [b[0]] + b[1..];
    }
  }

  lemma TailMembers(s: seq<Record>, r: Record)
    requires s != [] && Descending(s)
    ensures r in s[1..] <==> r in s && r != s[0]
  {
    if r in s[1..] {
      var k :| 0 <= k < |s[1..]| && s[1..][k] == r;
      assert s[k + 1] == r && s[0].0 > s[k + 1].0;
    }
    if r in s && r != s[0] {
      var k :| 0 <= k < |s| && s[k] == r;
      assert s[1..][k - 1] == r;
    }
  }

  /** On a descending list stopping at the first old record loses nothing. */
  lemma {:induction false} StoppingEarlyLosesNothing(s: seq<Record>, from: Option<int>)
    requires Descending(s)
    ensures UntilBefore(s, from) == Select(s, NotBefore(from))
    decreases |s|
  {
    if s != [] {
      if from.Some? && s[0].0 < from.value {
        NothingSelected(s, from);
      } else {
        StoppingEarlyLosesNothing(s[1..], from);
      }
    }
  }

  lemma {:induction false} NothingSelected(s: seq<Record>, from: Option<int>)
    requires Descending(s) && from.Some? && (s != [] ==> s[0].0 < from.value)
    ensures Select(s, NotBefore(from)) == []
    decreases |s|
  {
    if s != [] {
      NothingSelected(s[1..], from);
    }
  }

  // --------------------------------------------------------- visible records

  lemma IdOfGenerated(key: string, id: int)
    requires GeneratedKey(key, id)
    ensures IdOf(key) == if key == ResultKey(FormatInt(id)) then Some(id) else None
  {
    KeyRoundTrip(id);
    ParseFormat(id);
    assert RESULT_PREFIX <= ResultKey(FormatInt(id));
    assert RequestKey(FormatInt(id))[2] == 'q' && RESULT_PREFIX[2] == 's';
  }

  lemma {:induction false} VisibleMembers(items: seq<Item>, r: Record)
    ensures r in Visible(items) <==> exists i | 0 <= i < |items| :: IdOf(items[i].0) == Some(r.0) && items[i].1 == r.1
    decreases |items|
  {
    if items != [] {
      VisibleMembers(items[1..], r);
      if i :| 0 <= i < |items[1..]| && IdOf(items[1..][i].0) == Some(r.0) && items[1..][i].1 == r.1 {
        assert items[i + 1] == items[1..][i];
      }
      if i :| 0 <= i < |items| && IdOf(items[i].0) == Some(r.0) && items[i].1 == r.1 {
        if i > 0 {
          assert items[1..][i - 1] == items[i];
        }
      }
    }
  }

  lemma ResultKeysOrder(a: int, b: int)
    ensures Less(ResultKey(FormatInt(a)), ResultKey(FormatInt(b))) <==> Less(FormatInt(a), FormatInt(b))
  {
    LessPrefix(RESULT_PREFIX + ":", FormatInt(a), FormatInt(b));
  }

  ghost predicate KeysSorted(items: seq<Item>) {
    forall i, j | 0 <= i < j < |items| :: Less(items[j].0, items[i].0)
  }

  ghost predicate KeysGenerated(items: seq<Item>) {
    forall i | 0 <= i < |items| :: Generated(items[i].0)
  }

  /** In scan order, the ids come in descending text order. */
  lemma {:induction false} VisibleSorted(items: seq<Item>)
    requires KeysSorted(items) && KeysGenerated(items)
    ensures forall i, j | 0 <= i < j < |Visible(items)| ::
      Less(FormatInt(Visible(items)[j].0), FormatInt(Visible(items)[i].0))
    decreases |items|
  {
    if items != [] {
      assert forall i | 0 <= i < |items[1..]| :: items[1..][i] == items[i + 1];
      VisibleSorted(items[1..]);
      var rest := Visible(items[1..]);
      assert Generated(items[0].0);
      var id :| GeneratedKey(items[0].0, id);
      IdOfGenerated(items[0].0, id);
      if items[0].0 == ResultKey(FormatInt(id)) {
        forall j | 0 <= j < |rest|
          ensures Less(FormatInt(rest[j].0), FormatInt(id))
        {
          VisibleMembers(items[1..], rest[j]);
          var k :| 0 <= k < |items[1..]| && IdOf(items[1..][k].0) == Some(rest[j].0);
          assert Generated(items[k + 1].0);
          var other :| GeneratedKey(items[k + 1].0, other);
          IdOfGenerated(items[k + 1].0, other);
          ResultKeysOrder(rest[j].0, id);
        }
      }
    }
  }

  lemma ScanKeysGenerated(db: Db, items: seq<Item>)
    requires WellFormed(db) && IsReverseScan(db, items)
    ensures KeysSorted(items) && KeysGenerated(items)
  {}

  // ------------------------------------------------------------- upper bound

  lemma ParseGenerated(key: string, id: int)
    requires GeneratedKey(key, id)
    ensures StringToKey(key).Some? && ParseInt(StringToKey(key).value.id) == Some(id)
  {
    KeyRoundTrip(id);
    ParseFormat(id);
  }

  lemma StartNearSeek(items: seq<Item>, toDate: Option<int>, i: nat)
    requires KeysGenerated(items) && Bound(toDate).Some?
    requires i == SeekFrom(items, ResultKey(FormatInt(toDate.value)), 0)
    ensures StartAt(items, toDate).Some?
    ensures StartAt(items, toDate).value == i || (i < |items| && StartAt(items, toDate).value == i + 1)
  {
    if i < |items| {
      assert Generated(items[i].0);
      var id :| GeneratedKey(items[i].0, id);
      ParseGenerated(items[i].0, id);
    }
  }

  /** The extra step is taken exactly when the id found is beyond the bound. */
  lemma StartAtSeek(items: seq<Item>, toDate: Option<int>, i: nat, id: int)
    requires KeysGenerated(items) && Bound(toDate).Some? && i < |items|
    requires i == SeekFrom(items, ResultKey(FormatInt(toDate.value)), 0)
    requires IdOf(items[i].0) == Some(id)
    ensures StartAt(items, toDate) == Some(if id > toDate.value then i + 1 else i)
  {
    assert Generated(items[i].0);
    IdIsParsed(items[i].0, id);
    StartAfterSeek(items, toDate.value, i, id);
  }

  lemma IdIsParsed(key: string, id: int)
    requires Generated(key) && IdOf(key) == Some(id)
    ensures StringToKey(key).Some? && ParseInt(StringToKey(key).value.id) == Some(id)
  {
    var other :| GeneratedKey(key, other);
    ParseGenerated(key, other);
    IdOfGenerated(key, other);
  }

  lemma StartAfterSeek(items: seq<Item>, to: int, i: nat, id: int)
    requires i < |items|
    requires StringToKey(items[i].0).Some? && ParseInt(StringToKey(items[i].0).value.id) == Some(id)
    ensures StartFrom(items, i, to) == Some(if id > to then i + 1 else i)
  {}

  /** An item with a result id is that result's. */
  lemma ItemOfId(db: Db, items: seq<Item>, k: nat, id: int)
    requires WellFormed(db) && IsReverseScan(db, items) && k < |items| && IdOf(items[k].0) == Some(id)
    ensures items[k].0 == ResultKey(FormatInt(id)) && id in ResultIds(db)
  {
    assert Generated(items[k].0);
    var other :| GeneratedKey(items[k].0, other);
    IdOfGenerated(items[k].0, other);
  }

  lemma SeekSide(db: Db, items: seq<Item>, to: int, i: nat, k: nat, id: int)
    requires WellFormed(db) && IsReverseScan(db, items)
    requires i == SeekFrom(items, ResultKey(FormatInt(to)), 0)
    requires k < |items| && IdOf(items[k].0) == Some(id)
    ensures k < i <==> SeekMisses(id, Some(to))
  {
    var key := ResultKey(FormatInt(to));
    ItemOfId(db, items, k, id);
    ResultKeysOrder(to, id);
    if k > i && Less(key, items[k].0) {
      LessTransitive(key, items[k].0, items[i].0);
    }
  }

  /** Every stored id has its item. */
  lemma ItemFor(db: Db, items: seq<Item>, id: int) returns (k: nat)
    requires IsReverseScan(db, items) && id in ResultIds(db)
    ensures k < |items| && items[k].0 == ResultKey(FormatInt(id)) && IdOf(items[k].0) == Some(id)
  {
    var key := ResultKey(FormatInt(id));
    assert (key, db[key]) in items;
    k :| 0 <= k < |items| && items[k] == (key, db[key]);
    IdOfGenerated(key, id);
  }

  /** The item the seek finds comes first among those it does not leave out. */
  lemma SeekFindsFirst(db: Db, items: seq<Item>, to: int, i: nat, id: int)
    requires WellFormed(db) && IsReverseScan(db, items)
    requires i == SeekFrom(items, ResultKey(FormatInt(to)), 0)
    requires i < |items| && IdOf(items[i].0) == Some(id)
    ensures ComesFirst(ResultIds(db), Some(to), id)
  {
    forall other | other in ResultIds(db) && !SeekMisses(other, Some(to)) && other != id
      ensures Less(FormatInt(other), FormatInt(id))
    {
      FoundComesBefore(db, items, to, i, id, other);
    }
  }

  lemma FoundComesBefore(db: Db, items: seq<Item>, to: int, i: nat, id: int, other: int)
    requires WellFormed(db) && IsReverseScan(db, items)
    requires i == SeekFrom(items, ResultKey(FormatInt(to)), 0)
    requires i < |items| && IdOf(items[i].0) == Some(id)
    requires other in ResultIds(db) && !SeekMisses(other, Some(to)) && other != id
    ensures Less(FormatInt(other), FormatInt(id))
  {
    ItemOfId(db, items, i, id);
    var k := ItemFor(db, items, other);
    SeekSide(db, items, to, i, k, other);
    assert k != i;
    ResultKeysOrder(other, id);
  }

  /** Behind a result item there is one before every later result item, so no later id comes first. */
  lemma LaterIsNotFirst(db: Db, items: seq<Item>, to: int, i: nat, k: nat, id: int)
    requires WellFormed(db) && IsReverseScan(db, items)
    requires i == SeekFrom(items, ResultKey(FormatInt(to)), 0)
    requires i < k < |items| && IdOf(items[k].0) == Some(id)
    ensures !ComesFirst(ResultIds(db), Some(to), id)
  {
    ItemOfId(db, items, k, id);
    assert Generated(items[i].0);
    var first :| GeneratedKey(items[i].0, first);
    IdOfGenerated(items[i].0, first);
    assert Less(items[k].0, items[i].0);
    if items[i].0 == RequestKey(FormatInt(first)) {
      RequestsSortFirst(FormatInt(first), FormatInt(id));
    } else {
      SeekSide(db, items, to, i, i, first);
      ItemOfId(db, items, i, first);
      ResultKeysOrder(id, first);
      NotBothWays(FormatInt(id), FormatInt(first));
    }
  }

  lemma NotBothWays(a: string, b: string)
    requires Less(a, b)
    ensures a != b && !Less(b, a)
  {
    LessIrreflexive(a);
    if Less(b, a) { LessTransitive(a, b, a); }
  }

  /** Every request key sorts before every result key. */
  lemma RequestsSortFirst(a: string, b: string)
    ensures !Less(ResultKey(b), RequestKey(a))
  {
    assert ResultKey(b) == "re" + ("s:" + b) && RequestKey(a) == "re" + ("q:" + a);
    LessPrefix("re", "s:" + b, "q:" + a);
  }

  /** Which results the scan sees: those the seek does not leave out, without the one it passes over. */
  lemma StartSplits(db: Db, items: seq<Item>, toDate: Option<int>, k: nat, id: int)
    requires WellFormed(db) && IsReverseScan(db, items)
    requires k < |items| && IdOf(items[k].0) == Some(id)
    ensures StartAt(items, toDate).Some?
    ensures StartAt(items, toDate).value <= k <==>
      !SeekMisses(id, Bound(toDate)) && !Skipped(ResultIds(db), Bound(toDate), id)
  {
    if Bound(toDate).Some? {
      var to := toDate.value;
      var i := SeekFrom(items, ResultKey(FormatInt(to)), 0);
      StartNearSeek(items, toDate, i);
      SeekSide(db, items, to, i, k, id);
      if k == i {
        StartAtSeek(items, toDate, i, id);
        SeekFindsFirst(db, items, to, i, id);
      } else if k > i {
        LaterIsNotFirst(db, items, to, i, k, id);
      }
    }
  }

  /** The scan always starts somewhere on a store whose keys were generated. */
  lemma StartExists(items: seq<Item>, toDate: Option<int>)
    requires KeysGenerated(items)
    ensures StartAt(items, toDate).Some?
  {
    if Bound(toDate).Some? {
      StartNearSeek(items, toDate, SeekFrom(items, ResultKey(FormatInt(toDate.value)), 0));
    }
  }

  lemma SuffixMembers(items: seq<Item>, start: nat, r: Record)
    requires start <= |items|
    ensures r in Visible(items[start..]) <==>
      exists k | start <= k < |items| :: IdOf(items[k].0) == Some(r.0) && items[k].1 == r.1
  {
    VisibleMembers(items[start..], r);
    if k :| start <= k < |items| && IdOf(items[k].0) == Some(r.0) && items[k].1 == r.1 {
      assert items[start..][k - start] == items[k];
    }
    if k :| 0 <= k < |items[start..]| && IdOf(items[start..][k].0) == Some(r.0) && items[start..][k].1 == r.1 {
      assert items[start + k] == items[start..][k];
    }
  }

  /** What the scan sees from its start on. */
  function Seen(items: seq<Item>, toDate: Option<int>): seq<Record>
    requires StartAt(items, toDate).Some?
  {
    Visible(items[StartAt(items, toDate).value..])
  }

  lemma SeenMembers(db: Db, items: seq<Item>, toDate: Option<int>, r: Record)
    requires WellFormed(db) && IsReverseScan(db, items)
    ensures StartAt(items, toDate).Some?
    ensures r in Seen(items, toDate) <==>
      && r.0 in ResultIds(db) && db[ResultKey(FormatInt(r.0))] == r.1
      && !SeekMisses(r.0, Bound(toDate)) && !Skipped(ResultIds(db), Bound(toDate), r.0)
  {
    ScanKeysGenerated(db, items);
    StartExists(items, toDate);
    var start := StartAt(items, toDate).value;
    SuffixMembers(items, start, r);
    if k :| start <= k < |items| && IdOf(items[k].0) == Some(r.0) && items[k].1 == r.1 {
      ItemOfId(db, items, k, r.0);
      StartSplits(db, items, toDate, k, r.0);
    }
    if r.0 in ResultIds(db) && db[ResultKey(FormatInt(r.0))] == r.1 {
      var k := ItemFor(db, items, r.0);
      StartSplits(db, items, toDate, k, r.0);
    }
  }

  lemma SuffixKeys(items: seq<Item>, start: nat)
    requires KeysSorted(items) && KeysGenerated(items) && start <= |items|
    ensures KeysSorted(items[start..]) && KeysGenerated(items[start..])
  {
    forall k | 0 <= k < |items[start..]|
      ensures items[start..][k] == items[start + k] && Generated(items[start..][k].0)
    {
      assert Generated(items[start + k].0);
    }
  }

  lemma SeenSorted(db: Db, items: seq<Item>, toDate: Option<int>)
    requires WellFormed(db) && IsReverseScan(db, items) && StartAt(items, toDate).Some?
    ensures SortedAsText(Seen(items, toDate))
  {
    var start := StartAt(items, toDate).value;
    ScanKeysGenerated(db, items);
    SuffixKeys(items, start);
    VisibleSorted(items[start..]);
  }

  ghost predicate SortedAsText(s: seq<Record>) {
    forall i, j | 0 <= i < j < |s| :: Less(FormatInt(s[j].0), FormatInt(s[i].0))
  }

  lemma TextOrderIsDescending(s: seq<Record>, ids: iset<int>)
    requires SortedAsText(s) && OrderAgrees(ids) && forall r | r in s :: r.0 in ids
    ensures Descending(s)
  {
    forall i, j | 0 <= i < j < |s|
      ensures s[i].0 > s[j].0
    {
      assert s[i] in s && s[j] in s;
    }
  }

  /** A list that is sorted both ways makes the two orders agree on its ids. */
  lemma BothOrdersAgree(s: seq<Record>, ids: iset<int>)
    requires SortedAsText(s) && Descending(s)
    requires forall id | id in ids :: exists i | 0 <= i < |s| :: s[i].0 == id
    ensures OrderAgrees(ids)
  {
    forall a, b | a in ids && b in ids
      ensures Less(FormatInt(a), FormatInt(b)) <==> a < b
    {
      var i :| 0 <= i < |s| && s[i].0 == a;
      var j :| 0 <= j < |s| && s[j].0 == b;
      LessIrreflexive(FormatInt(a));
      if i < j {
        NotBothWays(FormatInt(b), FormatInt(a));
      }
    }
  }

  lemma {:induction false} SelectAll(s: seq<Record>, p: Record -> bool)
    requires forall r | r in s :: p(r)
    ensures Select(s, p) == s
    decreases |s|
  {
    if s != [] {
      assert s == [s[0]] + s[1..];
      SelectAll(s[1..], p);
    }
  }

  lemma FitsMeansSameMembers(ids: iset<int>, to: Option<int>, id: int)
    requires ListingFits(ids, to) && id in ids
    ensures !SeekMisses(id, to) && !Skipped(ids, to, id) <==> Within(id, to)
  {}

  lemma WithinMembers(db: Db, all: seq<Record>, to: Option<int>, r: Record)
    requires IsNumericListing(db, all)
    ensures r in Select(all, NotAfter(to)) <==>
      r.0 in ResultIds(db) && db[ResultKey(FormatInt(r.0))] == r.1 && Within(r.0, to)
  {
    SelectMembers(all, NotAfter(to), r);
  }

  lemma FitsMeansUpperBound(db: Db, items: seq<Item>, all: seq<Record>, toDate: Option<int>)
    requires WellFormed(db) && IsReverseScan(db, items) && IsNumericListing(db, all)
    requires StartAt(items, toDate).Some? && ListingFits(ResultIds(db), Bound(toDate))
    ensures Seen(items, toDate) == Select(all, NotAfter(Bound(toDate)))
  {
    var to := Bound(toDate);
    forall r
      ensures r in Seen(items, toDate) <==> r in Select(all, NotAfter(to))
    {
      SeenMembers(db, items, toDate, r);
      WithinMembers(db, all, to, r);
      if r.0 in ResultIds(db) { FitsMeansSameMembers(ResultIds(db), to, r.0); }
    }
    forall r | r in Seen(items, toDate)
      ensures r.0 in UpTo(ResultIds(db), to)
    {
      WithinMembers(db, all, to, r);
    }
    SeenSorted(db, items, toDate);
    TextOrderIsDescending(Seen(items, toDate), UpTo(ResultIds(db), to));
    SelectDescending(all, NotAfter(to));
    DescendingIsUnique(Seen(items, toDate), Select(all, NotAfter(to)));
  }

  /** Only the ids are needed for the other direction. */
  lemma UpperBoundMeansFits(db: Db, items: seq<Item>, all: seq<Record>, toDate: Option<int>)
    requires WellFormed(db) && IsReverseScan(db, items) && IsNumericListing(db, all)
    requires StartAt(items, toDate).Some?
    requires SameIds(Seen(items, toDate), Select(all, NotAfter(Bound(toDate))))
    ensures ListingFits(ResultIds(db), Bound(toDate))
  {
    var to := Bound(toDate);
    var seen, wanted := Seen(items, toDate), Select(all, NotAfter(to));
    forall id | id in ResultIds(db)
      ensures !SeekMisses(id, to) && !Skipped(ResultIds(db), to, id) <==> Within(id, to)
      ensures Within(id, to) ==> exists i | 0 <= i < |seen| :: seen[i].0 == id
    {
      IdIsSeen(db, items, all, toDate, id);
    }
    SeenSorted(db, items, toDate);
    SelectDescending(all, NotAfter(to));
    forall i, j | 0 <= i < j < |seen|
      ensures seen[i].0 > seen[j].0
    {
      assert wanted[i].0 > wanted[j].0;
    }
    BothOrdersAgree(seen, UpTo(ResultIds(db), to));
  }

  ghost predicate SameIds(a: seq<Record>, b: seq<Record>) {
    |a| == |b| && forall k | 0 <= k < |a| :: a[k].0 == b[k].0
  }

  lemma IdIsSeen(db: Db, items: seq<Item>, all: seq<Record>, toDate: Option<int>, id: int)
    requires WellFormed(db) && IsReverseScan(db, items) && IsNumericListing(db, all)
    requires StartAt(items, toDate).Some? && id in ResultIds(db)
    requires SameIds(Seen(items, toDate), Select(all, NotAfter(Bound(toDate))))
    ensures !SeekMisses(id, Bound(toDate)) && !Skipped(ResultIds(db), Bound(toDate), id) <==> Within(id, Bound(toDate))
    ensures Within(id, Bound(toDate)) ==> exists i | 0 <= i < |Seen(items, toDate)| :: Seen(items, toDate)[i].0 == id
  {
    var seen, wanted := Seen(items, toDate), Select(all, NotAfter(Bound(toDate)));
    var r := (id, db[ResultKey(FormatInt(id))]);
    SeenMembers(db, items, toDate, r);
    WithinMembers(db, all, Bound(toDate), r);
    if r in seen {
      var i :| 0 <= i < |seen| && seen[i] == r;
      WithinMembers(db, all, Bound(toDate), wanted[i]);
    }
    if r in wanted {
      var i :| 0 <= i < |wanted| && wanted[i] == r;
      SeenMembers(db, items, toDate, seen[i]);
    }
  }

  /** From its start on the scan sees exactly the records up to the bound, if and only if the ids fit the bound. */
  lemma StartIsUpperBound(db: Db, items: seq<Item>, all: seq<Record>, toDate: Option<int>)
    requires WellFormed(db) && IsReverseScan(db, items) && IsNumericListing(db, all)
    ensures StartAt(items, toDate).Some?
    ensures Visible(items[StartAt(items, toDate).value..]) == Select(all, NotAfter(Bound(toDate))) <==>
      ListingFits(ResultIds(db), Bound(toDate))
  {
    ScanKeysGenerated(db, items);
    StartExists(items, toDate);
    if ListingFits(ResultIds(db), Bound(toDate)) {
      FitsMeansUpperBound(db, items, all, toDate);
    }
    if Seen(items, toDate) == Select(all, NotAfter(Bound(toDate))) {
      UpperBoundMeansFits(db, items, all, toDate);
    }
  }

  // ----------------------------------------------------------------- results

  /** A page is what its name says: drop the offset, take the limit. */
  lemma {:induction false} PageIsSlice(c: Codec, shown: seq<Record>, offset: int, limit: int)
    ensures Page(c, shown, offset, limit) == Entries(c, TakeN(DropN(shown, offset), limit))
    decreases |shown|
  {
    if shown != [] && limit > 0 {
      assert shown == [shown[0]] + shown[1..];
      if offset > 0 {
        PageIsSlice(c, shown[1..], offset - 1, limit);
        assert DropN(shown, offset) == DropN(shown[1..], offset - 1);
      } else {
        PageIsSlice(c, shown[1..], offset, limit - 1);
        assert TakeN(shown, limit) == [shown[0]] + TakeN(shown[1..], limit - 1);
      }
    }
  }

  /** The answer a caller expects. */
  function Expect(c: Codec, all: seq<Record>, req: ListRequest): Response {
    Listed(Entries(c, TakeN(DropN(Wanted(c, all, req), req.offset), PageSize(req.limit))))
  }

  /**
   * Where the ids fit the upper bound, listing gives exactly: the results with an id between the bounds and
   * on the targets, newest first, without the first `offset`, at most `limit` of them.
   */
  lemma ListingIsNumeric(c: Codec, db: Db, items: seq<Item>, all: seq<Record>, req: ListRequest)
    requires WellFormed(db) && IsReverseScan(db, items) && IsNumericListing(db, all)
    requires ListingFits(ResultIds(db), Bound(req.toDate))
    ensures Respond(c, items, req) == Expect(c, all, req)
  {
    DateIsBound(req.toDate);
    DateIsBound(req.fromDate);
    assert Limit(req) == PageSize(req.limit);
    StartIsUpperBound(db, items, all, req.toDate);
    var start := StartAt(items, req.toDate).value;
    ShownIsPipeline(c, req, items[start..]);
    SelectDescending(all, NotAfter(Bound(req.toDate)));
    StoppingEarlyLosesNothing(Select(all, NotAfter(Bound(req.toDate))), Bound(req.fromDate));
    PageIsSlice(c, Wanted(c, all, req), req.offset, Limit(req));
  }

  /** Ids with equally many digits are such ids. */
  lemma EqualDigitsAgree(ids: iset<int>)
    requires forall a | a in ids :: a >= 0
    requires forall a, b | a in ids && b in ids :: |FormatInt(a)| == |FormatInt(b)|
    ensures OrderAgrees(ids)
  {
    forall a, b | a in ids && b in ids
      ensures Less(FormatInt(a), FormatInt(b)) <==> a < b
    {
      EqualDigitsSortNumerically(a, b);
    }
  }

  /** So ids and a bound with equally many digits fit. */
  lemma EqualDigitsFit(ids: iset<int>, to: Option<int>)
    requires forall a | a in ids :: a >= 0
    requires forall a, b | a in ids && b in ids :: |FormatInt(a)| == |FormatInt(b)|
    requires to.Some? ==> to.value >= 0 && forall a | a in ids :: |FormatInt(a)| == |FormatInt(to.value)|
    ensures ListingFits(ids, to)
  {
    EqualDigitsAgree(ids);
    if to.Some? {
      forall id | id in ids
        ensures SeekMisses(id, to) <==> !Within(id, to)
      {
        EqualDigitsSortNumerically(to.value, id);
      }
    }
  }

  /**
   * Where text order is numeric order among the stored ids, they fit a bound exactly when every id that
   * sorts behind the bound as text is beyond it, and at most one id beyond it does not sort behind it.
   */
  lemma FitsIffAtMostOneLate(ids: iset<int>, to: Option<int>)
    requires OrderAgrees(ids)
    ensures ListingFits(ids, to) <==>
      && (forall id | id in ids && SeekMisses(id, to) :: !Within(id, to))
      && (forall a, b | a in ids && b in ids && !SeekMisses(a, to) && !SeekMisses(b, to)
            && !Within(a, to) && !Within(b, to) :: a == b)
  {
    if ListingFits(ids, to) {
      forall a, b | a in ids && b in ids && !SeekMisses(a, to) && !SeekMisses(b, to) && !Within(a, to) && !Within(b, to)
        ensures a == b
      {
        assert ComesFirst(ids, to, a) && ComesFirst(ids, to, b);
        if a != b { NotBothWays(FormatInt(a), FormatInt(b)); }
      }
    }
  }

  /** A request for the `k`-th result up to a bound. */
  function Nth(k: nat, toDate: Option<int>): ListRequest {
    ListRequest(k, 1, None, toDate, [])
  }

  lemma NthWanted(c: Codec, all: seq<Record>, k: nat, toDate: Option<int>)
    ensures Wanted(c, all, Nth(k, toDate)) == Select(all, NotAfter(Bound(toDate)))
  {
    DateIsBound(toDate);
    var upTo := Select(all, NotAfter(Bound(toDate)));
    SelectAll(upTo, NotBefore(None));
    SelectAll(upTo, ForTargets(c, []));
  }

  lemma NthShown(c: Codec, items: seq<Item>, k: nat, toDate: Option<int>)
    requires StartAt(items, toDate).Some?
    ensures Respond(c, items, Nth(k, toDate)) == Listed(Entries(c, TakeN(DropN(Seen(items, toDate), k), 1)))
  {
    ShownIsPipeline(c, Nth(k, toDate), items[StartAt(items, toDate).value..]);
    NoBoundKeepsAll(Seen(items, toDate));
    SelectAll(Seen(items, toDate), ForTargets(c, []));
    PageIsSlice(c, Seen(items, toDate), k, 1);
  }

  lemma {:induction false} NoBoundKeepsAll(s: seq<Record>)
    ensures UntilBefore(s, None) == s
    decreases |s|
  {
    if s != [] {
      NoBoundKeepsAll(s[1..]);
      assert s == [s[0]] + s[1..];
    }
  }

  /** Equal single-entry pages at every offset mean equal ids at every position. */
  lemma SamePagesSameIds(c: Codec, a: seq<Record>, b: seq<Record>, k: nat)
    requires Entries(c, TakeN(DropN(a, k), 1)) == Entries(c, TakeN(DropN(b, k), 1))
    ensures k < |a| <==> k < |b|
    ensures k < |a| && k < |b| ==> a[k].0 == b[k].0
  {
    var x, y := TakeN(DropN(a, k), 1), TakeN(DropN(b, k), 1);
    assert |Entries(c, x)| == |x| && |Entries(c, y)| == |y|;
    if k < |a| && k < |b| {
      assert x[0] == a[k] && y[0] == b[k];
      assert Entries(c, x)[0].id == a[k].0 && Entries(c, y)[0].id == b[k].0;
    }
  }

  lemma PagesMatchAt(c: Codec, items: seq<Item>, all: seq<Record>, k: nat, toDate: Option<int>)
    requires StartAt(items, toDate).Some?
    requires Respond(c, items, Nth(k, toDate)) == Expect(c, all, Nth(k, toDate))
    ensures var wanted := Select(all, NotAfter(Bound(toDate)));
      && (k < |Seen(items, toDate)| <==> k < |wanted|)
      && (k < |wanted| && k < |Seen(items, toDate)| ==> Seen(items, toDate)[k].0 == wanted[k].0)
  {
    NthShown(c, items, k, toDate);
    NthWanted(c, all, k, toDate);
    SamePagesSameIds(c, Seen(items, toDate), Select(all, NotAfter(Bound(toDate))), k);
  }

  /** Every request with this upper bound is answered as expected. */
  ghost predicate AnswersAsExpected(c: Codec, items: seq<Item>, all: seq<Record>, toDate: Option<int>) {
    forall req: ListRequest | req.toDate == toDate :: Respond(c, items, req) == Expect(c, all, req)
  }

  lemma ExpectedMeansFits(c: Codec, db: Db, items: seq<Item>, all: seq<Record>, toDate: Option<int>)
    requires WellFormed(db) && IsReverseScan(db, items) && IsNumericListing(db, all)
    requires AnswersAsExpected(c, items, all, toDate)
    ensures ListingFits(ResultIds(db), Bound(toDate))
  {
    ScanKeysGenerated(db, items);
    StartExists(items, toDate);
    var seen, wanted := Seen(items, toDate), Select(all, NotAfter(Bound(toDate)));
    PagesMatchAt(c, items, all, |seen|, toDate);
    PagesMatchAt(c, items, all, |wanted|, toDate);
    forall k: nat | k < |wanted|
      ensures seen[k].0 == wanted[k].0
    {
      PagesMatchAt(c, items, all, k, toDate);
    }
    UpperBoundMeansFits(db, items, all, toDate);
  }

  /**
   * For every upper bound, or none: all requests with it, whatever their offset, limit, lower bound and
   * targets, are answered as expected if and only if the stored ids fit the bound.
   */
  lemma ExpectedIffFits(c: Codec, db: Db, items: seq<Item>, all: seq<Record>, toDate: Option<int>)
    requires WellFormed(db) && IsReverseScan(db, items) && IsNumericListing(db, all)
    ensures AnswersAsExpected(c, items, all, toDate) <==> ListingFits(ResultIds(db), Bound(toDate))
  {
    if ListingFits(ResultIds(db), Bound(toDate)) {
      forall req: ListRequest | req.toDate == toDate
        ensures Respond(c, items, req) == Expect(c, all, req)
      {
        ListingIsNumeric(c, db, items, all, req);
      }
    }
    if AnswersAsExpected(c, items, all, toDate) {
      ExpectedMeansFits(c, db, items, all, toDate);
    }
  }

  /** Without an upper bound: exactly when the two orders agree on the stored ids. */
  lemma NewestFirstIffOrdersAgree(c: Codec, db: Db, items: seq<Item>, all: seq<Record>)
    requires WellFormed(db) && IsReverseScan(db, items) && IsNumericListing(db, all)
    ensures AnswersAsExpected(c, items, all, None) <==> OrderAgrees(ResultIds(db))
  {
    assert UpTo(ResultIds(db), None) == ResultIds(db);
    ExpectedIffFits(c, db, items, all, None);
  }

  ghost predicate IdsInRange(w: Write) {
    match w
    case Result(_, msg, _) => InRange(msg.id) && InRange(Proto.GroupOf(msg.groupID))
    case Request(req, _, _) => InRange(RequestID(req))
  }

  /** Whatever is written under 64-bit ids, the store's keys are generated keys. */
  lemma {:induction false} HistoryIsWellFormed(c: Codec, writes: seq<Write>)
    requires forall k | 0 <= k < |writes| :: IdsInRange(writes[k])
    ensures WellFormed(ApplyAll(c, writes))
    decreases |writes|
  {
    if writes != [] {
      HistoryIsWellFormed(c, writes[..|writes| - 1]);
      var w := writes[|writes| - 1];
      assert IdsInRange(w);
      match w
      case Result(_, msg, _) =>
        assert GeneratedKey(ResultKey(FormatInt(msg.id)), msg.id);
        var group := Proto.GroupOf(msg.groupID);
        assert GeneratedKey(ResultKey(FormatInt(group)), group);
      case Request(req, _, _) =>
        assert GeneratedKey(RequestKey(FormatInt(RequestID(req))), RequestID(req));
    }
  }

  // ------------------------------------------------------------------- paging

  /** The first `n` pages of size `limit`, one after the other. */
  ghost function Pages(c: Codec, items: seq<Item>, req: ListRequest, limit: int, n: nat): seq<Entry> {
    if n == 0 then []
    else
      Pages(c, items, req, limit, n - 1) +
      match Respond(c, items, req.(offset := (n - 1) * limit, limit := limit))
      case InvalidKey => []
      case Listed(entries) => entries
  }

  lemma TakeMore(s: seq<Record>, n: nat, limit: nat)
    ensures TakeN(s, n) + TakeN(DropN(s, n), limit) == TakeN(s, n + limit)
  {}

  lemma EntriesConcat(c: Codec, a: seq<Record>, b: seq<Record>)
    ensures Entries(c, a + b) == Entries(c, a) + Entries(c, b)
  {}

  lemma PageOf(c: Codec, items: seq<Item>, req: ListRequest, before: nat, limit: int)
    requires 1 <= limit <= RESULTS_PAGE_LIMIT && StartAt(items, req.toDate).Some?
    ensures var shown := Shown(Judge(c, req.fromDate, req.targets), items[StartAt(items, req.toDate).value..]);
      Respond(c, items, req.(offset := before, limit := limit))
        == Listed(Entries(c, TakeN(DropN(shown, before), limit)))
  {
    PageIsSlice(
      c, Shown(Judge(c, req.fromDate, req.targets), items[StartAt(items, req.toDate).value..]), before, limit);
  }

  lemma PageAdds(c: Codec, shown: seq<Record>, before: nat, limit: nat)
    ensures Entries(c, TakeN(shown, before)) + Entries(c, TakeN(DropN(shown, before), limit))
         == Entries(c, TakeN(shown, before + limit))
  {
    TakeMore(shown, before, limit);
    EntriesConcat(c, TakeN(shown, before), TakeN(DropN(shown, before), limit));
  }

  lemma {:induction false} PagesTake(c: Codec, items: seq<Item>, req: ListRequest, limit: int, n: nat)
    requires 1 <= limit <= RESULTS_PAGE_LIMIT && StartAt(items, req.toDate).Some?
    ensures var shown := Shown(Judge(c, req.fromDate, req.targets), items[StartAt(items, req.toDate).value..]);
      Pages(c, items, req, limit, n) == Entries(c, TakeN(shown, n * limit))
  {
    if n > 0 {
      var before := (n - 1) * limit;
      assert n * limit == before + limit && before >= 0;
      PagesTake(c, items, req, limit, n - 1);
      PageOf(c, items, req, before, limit);
      PageAdds(c, Shown(Judge(c, req.fromDate, req.targets), items[StartAt(items, req.toDate).value..]), before, limit);
    }
  }

  /**
   * For every page size from 1 to 100 and every store, reading page after page until the pages cover the
   * listing gives the whole listing, with no entry repeated or missing.
   */
  lemma PagesCoverListing(c: Codec, items: seq<Item>, req: ListRequest, limit: int, n: nat)
    requires 1 <= limit <= RESULTS_PAGE_LIMIT && StartAt(items, req.toDate).Some?
    requires n * limit >= |Shown(Judge(c, req.fromDate, req.targets), items[StartAt(items, req.toDate).value..])|
    ensures Pages(c, items, req, limit, n)
         == Entries(c, Shown(Judge(c, req.fromDate, req.targets), items[StartAt(items, req.toDate).value..]))
  {
    PagesTake(c, items, req, limit, n);
  }
}
