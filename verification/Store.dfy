/**
 * The manager's result store: what is written for every task result and every request, the group index
 * kept as text, and the proof that the index agrees with what was stored.
 */
module Store {
  import opened Common
  import opened Proto
  import opened Text
  import opened Decimal

  const RESULT_PREFIX := "res"
  const REQUEST_PREFIX := "req"
  const GROUPED := "grouped:"
  const COMMA := ","

  datatype Task = Task(node: string, result: Option<TaskResponse>)

  /** The JSON codecs of stored tasks; `decodeNode` reads the node alone. */
  datatype Codec = Codec(
    encode: Task -> string,
    decode: string -> Option<Task>,
    decodeNode: string -> Option<string>)

  /** Decoding undoes encoding, and nothing that starts like a group value is JSON. */
  ghost predicate ValidCodec(c: Codec) {
    && (forall t :: c.decode(c.encode(t)) == Some(t) && c.decodeNode(c.encode(t)) == Some(t.node))
    && (forall t :: !(GROUPED <= c.encode(t)))
    && (forall v :: GROUPED <= v ==> c.decode(v).None? && c.decodeNode(v).None?)
  }

  // ------------------------------------------------------------------- keys

  function ResultKey(id: string): string {
    RESULT_PREFIX + ":" + id
  }

  function RequestKey(id: string): string {
    REQUEST_PREFIX + ":" + id
  }

  datatype Key = Key(prefix: string, id: string)

  function StringToKey(key: string): Option<Key> {
    var parts := Split(key, ":");
    if |parts| == 2 then Some(Key(parts[0], parts[1])) else None
  }

  /** A key is a prefix and an id with one colon between them; anything else is no key of this store. */
  lemma KeyMeaning(key: string, prefix: string, id: string)
    ensures StringToKey(key) == Some(Key(prefix, id)) <==> ':' !in prefix && ':' !in id && key == prefix + ":" + id
  {
    var parts := Split(key, ":");
    JoinSplit(key, ":");
    PartsHaveNoSeparator(key, ':');
    if ':' !in prefix && ':' !in id && key == prefix + ":" + id {
      CharIsClean(prefix, ':');
      CharIsClean(id, ':');
      assert Join([prefix, id], ":") == key by { assert [prefix, id][1..] == [id]; }
      SplitJoin([prefix, id], ":");
    }
    if |parts| == 2 { assert parts[1..] == [parts[1]]; }
  }

  /** A generated key parses back into its prefix and id. */
  lemma KeyRoundTrip(id: int)
    ensures StringToKey(ResultKey(FormatInt(id))) == Some(Key(RESULT_PREFIX, FormatInt(id)))
    ensures StringToKey(RequestKey(FormatInt(id))) == Some(Key(REQUEST_PREFIX, FormatInt(id)))
  {
    FormatIsClean(id, ':');
    PrefixSplits(RESULT_PREFIX, FormatInt(id));
    PrefixSplits(REQUEST_PREFIX, FormatInt(id));
  }

  lemma PrefixSplits(prefix: string, id: string)
    requires prefix == RESULT_PREFIX || prefix == REQUEST_PREFIX
    requires Clean(id, ":")
    ensures Split(prefix + ":" + id, ":") == [prefix, id]
  {
    forall i | 0 <= i < |prefix|
      ensures !OccursAt(prefix + ":", i, ":")
    {
      assert (prefix + ":")[i..i + 1] == [prefix[i]];
    }
    assert Join([prefix, id], ":") == prefix + ":" + id by {
      assert [prefix, id][1..] == [id];
    }
    SplitJoin([prefix, id], ":");
  }

  // ----------------------------------------------------------------- writing

  type Db = map<string, string>

  /** A committed or failed write transaction. */
  datatype Write =
    | Result(node: string, msg: TaskResponse, committed: bool)
    | Request(req: TaskRequest, data: string, committed: bool)

  /** The group entry after `id` has been added to it. */
  function AppendToGroup(current: Option<string>, id: string): string {
    match current
    case None => GROUPED + id
    case Some(value) => value + COMMA + id
  }

  function Lookup(db: Db, key: string): Option<string> {
    if key in db then Some(db[key]) else None
  }

  function StoreResult(c: Codec, db: Db, node: string, msg: TaskResponse, committed: bool): Db {
    if !committed || msg.id == 0 then db
    else
      var id := FormatInt(msg.id);
      var db1 := db[ResultKey(id) := c.encode(Task(node, Some(msg)))];
      if GroupOf(msg.groupID) == 0 then db1
      else
        var groupKey := ResultKey(FormatInt(GroupOf(msg.groupID)));
        db1[groupKey := AppendToGroup(Lookup(db1, groupKey), id)]
  }

  /** A grouped request is stored under its group. */
  function RequestID(req: TaskRequest): int {
    if GroupOf(req.groupID) > 0 then GroupOf(req.groupID) else req.id
  }

  function StoreRequest(db: Db, req: TaskRequest, data: string, committed: bool): Db {
    if committed then db[RequestKey(FormatInt(RequestID(req))) := data] else db
  }

  function Apply(c: Codec, db: Db, w: Write): Db {
    match w
    case Result(node, msg, committed) => StoreResult(c, db, node, msg, committed)
    case Request(req, data, committed) => StoreRequest(db, req, data, committed)
  }

  function ApplyAll(c: Codec, writes: seq<Write>): Db {
    if writes == [] then map[] else Apply(c, ApplyAll(c, writes[..|writes| - 1]), writes[|writes| - 1])
  }

  /** The database handle shared by the server and the forwarder. */
  class Database {
    const codec: Codec
    var entries: Db

    constructor (codec: Codec)
      ensures this.codec == codec && entries == map[]
    {
      this.codec := codec;
      entries := map[];
    }

    method StoreResult(node: string, msg: TaskResponse, committed: bool)
      modifies this
      ensures entries == Apply(codec, old(entries), Result(node, msg, committed))
    {
      var pending := entries;
      var id := FormatInt(msg.id);
      if msg.id != 0 {
        pending := pending[ResultKey(id) := codec.encode(Task(node, Some(msg)))];
        if GroupOf(msg.groupID) != 0 {
          var groupKey := ResultKey(FormatInt(GroupOf(msg.groupID)));
          if groupKey in pending {
            pending := pending[groupKey := pending[groupKey] + COMMA + id];
          } else {
            pending := pending[groupKey := GROUPED + id];
          }
        }
      }
      if committed {
        entries := pending;
      }
    }

    method StoreRequest(req: TaskRequest, data: string, committed: bool)
      modifies this
      ensures entries == Apply(codec, old(entries), Request(req, data, committed))
    {
      var key: string;
      if GroupOf(req.groupID) > 0 {
        key := RequestKey(FormatInt(GroupOf(req.groupID)));
      } else {
        key := RequestKey(FormatInt(req.id));
      }
      if committed {
        entries := entries[key := data];
      }
    }
  }

  // ----------------------------------------------------------------- history

  /** The write recorded a task result. */
  predicate Stored(w: Write) {
    w.Result? && w.committed && w.msg.id != 0
  }

  predicate Grouped(w: Write) {
    Stored(w) && GroupOf(w.msg.groupID) != 0
  }

  /** The last result stored under `id`. */
  function LastResult(writes: seq<Write>, id: int): Option<Task> {
    if writes == [] then None
    else
      var w := writes[|writes| - 1];
      if Stored(w) && w.msg.id == id then Some(Task(w.node, Some(w.msg)))
      else LastResult(writes[..|writes| - 1], id)
  }

  /** The ids stored for a group, in order of arrival. */
  function GroupIds(writes: seq<Write>, group: int): seq<int> {
    if writes == [] then []
    else
      var w := writes[|writes| - 1];
      var before := GroupIds(writes[..|writes| - 1], group);
      if Grouped(w) && GroupOf(w.msg.groupID) == group then before + [w.msg.id] else before
  }

  function Texts(ids: seq<int>): (texts: seq<string>)
    ensures |texts| == |ids|
    ensures forall i | 0 <= i < |ids| :: texts[i] == FormatInt(ids[i])
  {
    seq(|ids|, i requires 0 <= i < |ids| => FormatInt(ids[i]))
  }

  /** No result id is also a group id. */
  ghost predicate Disjoint(writes: seq<Write>) {
    forall id :: LastResult(writes, id).Some? ==> GroupIds(writes, id) == []
  }

  /** The ids read from the value stored under a group key. */
  function ReadGroup(db: Db, group: int): Option<seq<string>> {
    match Lookup(db, ResultKey(FormatInt(group)))
    case None => None
    case Some(value) =>
      match CutPrefix(value, GROUPED)
      case None => None
      case Some(ids) => Some(Split(ids, COMMA))
  }

  /** What the store should say after a history: every last result, and every group's ids in order. */
  ghost predicate Agrees(c: Codec, db: Db, writes: seq<Write>) {
    && (forall id :: LastResult(writes, id).Some? ==>
          Lookup(db, ResultKey(FormatInt(id))) == Some(c.encode(LastResult(writes, id).value)))
    && (forall group :: GroupIds(writes, group) != [] ==>
          ReadGroup(db, group) == Some(Texts(GroupIds(writes, group))))
  }

  // ------------------------------------------------------------------ proofs

  lemma ResultKeyInjective(a: int, b: int)
    requires ResultKey(FormatInt(a)) == ResultKey(FormatInt(b))
    ensures a == b
  {
    assert ResultKey(FormatInt(a))[4..] == FormatInt(a);
    assert ResultKey(FormatInt(b))[4..] == FormatInt(b);
    FormatInjective(a, b);
  }

  lemma ResultIsNotRequest(a: string, b: string)
    ensures ResultKey(a) != RequestKey(b)
  {
    assert ResultKey(a)[2] == 's' && RequestKey(b)[2] == 'q';
  }

  /** Text of the group entry for these ids. */
  function GroupText(ids: seq<int>): string {
    GROUPED + Join(Texts(ids), COMMA)
  }

  lemma {:induction false} JoinSnoc(parts: seq<string>, last: string, sep: string)
    requires parts != []
    ensures Join(parts + [last], sep) == Join(parts, sep) + sep + last
    decreases |parts|
  {
    if |parts| == 1 {
      assert (parts + [last])[1..] == [last];
    } else {
      assert (parts + [last])[1..] == parts[1..] + [last];
      JoinSnoc(parts[1..], last, sep);
    }
  }

  lemma AppendGrows(ids: seq<int>, id: int)
    ensures AppendToGroup(if ids == [] then None else Some(GroupText(ids)), FormatInt(id)) == GroupText(ids + [id])
  {
    assert Texts(ids + [id]) == Texts(ids) + [FormatInt(id)];
    if ids == [] {
      assert Texts(ids) == [];
    } else {
      JoinSnoc(Texts(ids), FormatInt(id), COMMA);
    }
  }

  /** What a result key holds when results and groups are disjoint. */
  function Expected(c: Codec, writes: seq<Write>, id: int): Option<string> {
    if LastResult(writes, id).Some? then Some(c.encode(LastResult(writes, id).value))
    else if GroupIds(writes, id) != [] then Some(GroupText(GroupIds(writes, id)))
    else None
  }

  lemma DisjointPrefix(writes: seq<Write>)
    requires writes != [] && Disjoint(writes)
    ensures Disjoint(writes[..|writes| - 1])
  {
    var before := writes[..|writes| - 1];
    forall id | LastResult(before, id).Some?
      ensures GroupIds(before, id) == []
    {
      assert LastResult(writes, id).Some?;
    }
  }

  /** A stored result touches its own key and its group's key and nothing else. */
  lemma StoreResultAt(c: Codec, db: Db, w: Write, k: int)
    requires Stored(w) && (Grouped(w) ==> GroupOf(w.msg.groupID) != w.msg.id)
    ensures Lookup(Apply(c, db, w), ResultKey(FormatInt(k))) ==
      if k == w.msg.id then Some(c.encode(Task(w.node, Some(w.msg))))
      else if Grouped(w) && k == GroupOf(w.msg.groupID) then
        Some(AppendToGroup(Lookup(db, ResultKey(FormatInt(k))), FormatInt(w.msg.id)))
      else Lookup(db, ResultKey(FormatInt(k)))
  {
    if k != w.msg.id && ResultKey(FormatInt(k)) == ResultKey(FormatInt(w.msg.id)) {
      ResultKeyInjective(k, w.msg.id);
    }
    var g := GroupOf(w.msg.groupID);
    if k != g && ResultKey(FormatInt(k)) == ResultKey(FormatInt(g)) {
      ResultKeyInjective(k, g);
    }
  }

  lemma RequestLeavesResults(c: Codec, db: Db, w: Write, k: int)
    requires !Stored(w)
    ensures Lookup(Apply(c, db, w), ResultKey(FormatInt(k))) == Lookup(db, ResultKey(FormatInt(k)))
  {
    if w.Request? {
      ResultIsNotRequest(FormatInt(k), FormatInt(RequestID(w.req)));
    }
  }

  lemma {:induction false} ContentsAre(c: Codec, writes: seq<Write>, k: int)
    requires Disjoint(writes)
    ensures Lookup(ApplyAll(c, writes), ResultKey(FormatInt(k))) == Expected(c, writes, k)
    decreases |writes|
  {
    if writes != [] {
      var before, w := writes[..|writes| - 1], writes[|writes| - 1];
      DisjointPrefix(writes);
      ContentsAre(c, before, k);
      if Stored(w) {
        assert LastResult(writes, w.msg.id).Some?;
        assert GroupIds(writes, w.msg.id) == [];
        StoreResultAt(c, ApplyAll(c, before), w, k);
        if Grouped(w) && k == GroupOf(w.msg.groupID) {
          assert GroupIds(writes, k) != [];
          assert LastResult(writes, k).None?;
          AppendGrows(GroupIds(before, k), w.msg.id);
        }
      } else {
        RequestLeavesResults(c, ApplyAll(c, before), w, k);
      }
    }
  }

  lemma ReadGroupText(db: Db, group: int, ids: seq<int>)
    requires ids != [] && Lookup(db, ResultKey(FormatInt(group))) == Some(GroupText(ids))
    ensures ReadGroup(db, group) == Some(Texts(ids))
  {
    SplitGroupText(ids);
  }

  lemma SplitGroupText(ids: seq<int>)
    requires ids != []
    ensures Split(GroupText(ids)[|GROUPED|..], COMMA) == Texts(ids)
  {
    forall t | t in Texts(ids)
      ensures Clean(t, COMMA)
    {
      var i :| 0 <= i < |ids| && t == FormatInt(ids[i]);
      FormatIsClean(ids[i], ',');
    }
    SplitJoin(Texts(ids), COMMA);
    assert GroupText(ids)[|GROUPED|..] == Join(Texts(ids), COMMA);
  }

  /**
   * After any history the store holds the last result of every id and, under every group, exactly the ids
   * stored for it in order of arrival, if and only if no result id is also a group id.
   */
  lemma StoreAgreesWithHistory(c: Codec, writes: seq<Write>)
    requires ValidCodec(c)
    ensures Agrees(c, ApplyAll(c, writes), writes) <==> Disjoint(writes)
  {
    var db := ApplyAll(c, writes);
    if Disjoint(writes) {
      forall id
        ensures LastResult(writes, id).Some? ==>
          Lookup(db, ResultKey(FormatInt(id))) == Some(c.encode(LastResult(writes, id).value))
        ensures GroupIds(writes, id) != [] ==> ReadGroup(db, id) == Some(Texts(GroupIds(writes, id)))
      {
        ContentsAre(c, writes, id);
        if GroupIds(writes, id) != [] {
          assert LastResult(writes, id).None?;
          ReadGroupText(db, id, GroupIds(writes, id));
        }
      }
    }
    if Agrees(c, db, writes) {
      forall id | LastResult(writes, id).Some?
        ensures GroupIds(writes, id) == []
      {
        assert !(GROUPED <= c.encode(LastResult(writes, id).value));
      }
    }
  }

  // ------------------------------------------------------ groups never nest

  predicate IsGroupValue(entry: Option<string>) {
    entry.Some? && GROUPED <= entry.value
  }

  /** The id has an entry, and it is not a group's. */
  predicate HoldsRecord(db: Db, id: int) {
    var entry := Lookup(db, ResultKey(FormatInt(id)));
    entry.Some? && !IsGroupValue(entry)
  }

  ghost predicate ListsRecords(db: Db, value: string, ids: seq<int>) {
    ids != [] && value == GroupText(ids) && forall i | 0 <= i < |ids| :: HoldsRecord(db, ids[i])
  }

  ghost predicate GroupIsFlat(db: Db, id: string) {
    var entry := Lookup(db, ResultKey(id));
    IsGroupValue(entry) ==> exists ids :: ListsRecords(db, entry.value, ids)
  }

  ghost predicate Flat(db: Db) {
    forall id :: GroupIsFlat(db, id)
  }

  /** Appending an id to an entry that is no group value does not make it one. */
  lemma AppendingMakesNoGroup(value: string, id: string)
    requires !(GROUPED <= value)
    ensures !(GROUPED <= value + COMMA + id)
  {
    var longer := value + COMMA + id;
    if |value| < |GROUPED| {
      assert longer[|value|] == ',' && GROUPED[|value|] != ',';
    } else {
      assert longer[..|GROUPED|] == value[..|GROUPED|];
    }
  }

  /** Storing leaves records records, and stores the new record before it is listed. */
  lemma RecordsStay(c: Codec, db: Db, w: Write, id: int)
    requires ValidCodec(c) && (HoldsRecord(db, id) || (Stored(w) && w.msg.id == id))
    ensures HoldsRecord(Apply(c, db, w), id)
  {
    if !Stored(w) {
      RequestLeavesResults(c, db, w, id);
    } else {
      var db1 := db[ResultKey(FormatInt(w.msg.id)) := c.encode(Task(w.node, Some(w.msg)))];
      assert HoldsRecord(db1, id);
      if Grouped(w) {
        AppendingMakesNoGroup(db1[ResultKey(FormatInt(id))], FormatInt(w.msg.id));
      }
    }
  }

  lemma ListingStays(c: Codec, db: Db, w: Write, value: string, ids: seq<int>)
    requires ValidCodec(c) && ListsRecords(db, value, ids)
    ensures ListsRecords(Apply(c, db, w), value, ids)
  {
    forall i | 0 <= i < |ids|
      ensures HoldsRecord(Apply(c, db, w), ids[i])
    {
      RecordsStay(c, db, w, ids[i]);
    }
  }

  /** What a write does to the one group entry it extends. */
  lemma GroupedKeepsFlat(c: Codec, db: Db, w: Write)
    requires ValidCodec(c) && Flat(db) && Grouped(w)
    ensures GroupIsFlat(Apply(c, db, w), FormatInt(GroupOf(w.msg.groupID)))
  {
    var group, id := FormatInt(GroupOf(w.msg.groupID)), FormatInt(w.msg.id);
    var db1 := db[ResultKey(id) := c.encode(Task(w.node, Some(w.msg)))];
    var entry := Lookup(db1, ResultKey(group));
    var db' := Apply(c, db, w);
    assert Lookup(db', ResultKey(group)) == Some(AppendToGroup(entry, id));
    RecordsStay(c, db, w, w.msg.id);
    if entry.None? {
      AppendGrows([], w.msg.id);
      assert ListsRecords(db', db'[ResultKey(group)], [w.msg.id]);
    } else if IsGroupValue(entry) {
      assert GroupIsFlat(db, group);
      var ids :| ListsRecords(db, entry.value, ids);
      AppendGrows(ids, w.msg.id);
      ListingStays(c, db, w, entry.value, ids);
      assert ListsRecords(db', db'[ResultKey(group)], ids + [w.msg.id]);
    } else {
      AppendingMakesNoGroup(entry.value, id);
    }
  }

  lemma StepKeepsFlat(c: Codec, db: Db, w: Write)
    requires ValidCodec(c) && Flat(db)
    ensures Flat(Apply(c, db, w))
  {
    var db' := Apply(c, db, w);
    forall id
      ensures GroupIsFlat(db', id)
    {
      var entry := Lookup(db', ResultKey(id));
      if Grouped(w) && ResultKey(id) == ResultKey(FormatInt(GroupOf(w.msg.groupID))) {
        GroupedKeepsFlat(c, db, w);
      } else if IsGroupValue(entry) {
        if w.Request? { ResultIsNotRequest(id, FormatInt(RequestID(w.req))); }
        assert entry == Lookup(db, ResultKey(id));
        assert GroupIsFlat(db, id);
        var ids :| ListsRecords(db, entry.value, ids);
        ListingStays(c, db, w, entry.value, ids);
      }
    }
  }

  lemma {:induction false} HistoryIsFlat(c: Codec, writes: seq<Write>)
    requires ValidCodec(c)
    ensures Flat(ApplyAll(c, writes))
    decreases |writes|
  {
    if writes == [] {
      assert forall id :: GroupIsFlat(map[], id);
    } else {
      HistoryIsFlat(c, writes[..|writes| - 1]);
      StepKeepsFlat(c, ApplyAll(c, writes[..|writes| - 1]), writes[|writes| - 1]);
    }
  }

  /**
   * After any history at all, also when ids and groups collide: what a group value lists are records, never
   * groups. In particular no group lists itself, and no two groups list each other.
   */
  lemma GroupsNeverNest(c: Codec, writes: seq<Write>, id: string, subid: string)
    requires ValidCodec(c)
    requires IsGroupValue(Lookup(ApplyAll(c, writes), ResultKey(id)))
    requires subid in Split(Lookup(ApplyAll(c, writes), ResultKey(id)).value[|GROUPED|..], COMMA)
    ensures ResultKey(subid) in ApplyAll(c, writes)
    ensures !IsGroupValue(Lookup(ApplyAll(c, writes), ResultKey(subid)))
    ensures subid != id
  {
    var db := ApplyAll(c, writes);
    HistoryIsFlat(c, writes);
    assert GroupIsFlat(db, id);
    var ids :| ListsRecords(db, db[ResultKey(id)], ids);
    SplitGroupText(ids);
    var i :| 0 <= i < |Texts(ids)| && Texts(ids)[i] == subid;
    assert HoldsRecord(db, ids[i]);
  }
}
