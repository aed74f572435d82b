/**
 * `jack results get`: expanding a result or group id into its results, and finding the request that led
 * to a result.
 */
module Expansion {
  import opened Common
  import opened Proto
  import opened Text
  import opened Decimal
  import opened Store

  /** `Unfinished` means the recursion went deeper than allowed. */
  datatype Expanded = Shown(text: string) | Failed | Unfinished

  type Printer = string -> Option<string>

  function Append(before: Expanded, next: Expanded): Expanded {
    match before
    case Shown(a) => (match next case Shown(b) => Shown(a + b) case other => other)
    case other => other
  }

  /** The first `n` ids of a group, expanded in order; the first failure ends the loop. */
  function ExpandIds(db: Db, pretty: Printer, id: string, ids: seq<string>, n: nat, depth: nat): Expanded
    requires n <= |ids|
    decreases depth, 1, n
  {
    if n == 0 then Shown("")
    else
      match ExpandIds(db, pretty, id, ids, n - 1, depth)
      case Shown(text) =>
        if ids[n - 1] == id then Failed
        else Append(Shown(text), if depth == 0 then Unfinished else Expand(db, pretty, ids[n - 1], depth - 1))
      case other => other
  }

  /** `depth` levels of recursion are allowed below this call. */
  function Expand(db: Db, pretty: Printer, id: string, depth: nat): Expanded
    decreases depth, 2
  {
    match Lookup(db, ResultKey(id))
    case None => Failed
    case Some(value) =>
      match CutPrefix(value, GROUPED)
      case Some(group) => var ids := Split(group, COMMA); ExpandIds(db, pretty, id, ids, |ids|, depth)
      case None => match pretty(value) case None => Failed case Some(text) => Shown(text)
  }

  lemma {:induction false} FailureSticks(
      db: Db, pretty: Printer, id: string, ids: seq<string>, n: nat, m: nat, depth: nat)
    requires n <= m <= |ids| && !ExpandIds(db, pretty, id, ids, n, depth).Shown?
    ensures ExpandIds(db, pretty, id, ids, m, depth) == ExpandIds(db, pretty, id, ids, n, depth)
    decreases m
  {
    if n < m {
      FailureSticks(db, pretty, id, ids, n, m - 1, depth);
    }
  }

  method GetResult(db: Db, pretty: Printer, id: string, depth: nat) returns (r: Expanded)
    ensures r == Expand(db, pretty, id, depth)
    decreases depth
  {
    var stored := Lookup(db, ResultKey(id));
    if stored.None? {
      return Failed;
    }
    var group := CutPrefix(stored.value, GROUPED);
    if group.Some? {
      var ids := Split(group.value, COMMA);
      var out := "";
      for i := 0 to |ids|
        invariant ExpandIds(db, pretty, id, ids, i, depth) == Shown(out)
      {
        if ids[i] == id {
          FailureSticks(db, pretty, id, ids, i + 1, |ids|, depth);
          return Failed;
        }
        var p := Unfinished;
        if depth > 0 {
          p := GetResult(db, pretty, ids[i], depth - 1);
        }
        if !p.Shown? {
          FailureSticks(db, pretty, id, ids, i + 1, |ids|, depth);
          return p;
        }
        out := out + p.text;
      }
      return Shown(out);
    }
    var text := pretty(stored.value);
    return match text case None => Failed case Some(t) => Shown(t);
  }

  // ------------------------------------------------------- depth and order

  function PrintTask(c: Codec, pretty: Printer, t: Option<Task>): Expanded {
    match t
    case None => Failed
    case Some(task) => match pretty(c.encode(task)) case None => Failed case Some(text) => Shown(text)
  }

  /** The printed results of these ids, in order, up to the first that cannot be printed. */
  function PrintAll(c: Codec, pretty: Printer, writes: seq<Write>, ids: seq<int>): Expanded {
    if ids == [] then Shown("")
    else
      Append(PrintAll(c, pretty, writes, ids[..|ids| - 1]), PrintTask(c, pretty, LastResult(writes, ids[|ids| - 1])))
  }

  /** Every id of a group was stored as a result. */
  lemma {:induction false} GroupIdsAreStored(writes: seq<Write>, group: int)
    ensures forall id | id in GroupIds(writes, group) :: LastResult(writes, id).Some?
    decreases |writes|
  {
    if writes != [] {
      GroupIdsAreStored(writes[..|writes| - 1], group);
    }
  }

  /** A single result is shown by one fetch, without recursion. */
  lemma ExpandTask(c: Codec, pretty: Printer, writes: seq<Write>, id: int, depth: nat)
    requires ValidCodec(c) && Disjoint(writes) && LastResult(writes, id).Some?
    ensures Expand(ApplyAll(c, writes), pretty, FormatInt(id), depth) == PrintTask(c, pretty, LastResult(writes, id))
  {
    ContentsAre(c, writes, id);
    assert !(GROUPED <= c.encode(LastResult(writes, id).value));
  }

  /** Results in order, up to the first that fails. */
  function AppendAll(results: seq<Expanded>): Expanded {
    if results == [] then Shown("") else Append(AppendAll(results[..|results| - 1]), results[|results| - 1])
  }

  lemma {:induction false} ExpandIdsAppends(
      db: Db, pretty: Printer, id: string, ids: seq<string>, results: seq<Expanded>, n: nat, depth: nat)
    requires n <= |ids| == |results| && depth >= 1
    requires forall k | 0 <= k < |ids| :: ids[k] != id && results[k] == Expand(db, pretty, ids[k], depth - 1)
    ensures ExpandIds(db, pretty, id, ids, n, depth) == AppendAll(results[..n])
    decreases n
  {
    if n > 0 {
      ExpandIdsAppends(db, pretty, id, ids, results, n - 1, depth);
      assert results[..n][..n - 1] == results[..n - 1];
    }
  }

  lemma {:induction false} AppendsAllPrinted(
      c: Codec, pretty: Printer, writes: seq<Write>, ids: seq<int>, results: seq<Expanded>)
    requires |ids| == |results|
    requires forall k | 0 <= k < |ids| :: results[k] == PrintTask(c, pretty, LastResult(writes, ids[k]))
    ensures AppendAll(results) == PrintAll(c, pretty, writes, ids)
    decreases |ids|
  {
    if ids != [] {
      AppendsAllPrinted(c, pretty, writes, ids[..|ids| - 1], results[..|ids| - 1]);
    }
  }

  lemma MemberExpands(c: Codec, pretty: Printer, writes: seq<Write>, group: int, k: nat, depth: nat)
    requires ValidCodec(c) && Disjoint(writes) && k < |GroupIds(writes, group)|
    ensures FormatInt(GroupIds(writes, group)[k]) != FormatInt(group)
    ensures Expand(ApplyAll(c, writes), pretty, FormatInt(GroupIds(writes, group)[k]), depth)
         == PrintTask(c, pretty, LastResult(writes, GroupIds(writes, group)[k]))
  {
    var id := GroupIds(writes, group)[k];
    GroupIdsAreStored(writes, group);
    assert id in GroupIds(writes, group);
    ExpandTask(c, pretty, writes, id, depth);
    if FormatInt(id) == FormatInt(group) {
      FormatInjective(id, group);
    }
  }

  lemma ExpandGroupIds(c: Codec, pretty: Printer, writes: seq<Write>, group: int, depth: nat)
    requires ValidCodec(c) && Disjoint(writes) && depth >= 1
    ensures var ids := GroupIds(writes, group);
      ExpandIds(ApplyAll(c, writes), pretty, FormatInt(group), Texts(ids), |ids|, depth)
        == PrintAll(c, pretty, writes, ids)
  {
    var db, ids := ApplyAll(c, writes), GroupIds(writes, group);
    var texts := Texts(ids);
    var results := seq(|ids|, k requires 0 <= k < |ids| => Expand(db, pretty, texts[k], depth - 1));
    forall k | 0 <= k < |ids|
      ensures texts[k] != FormatInt(group)
      ensures results[k] == PrintTask(c, pretty, LastResult(writes, ids[k]))
    {
      MemberExpands(c, pretty, writes, group, k, depth - 1);
    }
    ExpandIdsAppends(db, pretty, FormatInt(group), texts, results, |ids|, depth);
    assert results[..|ids|] == results;
    AppendsAllPrinted(c, pretty, writes, ids, results);
  }

  lemma {:induction false} ExpandIdsEnds(db: Db, pretty: Printer, id: string, ids: seq<string>, n: nat, depth: nat)
    requires n <= |ids| && depth >= 1
    requires forall k | 0 <= k < |ids| :: ids[k] != id && !IsGroupValue(Lookup(db, ResultKey(ids[k])))
    ensures !ExpandIds(db, pretty, id, ids, n, depth).Unfinished?
    decreases n
  {
    if n > 0 {
      ExpandIdsEnds(db, pretty, id, ids, n - 1, depth);
      assert !IsGroupValue(Lookup(db, ResultKey(ids[n - 1])));
      assert !Expand(db, pretty, ids[n - 1], depth - 1).Unfinished?;
    }
  }

  /**
   * After any history, for any id given on the command line, one level of recursion below the call is
   * enough.
   */
  lemma ExpansionEnds(c: Codec, pretty: Printer, writes: seq<Write>, id: string, depth: nat)
    requires ValidCodec(c) && depth >= 1
    ensures !Expand(ApplyAll(c, writes), pretty, id, depth).Unfinished?
  {
    var db := ApplyAll(c, writes);
    var entry := Lookup(db, ResultKey(id));
    if IsGroupValue(entry) {
      var ids := Split(entry.value[|GROUPED|..], COMMA);
      forall k | 0 <= k < |ids|
        ensures ids[k] != id && !IsGroupValue(Lookup(db, ResultKey(ids[k])))
      {
        GroupsNeverNest(c, writes, id, ids[k]);
      }
      ExpandIdsEnds(db, pretty, id, ids, |ids|, depth);
    }
  }

  /**
   * Where result and group ids are disjoint, a group shows the printed results of its ids in order of
   * arrival and a result shows itself, with one level of recursion below the call.
   */
  lemma ExpansionIsShallow(c: Codec, pretty: Printer, writes: seq<Write>, id: int, depth: nat)
    requires ValidCodec(c) && Disjoint(writes) && depth >= 1
    ensures Expand(ApplyAll(c, writes), pretty, FormatInt(id), depth) ==
      if GroupIds(writes, id) != [] then PrintAll(c, pretty, writes, GroupIds(writes, id))
      else PrintTask(c, pretty, LastResult(writes, id))
    ensures !Expand(ApplyAll(c, writes), pretty, FormatInt(id), depth).Unfinished?
  {
    ExpansionEnds(c, pretty, writes, FormatInt(id), depth);
    var ids := GroupIds(writes, id);
    if ids != [] {
      assert LastResult(writes, id).None?;
      ContentsAre(c, writes, id);
      var db := ApplyAll(c, writes);
      ReadGroupText(db, id, ids);
      ExpandGroupIds(c, pretty, writes, id, depth);
    } else if LastResult(writes, id).Some? {
      ExpandTask(c, pretty, writes, id, depth);
    } else {
      ContentsAre(c, writes, id);
    }
  }

  // ----------------------------------------------------- finding the request

  /** The key of the request behind a stored value found under `resultID`. */
  function ExtractRequestID(c: Codec, value: string, resultID: string): Option<string> {
    if CutPrefix(value, GROUPED).Some? then Some(RequestKey(resultID))
    else
      match c.decode(value)
      case None => None
      case Some(Task(_, None)) => Some(RequestKey(resultID))
      case Some(Task(_, Some(r))) =>
        if GroupOf(r.groupID) != 0 then Some(RequestKey(FormatInt(GroupOf(r.groupID))))
        else if r.id != 0 then Some(RequestKey(FormatInt(r.id)))
        else Some(RequestKey(resultID))
  }

  function FetchRequestID(c: Codec, db: Db, resultID: string): Option<string> {
    match Lookup(db, ResultKey(resultID))
    case None => None
    case Some(value) =>
      match ExtractRequestID(c, value, resultID)
      case None => None
      case Some(requestKey) =>
        match CutPrefix(requestKey, REQUEST_PREFIX + ":")
        case Some(id) => Some(id)
        case None => Some(requestKey)
  }

  /** The stored request a result id leads to. */
  function FetchRequest(c: Codec, db: Db, resultID: string): Option<string> {
    match FetchRequestID(c, db, resultID)
    case None => None
    case Some(id) => Lookup(db, RequestKey(id))
  }

  /** The data of the last request stored for a group. */
  function LastRequest(writes: seq<Write>, id: int): Option<string> {
    if writes == [] then None
    else
      var w := writes[|writes| - 1];
      if w.Request? && w.committed && RequestID(w.req) == id then Some(w.data)
      else LastRequest(writes[..|writes| - 1], id)
  }

  lemma {:induction false} RequestsAre(c: Codec, writes: seq<Write>, id: int)
    ensures Lookup(ApplyAll(c, writes), RequestKey(FormatInt(id))) == LastRequest(writes, id)
    decreases |writes|
  {
    if writes != [] {
      var before, w := writes[..|writes| - 1], writes[|writes| - 1];
      RequestsAre(c, before, id);
      match w
      case Result(_, msg, _) =>
        ResultIsNotRequest(FormatInt(msg.id), FormatInt(id));
        ResultIsNotRequest(FormatInt(GroupOf(msg.groupID)), FormatInt(id));
      case Request(req, _, _) =>
        if RequestID(req) != id && RequestKey(FormatInt(RequestID(req))) == RequestKey(FormatInt(id)) {
          assert RequestKey(FormatInt(id))[4..] == FormatInt(id);
          assert RequestKey(FormatInt(RequestID(req)))[4..] == FormatInt(RequestID(req));
          FormatInjective(RequestID(req), id);
        }
    }
  }

  /** Which request a result id belongs to: the group's for a group, else the result's group, else itself. */
  function Owner(writes: seq<Write>, id: int): int {
    match LastResult(writes, id)
    case Some(Task(_, Some(r))) => if GroupOf(r.groupID) != 0 then GroupOf(r.groupID) else id
    case _ => id
  }

  lemma {:induction false} LastResultHasId(writes: seq<Write>, id: int)
    requires LastResult(writes, id).Some?
    ensures LastResult(writes, id).value.result.Some?
    ensures LastResult(writes, id).value.result.value.id == id && id != 0
    decreases |writes|
  {
    var w := writes[|writes| - 1];
    if !(Stored(w) && w.msg.id == id) {
      LastResultHasId(writes[..|writes| - 1], id);
    }
  }

  /**
   * From any stored result, and from any group, the request found is the very record stored for the
   * request that produced it.
   */
  lemma RequestIsFound(c: Codec, writes: seq<Write>, id: int)
    requires ValidCodec(c) && Disjoint(writes)
    requires LastResult(writes, id).Some? || GroupIds(writes, id) != []
    ensures FetchRequestID(c, ApplyAll(c, writes), FormatInt(id)) == Some(FormatInt(Owner(writes, id)))
    ensures FetchRequest(c, ApplyAll(c, writes), FormatInt(id)) == LastRequest(writes, Owner(writes, id))
  {
    var db := ApplyAll(c, writes);
    ContentsAre(c, writes, id);
    RequestsAre(c, writes, Owner(writes, id));
    var value := Lookup(db, ResultKey(FormatInt(id))).value;
    if LastResult(writes, id).Some? {
      LastResultHasId(writes, id);
      var task := LastResult(writes, id).value;
      assert c.decode(c.encode(task)) == Some(task) && !(GROUPED <= c.encode(task));
    }
    var key := RequestKey(FormatInt(Owner(writes, id)));
    assert ExtractRequestID(c, value, FormatInt(id)) == Some(key);
    assert CutPrefix(key, REQUEST_PREFIX + ":") == Some(FormatInt(Owner(writes, id))) by {
      assert key[..4] == REQUEST_PREFIX + ":";
      assert key[4..] == FormatInt(Owner(writes, id));
    }
  }

  /** Later requests under other ids leave a stored request findable from any of its results. */
  lemma ForwarderRequestIsFound(
      c: Codec, writes: seq<Write>, before: seq<Write>, req: TaskRequest, data: string, after: seq<Write>, id: int)
    requires ValidCodec(c) && Disjoint(writes)
    requires writes == before + [Request(req, data, true)] + after
    requires forall k | 0 <= k < |after| :: after[k].Request? ==> RequestID(after[k].req) != RequestID(req)
    requires GroupOf(req.groupID) > 0 && Owner(writes, id) == GroupOf(req.groupID)
    requires LastResult(writes, id).Some? || GroupIds(writes, id) != []
    ensures FetchRequest(c, ApplyAll(c, writes), FormatInt(id)) == Some(data)
  {
    var first := before + [Request(req, data, true)];
    RequestIsFound(c, writes, id);
    assert first[|first| - 1] == Request(req, data, true);
    LastRequestStays(first, after, RequestID(req));
  }

  lemma {:induction false} LastRequestStays(first: seq<Write>, after: seq<Write>, id: int)
    requires forall k | 0 <= k < |after| :: after[k].Request? ==> RequestID(after[k].req) != id
    ensures LastRequest(first + after, id) == LastRequest(first, id)
    decreases |after|
  {
    if after == [] {
      assert first + after == first;
    } else {
      var init := after[..|after| - 1];
      assert (first + after)[..|first + after| - 1] == first + init;
      LastRequestStays(first, init, id);
    }
  }
}
