/** Every store has its reverse scan and its numeric listing, so what is proved of them is about every store. */
module ListingOrders {
  import opened Common
  import opened Decimal
  import opened Store
  import opened Listing
  import opened ListingProofs

  /** The key that a reverse iterator yields first. */
  lemma {:induction false} GreatestKey(keys: set<string>) returns (k: string)
    requires keys != {}
    ensures k in keys && forall other | other in keys && other != k :: Less(other, k)
    decreases |keys|
  {
    k :| k in keys;
    var rest := keys - {k};
    if rest != {} {
      var g := GreatestKey(rest);
      LessTotal(g, k);
      if Less(k, g) {
        k := g;
      } else {
        forall other | other in rest && other != g
          ensures Less(other, k)
        {
          LessTransitive(other, g, k);
        }
      }
    }
  }

  lemma {:induction false} ScanExists(db: Db) returns (items: seq<Item>)
    ensures IsReverseScan(db, items)
    decreases |db|
  {
    if db == map[] {
      items := [];
    } else {
      var k := GreatestKey(db.Keys);
      var smaller := db - {k};
      assert db.Keys == smaller.Keys + {k};
      var rest := ScanExists(smaller);
      items := [(k, db[k])] + rest;
      FirstIsGreatest(db, k, rest);
    }
  }

  /** A scan of all the other entries, behind the greatest key's. */
  lemma FirstIsGreatest(db: Db, k: string, rest: seq<Item>)
    requires k in db && (forall other | other in db && other != k :: Less(other, k))
    requires IsReverseScan(db - {k}, rest)
    ensures IsReverseScan(db, [(k, db[k])] + rest)
  {
    var items := [(k, db[k])] + rest;
    forall j | 0 <= j < |items|
      ensures items[j].0 in db && items[j].1 == db[items[j].0]
      ensures j > 0 ==> items[j] == rest[j - 1] && Less(items[j].0, k)
    {
      if j > 0 { EntryOfRest(db, k, rest, j - 1); }
    }
    forall i, j | 0 <= i < j < |items|
      ensures Less(items[j].0, items[i].0)
    {
      if i > 0 { assert Less(rest[j - 1].0, rest[i - 1].0); }
    }
    forall key | key in db
      ensures (key, db[key]) in items
    {
      KeyIsThere(db, k, rest, key);
    }
  }

  lemma EntryOfRest(db: Db, k: string, rest: seq<Item>, j: nat)
    requires IsReverseScan(db - {k}, rest) && j < |rest|
    ensures rest[j].0 in db && rest[j].0 != k && rest[j].1 == db[rest[j].0]
  {
    assert rest[j].0 in db - {k};
  }

  lemma KeyIsThere(db: Db, k: string, rest: seq<Item>, key: string)
    requires k in db && IsReverseScan(db - {k}, rest) && key in db
    ensures (key, db[key]) in [(k, db[k])] + rest
  {
    if key != k { assert (key, (db - {k})[key]) in rest; }
  }

  // ---------------------------------------------------------- newest first

  ghost predicate DistinctIds(records: set<Record>) {
    forall a, b | a in records && b in records && a.0 == b.0 :: a == b
  }

  lemma {:induction false} NewestRecord(records: set<Record>) returns (r: Record)
    requires records != {} && DistinctIds(records)
    ensures r in records && forall other | other in records && other != r :: other.0 < r.0
    decreases |records|
  {
    r :| r in records;
    var rest := records - {r};
    if rest != {} {
      var newest := NewestRecord(rest);
      if newest.0 > r.0 {
        r := newest;
      }
    }
  }

  lemma {:induction false} Sorted(records: set<Record>) returns (s: seq<Record>)
    requires DistinctIds(records)
    ensures Descending(s) && forall r :: r in s <==> r in records
    decreases |records|
  {
    if records == {} {
      s := [];
    } else {
      var newest := NewestRecord(records);
      var rest := Sorted(records - {newest});
      s := [newest] + rest;
      forall i, j | 0 <= i < j < |s|
        ensures s[i].0 > s[j].0
      {
        assert s[j] == rest[j - 1] && rest[j - 1] in rest;
        if i > 0 { assert s[i] == rest[i - 1]; }
      }
    }
  }

  /** The results of a store, as records. */
  ghost function Records(db: Db): set<Record> {
    set key | key in db && IdOf(key).Some? :: (IdOf(key).value, db[key])
  }

  lemma RecordOfKey(db: Db, key: string, id: int)
    requires WellFormed(db) && key in db && IdOf(key) == Some(id)
    ensures key == ResultKey(FormatInt(id)) && id in ResultIds(db)
  {
    assert Generated(key);
    var other :| GeneratedKey(key, other);
    IdOfGenerated(key, other);
  }

  lemma RecordsAreResults(db: Db, r: Record)
    requires WellFormed(db)
    ensures r in Records(db) <==> r.0 in ResultIds(db) && db[ResultKey(FormatInt(r.0))] == r.1
  {
    if r in Records(db) {
      var key :| key in db && IdOf(key).Some? && r == (IdOf(key).value, db[key]);
      RecordOfKey(db, key, r.0);
    }
    if r.0 in ResultIds(db) && db[ResultKey(FormatInt(r.0))] == r.1 {
      IdOfGenerated(ResultKey(FormatInt(r.0)), r.0);
    }
  }

  lemma ListingExists(db: Db) returns (all: seq<Record>)
    requires WellFormed(db)
    ensures IsNumericListing(db, all)
  {
    forall r
      ensures r in Records(db) <==> r.0 in ResultIds(db) && db[ResultKey(FormatInt(r.0))] == r.1
    {
      RecordsAreResults(db, r);
    }
    all := Sorted(Records(db));
  }

  lemma FirstOfScan(db: Db, items: seq<Item>, key: string)
    requires IsReverseScan(db, items) && items != [] && key in db && key != items[0].0
    ensures Less(key, items[0].0)
  {
    assert (key, db[key]) in items;
    var k :| 0 <= k < |items| && items[k] == (key, db[key]);
  }

  lemma SameFirst(db: Db, a: seq<Item>, b: seq<Item>)
    requires IsReverseScan(db, a) && IsReverseScan(db, b) && a != [] && b != []
    ensures a[0] == b[0]
  {
    if a[0].0 != b[0].0 {
      FirstOfScan(db, a, b[0].0);
      FirstOfScan(db, b, a[0].0);
      NotBothWays(a[0].0, b[0].0);
    }
  }

  lemma OnlyEmptyIsEmpty(db: Db, items: seq<Item>)
    requires IsReverseScan(db, items)
    ensures items == [] <==> db == map[]
  {
    assert items != [] ==> items[0].0 in db;
    if db != map[] {
      var key :| key in db.Keys;
      assert (key, db[key]) in items;
    }
  }

  /** There is only one reverse scan, so the iterator has no choice. */
  lemma {:induction false} ScanIsUnique(db: Db, a: seq<Item>, b: seq<Item>)
    requires IsReverseScan(db, a) && IsReverseScan(db, b)
    ensures a == b
    decreases |a|
  {
    OnlyEmptyIsEmpty(db, a);
    OnlyEmptyIsEmpty(db, b);
    if a != [] {
      SameFirst(db, a, b);
      TailIsScan(db, a);
      TailIsScan(db, b);
      ScanIsUnique(db - {a[0].0}, a[1..], b[1..]);
      assert a == [a[0]] + a[1..] && b == [b[0]] + b[1..];
    }
  }

  lemma TailIsScan(db: Db, items: seq<Item>)
    requires IsReverseScan(db, items) && items != []
    ensures IsReverseScan(db - {items[0].0}, items[1..])
  {
    var rest := items[1..];
    forall k | 0 <= k < |rest|
      ensures rest[k] == items[k + 1] && rest[k].0 != items[0].0
    {
      NotBothWays(items[k + 1].0, items[0].0);
    }
    forall key | key in db && key != items[0].0
      ensures (key, db[key]) in rest
    {
      var k :| 0 <= k < |items| && items[k] == (key, db[key]);
      assert rest[k - 1] == items[k];
    }
  }

  /**
   * For every store with generated keys, the one scan the iterator makes, and every upper bound or none:
   * all requests are answered as expected if and only if the stored ids fit the bound.
   */
  lemma EveryStoreIsListed(c: Codec, db: Db, toDate: Option<int>) returns (items: seq<Item>, all: seq<Record>)
    requires WellFormed(db)
    ensures IsReverseScan(db, items) && (forall other | IsReverseScan(db, other) :: other == items)
    ensures IsNumericListing(db, all)
    ensures AnswersAsExpected(c, items, all, toDate) <==> ListingFits(ResultIds(db), Bound(toDate))
  {
    items := ScanExists(db);
    all := ListingExists(db);
    forall other | IsReverseScan(db, other)
      ensures other == items
    {
      ScanIsUnique(db, other, items);
    }
    ExpectedIffFits(c, db, items, all, toDate);
  }
}
