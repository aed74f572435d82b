/** The parts of Go's `strings` package the manager relies on. */
module Text {
  import opened Common

  /** `sep` occurs in `s` at position `i`. */
  predicate OccursAt(s: string, i: int, sep: string) {
    0 <= i && i + |sep| <= |s| && s[i..i + |sep|] == sep
  }

  predicate Contains(s: string, sep: string) {
    exists i | 0 <= i <= |s| :: OccursAt(s, i, sep)
  }

  /** First occurrence of `sep` in `s` at or after `from`. */
  function IndexFrom(s: string, sep: string, from: nat): (r: Option<nat>)
    requires from <= |s|
    ensures r.None? ==> forall i | from <= i :: !OccursAt(s, i, sep)
    ensures r.Some? ==> from <= r.value && OccursAt(s, r.value, sep)
    ensures r.Some? ==> forall i | from <= i < r.value :: !OccursAt(s, i, sep)
    decreases |s| - from
  {
    if OccursAt(s, from, sep) then Some(from)
    else if from == |s| then None
    else IndexFrom(s, sep, from + 1)
  }

  /** `strings.Index`. */
  function Index(s: string, sep: string): (r: Option<nat>)
    ensures r.Some? <==> Contains(s, sep)
    ensures r.Some? ==> OccursAt(s, r.value, sep)
    ensures r.Some? ==> forall i | 0 <= i < r.value :: !OccursAt(s, i, sep)
  {
    IndexFrom(s, sep, 0)
  }

  /** `strings.Split` (and `SplitSeq`) for a non-empty separator. */
  function Split(s: string, sep: string): (parts: seq<string>)
    requires sep != ""
    ensures |parts| >= 1
    decreases |s|
  {
    match Index(s, sep)
    case None => [s]
    case Some(i) => [s[..i]] + Split(s[i + |sep|..], sep)
  }

  /** `strings.Join`. */
  function Join(parts: seq<string>, sep: string): string {
    if |parts| == 0 then ""
    else if |parts| == 1 then parts[0]
    else parts[0] + sep + Join(parts[1..], sep)
  }

  /** `strings.CutPrefix`: the remainder and whether the prefix was there. */
  function CutPrefix(s: string, prefix: string): (r: Option<string>)
    ensures r.Some? <==> prefix <= s
    ensures r.Some? ==> s == prefix + r.value
  {
    if prefix <= s then Some(s[|prefix|..]) else None
  }

  predicate HasSuffix(s: string, suffix: string) {
    |suffix| <= |s| && s[|s| - |suffix|..] == suffix
  }

  /** `unicode.IsSpace`. */
  predicate IsSpace(c: char) {
    var n := c as int;
    || 9 <= n <= 13 || n == 0x20 || n == 0x85 || n == 0xa0
    || n == 0x1680 || 0x2000 <= n <= 0x200a
    || n == 0x2028 || n == 0x2029 || n == 0x202f || n == 0x205f || n == 0x3000
  }

  function TrimLeft(s: string): (r: string)
    ensures |r| <= |s|
    ensures r == "" || !IsSpace(r[0])
  {
    if s == "" then ""
    else if IsSpace(s[0]) then TrimLeft(s[1..])
    else s
  }

  function TrimRight(s: string): (r: string)
    ensures r <= s
    ensures r == "" || !IsSpace(r[|r| - 1])
  {
    if s == "" then ""
    else if IsSpace(s[|s| - 1]) then TrimRight(s[..|s| - 1])
    else s
  }

  /** `strings.TrimSpace`. */
  function Trim(s: string): (r: string)
    ensures Trimmed(r)
  {
    TrimRight(TrimLeft(s))
  }

  /** Neither end of `s` is white space. */
  predicate Trimmed(s: string) {
    s == "" || (!IsSpace(s[0]) && !IsSpace(s[|s| - 1]))
  }

  lemma TrimOfTrimmed(s: string)
    requires Trimmed(s)
    ensures Trim(s) == s
  {}

  predicate Blank(s: string) {
    forall c | c in s :: IsSpace(c)
  }

  lemma {:induction false} TrimLeftPadded(l: string, s: string)
    requires Blank(l) && (s == "" || !IsSpace(s[0]))
    ensures TrimLeft(l + s) == s
    decreases |l|
  {
    if l == "" {
      assert l + s == s;
    } else {
      assert (l + s)[1..] == l[1..] + s;
      TrimLeftPadded(l[1..], s);
    }
  }

  lemma {:induction false} TrimRightPadded(s: string, r: string)
    requires Blank(r) && (s == "" || !IsSpace(s[|s| - 1]))
    ensures TrimRight(s + r) == s
    decreases |r|
  {
    if r == "" {
      assert s + r == s;
    } else {
      assert (s + r)[..|s + r| - 1] == s + r[..|r| - 1];
      TrimRightPadded(s, r[..|r| - 1]);
    }
  }

  lemma {:induction false} TrimLeftBlank(l: string)
    requires Blank(l)
    ensures TrimLeft(l) == ""
  {
    if l != "" { TrimLeftBlank(l[1..]); }
  }

  /** Trimming takes off whatever white space is around a text, and nothing else. */
  lemma TrimPadded(l: string, s: string, r: string)
    requires Blank(l) && Blank(r) && Trimmed(s)
    ensures Trim(l + s + r) == s
  {
    assert l + s + r == l + (s + r);
    if s == "" {
      assert l + s + r == l + r;
      TrimLeftBlank(l + r);
    } else {
      TrimLeftPadded(l, s + r);
      TrimRightPadded(s, r);
    }
  }

  lemma {:induction false} TrimLeftSplits(s: string) returns (l: string)
    ensures s == l + TrimLeft(s) && Blank(l)
    decreases |s|
  {
    if s != "" && IsSpace(s[0]) {
      var rest := TrimLeftSplits(s[1..]);
      l := [s[0]] + rest;
      assert s == [s[0]] + s[1..];
    } else {
      l := "";
    }
  }

  lemma {:induction false} TrimRightSplits(s: string) returns (r: string)
    ensures s == TrimRight(s) + r && Blank(r)
    decreases |s|
  {
    if s != "" && IsSpace(s[|s| - 1]) {
      var rest := TrimRightSplits(s[..|s| - 1]);
      r := rest + [s[|s| - 1]];
      assert s == s[..|s| - 1] + [s[|s| - 1]];
    } else {
      r := "";
    }
  }

  /** Every text is its trimmed text between white space. */
  lemma TrimSplits(s: string) returns (l: string, r: string)
    ensures s == l + Trim(s) + r && Blank(l) && Blank(r)
  {
    l := TrimLeftSplits(s);
    r := TrimRightSplits(TrimLeft(s));
  }

  // ---------------------------------------------------------------- splitting

  lemma JoinCons(head: string, tail: seq<string>, sep: string)
    requires |tail| >= 1
    ensures Join([head] + tail, sep) == head + sep + Join(tail, sep)
  {
    assert ([head] + tail)[1..] == tail;
  }

  lemma CutAt(s: string, i: nat, sep: string)
    requires OccursAt(s, i, sep)
    ensures s == s[..i] + sep + s[i + |sep|..]
  {
    assert s == s[..i] + s[i..i + |sep|] + s[i + |sep|..];
  }

  lemma LetterAt(s: string, i: int, sep: string, k: nat)
    requires OccursAt(s, i, sep) && k < |sep|
    ensures s[i + k] == sep[k]
  {
    assert s[i..i + |sep|][k] == s[i + k];
  }

  /** A letter that differs rules an occurrence out. */
  lemma NotAt(s: string, i: int, sep: string, k: nat)
    requires k < |sep| && 0 <= i && (i + k < |s| ==> s[i + k] != sep[k])
    ensures !OccursAt(s, i, sep)
  {
    if OccursAt(s, i, sep) { LetterAt(s, i, sep, k); }
  }

  /** Splitting loses nothing: joining the parts again gives the text back. */
  lemma {:induction false} JoinSplit(s: string, sep: string)
    requires sep != ""
    ensures Join(Split(s, sep), sep) == s
    decreases |s|
  {
    var at := Index(s, sep);
    if at.Some? {
      var rest := s[at.value + |sep|..];
      JoinSplit(rest, sep);
      JoinCons(s[..at.value], Split(rest, sep), sep);
      CutAt(s, at.value, sep);
    }
  }

  /** `part` cannot swallow or straddle a separator written right behind it. */
  ghost predicate Clean(part: string, sep: string) {
    forall i | 0 <= i < |part| :: !OccursAt(part + sep, i, sep)
  }

  /** A one-character separator is in none of the parts. */
  lemma {:induction false} PartsHaveNoSeparator(s: string, c: char)
    ensures forall p | p in Split(s, [c]) :: c !in p
    decreases |s|
  {
    match Index(s, [c])
    case None =>
      if c in s {
        var i :| 0 <= i < |s| && s[i] == c;
        assert OccursAt(s, i, [c]);
      }
    case Some(i) =>
      if c in s[..i] {
        var k :| 0 <= k < i && s[k] == c;
        assert OccursAt(s, k, [c]);
      }
      PartsHaveNoSeparator(s[i + 1..], c);
  }

  lemma CharIsClean(part: string, c: char)
    requires c !in part
    ensures Clean(part, [c])
  {
    forall i | 0 <= i < |part|
      ensures !OccursAt(part + [c], i, [c])
    {
      assert (part + [c])[i..i + 1] == [part[i]];
    }
  }

  lemma CleanHasNoSeparator(part: string, sep: string)
    requires sep != "" && Clean(part, sep)
    ensures !Contains(part, sep)
  {
    forall i | 0 <= i <= |part|
      ensures !OccursAt(part, i, sep)
    {
      if OccursAt(part, i, sep) {
        assert (part + sep)[i..i + |sep|] == part[i..i + |sep|];
        assert OccursAt(part + sep, i, sep);
      }
    }
  }

  lemma FirstSeparator(part: string, sep: string, rest: string)
    requires sep != "" && Clean(part, sep)
    ensures Index(part + sep + rest, sep) == Some(|part|)
  {
    var s := part + sep + rest;
    assert s[|part|..|part| + |sep|] == sep;
    assert OccursAt(s, |part|, sep);
    forall i | 0 <= i < |part|
      ensures !OccursAt(s, i, sep)
    {
      assert s[i..i + |sep|] == (part + sep)[i..i + |sep|];
      assert !OccursAt(part + sep, i, sep);
    }
  }

  lemma SplitWhole(part: string, sep: string)
    requires sep != "" && Clean(part, sep)
    ensures Split(part, sep) == [part]
  {
    CleanHasNoSeparator(part, sep);
  }

  lemma SplitFirst(part: string, sep: string, rest: string)
    requires sep != "" && Clean(part, sep)
    ensures Split(part + sep + rest, sep) == [part] + Split(rest, sep)
  {
    var s := part + sep + rest;
    FirstSeparator(part, sep, rest);
    assert s[..|part|] == part;
    assert s[|part| + |sep|..] == rest;
  }

  /** Splitting undoes joining when every part is clean. */
  lemma {:induction false} SplitJoin(parts: seq<string>, sep: string)
    requires sep != "" && |parts| >= 1
    requires forall p | p in parts :: Clean(p, sep)
    ensures Split(Join(parts, sep), sep) == parts
    decreases |parts|
  {
    if |parts| == 1 {
      SplitWhole(parts[0], sep);
      assert parts == [parts[0]];
    } else {
      SplitFirst(parts[0], sep, Join(parts[1..], sep));
      SplitJoin(parts[1..], sep);
      assert parts == [parts[0]] + parts[1..];
    }
  }
}
