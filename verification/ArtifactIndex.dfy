/** Vectors of artifact metadata sorted by digest, as the artifact store keeps them (src/artifact.cpp). */
module ArtifactIndex {
  import opened Prelude
  import opened AgentState

  datatype Metadata = Metadata(
    id: Id, revision: u64, schema: Id, schemaVersion: u32, digest: Digest, sizeBytes: u64,
    mediaType: string, producer: string, producedAt: i64, storedAt: i64)

  /** The order of digests: byte by byte, the first difference decides. */
  predicate Less(a: Bytes, b: Bytes)
    decreases |a|
  {
    b != [] && (a == [] || a[0] < b[0] || (a[0] == b[0] && Less(a[1..], b[1..])))
  }

  lemma {:induction false} LessIsTransitive(a: Bytes, b: Bytes, c: Bytes)
    requires Less(a, b) && Less(b, c)
    ensures Less(a, c)
    decreases |a|
  {
    if a != [] && a[0] == b[0] == c[0] {
      LessIsTransitive(a[1..], b[1..], c[1..]);
    }
  }

  lemma {:induction false} LessIsTotal(a: Bytes, b: Bytes)
    ensures !(Less(a, b) && Less(b, a)) && (a != b <==> Less(a, b) || Less(b, a))
    decreases |a|
  {
    if a != [] && b != [] {
      LessIsTotal(a[1..], b[1..]);
      assert a == [a[0]] + a[1..] && b == [b[0]] + b[1..];
    }
  }

  ghost predicate Sorted(index: seq<Metadata>) {
    forall i, j :: 0 <= i < j < |index| ==> Less(index[i].digest, index[j].digest)
  }

  function Total(index: seq<Metadata>): nat {
    if index == [] then 0 else index[0].sizeBytes + Total(index[1..])
  }

  /** Where a digest is or belongs: the first position whose digest is not smaller. */
  function LowerBound(index: seq<Metadata>, d: Digest): (k: nat)
    ensures k <= |index| && forall i :: 0 <= i < k ==> Less(index[i].digest, d)
    ensures k < |index| ==> !Less(index[k].digest, d)
  {
    if index == [] || !Less(index[0].digest, d) then 0
    else
      var k := LowerBound(index[1..], d);
      assert forall i :: 0 < i <= k ==> index[i] == index[1..][i - 1];
      k + 1
  }

  function Find(index: seq<Metadata>, d: Digest): Option<Metadata> {
    var k := LowerBound(index, d);
    if k < |index| && index[k].digest == d then Some(index[k]) else None
  }

  /** The index in which `d` has the given entry, or none. */
  function Replace(index: seq<Metadata>, d: Digest, entry: Option<Metadata>): seq<Metadata> {
    var k := LowerBound(index, d);
    var rest := if Find(index, d).Some? then index[k + 1..] else index[k..];
    index[..k] + Single(entry) + rest
  }

  function Single(entry: Option<Metadata>): seq<Metadata> {
    if entry.Some? then [entry.value] else []
  }

  function Size(entry: Option<Metadata>): nat {
    if entry.Some? then entry.value.sizeBytes else 0
  }

  function Count(entry: Option<Metadata>): nat {
    if entry.Some? then 1 else 0
  }

  /** Looking a digest up in a sorted index finds it exactly when it is there. */
  lemma FindIff(index: seq<Metadata>, d: Digest)
    requires Sorted(index)
    ensures forall m :: m in index && m.digest == d <==> Find(index, d) == Some(m)
    ensures forall i :: 0 <= i < |index| ==> (i < LowerBound(index, d) <==> Less(index[i].digest, d))
  {
    var k := LowerBound(index, d);
    forall i | k <= i < |index| ensures !Less(index[i].digest, d) && (index[i].digest == d ==> i == k) {
      LessIsTotal(index[k].digest, d);
      LessIsTotal(index[i].digest, d);
      if i > k {
        if index[k].digest != d { LessIsTransitive(d, index[k].digest, index[i].digest); }
      }
    }
    forall i | 0 <= i < k ensures index[i].digest != d {
      LessIsTotal(index[i].digest, d);
    }
  }

  lemma Absent(index: seq<Metadata>, d: Digest)
    requires forall m :: m in index ==> m.digest != d
    ensures Find(index, d) == None
  {
    assert forall i :: 0 <= i < |index| ==> index[i] in index && index[i].digest != d;
  }

  lemma {:induction false} TotalConcat(a: seq<Metadata>, b: seq<Metadata>)
    ensures Total(a + b) == Total(a) + Total(b)
    decreases |a|
  {
    if a == [] {
      assert a + b == b;
    } else {
      assert (a + b)[1..] == a[1..] + b;
      TotalConcat(a[1..], b);
    }
  }

  lemma ReplaceTotal(index: seq<Metadata>, d: Digest, entry: Option<Metadata>)
    ensures Total(Replace(index, d, entry)) + Size(Find(index, d)) == Total(index) + Size(entry)
    ensures |Replace(index, d, entry)| + Count(Find(index, d)) == |index| + Count(entry)
  {
    hide LowerBound, Less;
    var k := LowerBound(index, d);
    var middle := Single(entry);
    var rest := if Find(index, d).Some? then index[k + 1..] else index[k..];
    assert index == index[..k] + index[k..];
    TotalConcat(index[..k], index[k..]);
    TotalConcat(index[..k] + middle, rest);
    TotalConcat(index[..k], middle);
    assert Find(index, d).Some? ==> index[k..][1..] == rest;
  }

  lemma AfterTheEntry(index: seq<Metadata>, d: Digest)
    requires Sorted(index)
    ensures forall i :: LowerBound(index, d) + Count(Find(index, d)) <= i < |index| ==> Less(d, index[i].digest)
  {
    hide LowerBound, Less;
    FindIff(index, d);
    var k := LowerBound(index, d);
    forall i | k + Count(Find(index, d)) <= i < |index| ensures Less(d, index[i].digest) {
      LessIsTotal(d, index[i].digest);
      assert index[i] in index;
      if i > k { LessIsTotal(index[k].digest, index[i].digest); }
    }
  }

  lemma ReplaceShape(index: seq<Metadata>, d: Digest, entry: Option<Metadata>)
    ensures var k := LowerBound(index, d);
            Replace(index, d, entry) == index[..k] + Single(entry) + index[k + Count(Find(index, d))..]
  {
  }

  /** Replacing keeps the order and changes the entry of `d` alone. */
  lemma ReplaceKeepsOrder(index: seq<Metadata>, d: Digest, entry: Option<Metadata>)
    requires Sorted(index) && (entry.Some? ==> entry.value.digest == d)
    ensures Sorted(Replace(index, d, entry))
  {
    var k, skip := LowerBound(index, d), LowerBound(index, d) + Count(Find(index, d));
    ReplaceShape(index, d, entry);
    AfterTheEntry(index, d);
    hide LowerBound, Less, Find, Replace;
    var r, middle := Replace(index, d, entry), Single(entry);
    forall i, j | 0 <= i < j < |r| ensures Less(r[i].digest, r[j].digest) {
      if i < k && j >= k + |middle| {
        assert r[i] == index[i] && r[j] == index[j - k - |middle| + skip];
      } else if i >= k + |middle| {
        assert r[i] == index[i - k - |middle| + skip] && r[j] == index[j - k - |middle| + skip];
      }
    }
  }

  lemma SplitAt(index: seq<Metadata>, d: Digest)
    requires Sorted(index)
    ensures var k, skip := LowerBound(index, d), LowerBound(index, d) + Count(Find(index, d));
            && (forall m :: m in index[..k] ==> m.digest != d) && (forall m :: m in index[skip..] ==> m.digest != d)
            && index[k..skip] == Single(Find(index, d))
            && (Find(index, d).Some? ==> Find(index, d).value.digest == d)
  {
    var k, skip := LowerBound(index, d), LowerBound(index, d) + Count(Find(index, d));
    AfterTheEntry(index, d);
    LessIsTotal(d, d);
    assert forall i :: 0 <= i < k ==> index[i].digest != d;
    assert forall i :: skip <= i < |index| ==> index[i].digest != d;
    ApartFrom(index[..k], d);
    ApartFrom(index[skip..], d);
  }

  lemma ReplaceChangesOne(index: seq<Metadata>, d: Digest, entry: Option<Metadata>)
    requires Sorted(index) && (entry.Some? ==> entry.value.digest == d)
    ensures forall m :: m in Replace(index, d, entry) <==> (if m.digest == d then entry == Some(m) else m in index)
  {
    SplitAt(index, d);
    ReplaceShape(index, d, entry);
    hide LowerBound, Less, Replace, Sorted;
    var k, skip := LowerBound(index, d), LowerBound(index, d) + Count(Find(index, d));
    var front, back, found := index[..k], index[skip..], Find(index, d);
    assert index == front + Single(found) + back;
    hide Find;
    forall m {
      OneSwapped(front, found, entry, back, d, m);
    }
  }

  lemma OneSwapped(front: seq<Metadata>, found: Option<Metadata>, entry: Option<Metadata>, back: seq<Metadata>, d: Digest, m: Metadata)
    requires forall x :: x in front || x in back ==> x.digest != d
    requires (found.Some? ==> found.value.digest == d) && (entry.Some? ==> entry.value.digest == d)
    ensures m in front + Single(entry) + back <==> (if m.digest == d then entry == Some(m) else m in front + Single(found) + back)
  {
    InThree(front, Single(found), back, m);
    InThree(front, Single(entry), back, m);
  }

  lemma InThree(a: seq<Metadata>, b: seq<Metadata>, c: seq<Metadata>, m: Metadata)
    ensures m in a + b + c <==> m in a || m in b || m in c
  {
  }

  lemma ApartFrom(part: seq<Metadata>, d: Digest)
    requires forall i :: 0 <= i < |part| ==> part[i].digest != d
    ensures forall m :: m in part ==> m.digest != d
  {
  }

  lemma ReplaceSound(index: seq<Metadata>, d: Digest, entry: Option<Metadata>)
    requires Sorted(index) && (entry.Some? ==> entry.value.digest == d)
    ensures Sorted(Replace(index, d, entry))
    ensures forall m :: m in Replace(index, d, entry) <==> (if m.digest == d then entry == Some(m) else m in index)
  {
    ReplaceKeepsOrder(index, d, entry);
    ReplaceChangesOne(index, d, entry);
  }

  lemma FirstIsIn(a: seq<Metadata>)
    ensures a != [] ==> a[0] in a
  {
  }

  lemma NotInTail(a: seq<Metadata>, m: Metadata)
    requires Sorted(a) && a != []
    ensures m in a[1..] <==> m in a && m != a[0]
  {
    hide Less;
    if m in a[1..] {
      var i :| 1 <= i < |a| && a[i] == m;
      LessIsTotal(a[0].digest, a[i].digest);
    }
    assert a == [a[0]] + a[1..];
  }

  /** A strictly sorted index is determined by what it contains. */
  lemma {:induction false} SortedIsUnique(a: seq<Metadata>, b: seq<Metadata>)
    requires Sorted(a) && Sorted(b)
    requires forall m :: m in a <==> m in b
    ensures a == b
    decreases |a|
  {
    hide Less;
    if a == [] {
      FirstIsIn(b);
    } else {
      FirstIsIn(a);
      FirstIsIn(b);
      if a[0] != b[0] {
        var i :| 0 <= i < |b| && b[i] == a[0];
        var j :| 0 <= j < |a| && a[j] == b[0];
        LessIsTotal(a[0].digest, b[0].digest);
        assert false;
      }
      forall m ensures m in a[1..] <==> m in b[1..] {
        NotInTail(a, m);
        NotInTail(b, m);
      }
      SortedIsUnique(a[1..], b[1..]);
    }
  }

  // ---- Sorting a loaded list ----

  function SortByDigest(loaded: seq<Metadata>): seq<Metadata> {
    if loaded == [] then []
    else
      var rest, m := SortByDigest(loaded[..|loaded| - 1]), loaded[|loaded| - 1];
      var k := LowerBound(rest, m.digest);
      rest[..k] + [m] + rest[k..]
  }

  /** `std::unique`: of neighbours with one digest the first stays. */
  function DropRepeats(sorted: seq<Metadata>): seq<Metadata> {
    if |sorted| < 2 then sorted
    else
      var rest := DropRepeats(sorted[..|sorted| - 1]);
      if rest != [] && rest[|rest| - 1].digest == sorted[|sorted| - 1].digest then rest else rest + [sorted[|sorted| - 1]]
  }

  ghost predicate Distinct(loaded: seq<Metadata>) {
    forall i, j :: 0 <= i < j < |loaded| ==> loaded[i].digest != loaded[j].digest
  }

  lemma {:induction false} SortSound(loaded: seq<Metadata>)
    requires Distinct(loaded)
    ensures Sorted(SortByDigest(loaded)) && forall m :: m in SortByDigest(loaded) <==> m in loaded
    ensures Total(SortByDigest(loaded)) == Total(loaded) && |SortByDigest(loaded)| == |loaded|
    decreases |loaded|
  {
    hide LowerBound, Less;
    if loaded != [] {
      var front, m := loaded[..|loaded| - 1], loaded[|loaded| - 1];
      var rest := SortByDigest(front);
      SortSound(front);
      assert loaded == front + [m];
      TotalConcat(front, [m]);
      ApartFrom(front, m.digest);
      Absent(rest, m.digest);
      ReplaceSound(rest, m.digest, Some(m));
      ReplaceTotal(rest, m.digest, Some(m));
      assert SortByDigest(loaded) == Replace(rest, m.digest, Some(m));
      hide Sorted, SortByDigest, Replace, Find;
      assert Total([m]) == m.sizeBytes;
      forall x ensures x in SortByDigest(loaded) <==> x in loaded {
        InThree(front, [m], [], x);
        assert front + [m] + [] == loaded;
      }
    }
  }

  lemma {:induction false} NothingRepeats(sorted: seq<Metadata>)
    requires Sorted(sorted)
    ensures DropRepeats(sorted) == sorted
    decreases |sorted|
  {
    hide Less;
    if |sorted| >= 2 {
      var front := sorted[..|sorted| - 1];
      NothingRepeats(front);
      LessIsTotal(front[|front| - 1].digest, sorted[|sorted| - 1].digest);
      assert sorted == front + [sorted[|sorted| - 1]];
    }
  }
}
