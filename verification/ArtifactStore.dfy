/** The store itself (class ArtifactStore, src/artifact.cpp): each operation works step by step on the files and on the
    sorted index, and is proved to have exactly the effects of its specification in ArtifactModel, in that order. */
module ArtifactStore {
  import opened Prelude
  import opened AgentState
  import opened ArtifactIndex
  import opened ArtifactModel
  import ArtifactRuns

  class ArtifactStore {
    const lim: Limits
    var disk: Disk
    var index: seq<Metadata>
    var usedBytes: u64
    ghost var log: seq<Effect>

    function View(): Store
      reads this
    {
      Store(index, usedBytes)
    }

    /** A store directory as found, not yet opened; the bounds are checked first. */
    constructor (lim: Limits, disk: Disk)
      requires lim.maxArtifactBytes != 0 && lim.readChunkBytes != 0
      ensures this.lim == lim && this.disk == disk && View() == Store([], 0) && log == []
    {
      this.lim := lim;
      this.disk := disk;
      index, usedBytes := [], 0;
      log := [];
    }

    method Perform(e: Effect)
      modifies this`disk, this`log
      ensures disk == Do(old(disk), e) && log == old(log) + [e]
    {
      disk := Do(disk, e);
      log := log + [e];
    }

    /** `open`: staging files left by an interrupted publish go, then the index is read. */
    method Open()
      requires Named(disk)
      modifies this
      ensures disk == old(disk).(staging := map[])
      ensures index == IndexOf(disk) && usedBytes == Total(index) % U64_LIMIT
    {
      hide Find, IndexOf;
      var left := disk.staging.Keys;
      while left != {}
        invariant left == disk.staging.Keys
        invariant disk == old(disk).(staging := disk.staging)
      {
        var name :| name in left;
        Perform(RemoveStaging(name));
        left := left - {name};
      }
      assert disk.staging == map[];
      LoadIndex();
    }

    /** `loadIndex`: every readable metadata file with its payload, in whatever order the directory lists them. */
    method LoadIndex()
      requires Named(disk)
      modifies this`index, this`usedBytes
      ensures index == IndexOf(disk) && usedBytes == Total(index) % U64_LIMIT
    {
      hide IndexOf, Rebuilt, SortByDigest, DropRepeats;
      var loaded: seq<Metadata> := [];
      var total: u64 := 0;
      var files := disk.meta.Keys;
      while files != {}
        invariant files <= disk.meta.Keys
        invariant forall m :: m in loaded <==> m.digest !in files && Entry(disk, m.digest) == Some(m)
        invariant Distinct(loaded) && total == Total(loaded) % U64_LIMIT
      {
        var file :| file in files;
        files := files - {file};
        var m := disk.meta[file];
        if m.digest in disk.payload {
          AddOne(loaded, m);
          total := (total + m.sizeBytes) % U64_LIMIT;
          loaded := loaded + [m];
        }
      }
      SortSound(loaded);
      NothingRepeats(SortByDigest(loaded));
      index := DropRepeats(SortByDigest(loaded));
      usedBytes := total;
      IndexIsUnique(index, disk);
    }

    /** Reads the payload back chunk by chunk; whatever the chunk size, the answer is that of `Check`. */
    method ReadBack(d: Digest) returns (o: Outcome)
      requires lim.readChunkBytes > 0
      ensures o == Check(lim, disk, View(), d)
    {
      hide Find;
      if d == NO_DIGEST { return Failed(InvalidArgument); }
      var found := Find(index, d);
      if found.None? { return Failed(NotFound); }
      if d !in disk.payload { return Failed(ArtifactUnavailable); }
      var file, size := disk.payload[d], found.value.sizeBytes;
      var offset, read, verified := 0, [], false;
      while offset < size
        invariant offset <= size && offset <= |file| && read == file[..offset]
        invariant verified <==> offset == size != 0 && lim.hash(file[..offset]) == d
        invariant offset == size != 0 ==> verified
      {
        var wanted := if size - offset < lim.readChunkBytes then size - offset else lim.readChunkBytes;
        if |file| - offset < wanted { return Failed(IntegrityFailure); }
        read := read + file[offset..offset + wanted];
        offset := offset + wanted;
        assert read == file[..offset];
        if offset == size {
          if lim.hash(read) != d { return Failed(DigestMismatch); }
          verified := true;
        }
      }
      if !verified { return Failed(DigestMismatch); }
      return Accepted;
    }

    method EraseEntry(d: Digest)
      modifies this`index, this`usedBytes
      ensures View() == Erase(old(View()), d)
    {
      var k := LowerBound(index, d);
      if k < |index| && index[k].digest == d {
        usedBytes := if usedBytes > index[k].sizeBytes then usedBytes - index[k].sizeBytes else 0;
        index := index[..k] + index[k + 1..];
        assert index == Replace(old(index), d, None);
      }
    }

    /** `quarantine`: the payload is set aside under another name and the entry goes; the metadata file stays. */
    method Quarantine(d: Digest)
      modifies this
      ensures disk == DoAll(old(disk), [RemoveCorrupt(d), SetAside(d)]) && log == old(log) + [RemoveCorrupt(d), SetAside(d)]
      ensures View() == Erase(old(View()), d)
    {
      hide Erase, Do;
      Perform(RemoveCorrupt(d));
      Perform(SetAside(d));
      ArtifactRuns.TwoEffects(lim, old(disk), RemoveCorrupt(d), SetAside(d));
      EraseEntry(d);
    }

    method Verify(d: Digest) returns (o: Outcome)
      requires lim.readChunkBytes > 0
      modifies this
      ensures var p := VerifyPlan(lim, old(disk), old(View()), d);
              && disk == DoAll(old(disk), p.effects) && log == old(log) + p.effects
              && View() == p.store && o == p.outcome
    {
      hide Erase, Check;
      o := ReadBack(d);
      if IsCorrupt(o) { Quarantine(d); }
    }

    /** `publish`, with the content staged under `name`: the budgets come first, an artifact already there is verified
        where it is, and a new one is renamed into place before its metadata is written. */
    method Publish(name: Id, declared: Metadata, d: Digest, size: u64) returns (o: Outcome)
      requires lim.readChunkBytes > 0
      modifies this
      ensures var p := PublishPlan(lim, old(disk), old(View()), name, declared, d, size);
              && disk == DoAll(old(disk), p.effects) && log == old(log) + p.effects
              && View() == p.store && o == p.outcome
    {
      hide Erase, Check, Find, Do, Replace;
      ghost var was := disk;
      ArtifactRuns.OneEffect(was, RemoveStaging(name));
      var k := LowerBound(index, d);
      var present := k < |index| && index[k].digest == d;
      assert present == Find(index, d).Some? by { FoundAt(index, d); }
      if !present {
        if |index| >= lim.maxArtifacts {
          Perform(RemoveStaging(name));
          return Failed(CountExhausted);
        }
        if size > lim.maxTotalBytes || usedBytes > lim.maxTotalBytes - size {
          Perform(RemoveStaging(name));
          return Failed(BytesExhausted);
        }
      }
      var stored := Stored(declared, d, size);
      if !Encodable(stored) {
        Perform(RemoveStaging(name));
        return Failed(LimitExceeded);
      }
      if present {
        Perform(RemoveStaging(name));
        assert VerifyPlan(lim, disk, View(), d) == VerifyPlan(lim, was, View(), d) && (d in disk.meta <==> d in was.meta) by {
          SamePayloads(was, RemoveStaging(name));
          ArtifactRuns.CheckReadsPayloads(lim, was, disk, View(), d);
        }
        ghost var v := VerifyPlan(lim, was, View(), d);
        DoConcat(was, [RemoveStaging(name)], v.effects);
        o := Verify(d);
        if o == Accepted && d !in disk.meta {
          ghost var k1 := disk;
          Perform(WriteMetadata(d, stored));
          ArtifactRuns.TwoEffects(lim, was, RemoveStaging(name), WriteMetadata(d, stored));
        }
        return o;
      }
      Perform(PublishPayload(name, d));
      Perform(WriteMetadata(d, stored));
      ArtifactRuns.TwoEffects(lim, was, PublishPayload(name, d), WriteMetadata(d, stored));
      index := index[..k] + [stored] + index[k..];
      assert index == Replace(old(index), d, Some(stored)) by { InsertedAt(old(index), stored); }
      usedBytes := usedBytes + size;
      return Accepted;
    }

    method IngestBytes(name: Id, content: Bytes, declared: Metadata) returns (o: Outcome)
      requires lim.readChunkBytes > 0
      modifies this
      ensures var p := IngestPlan(lim, old(disk), old(View()), name, content, declared);
              && disk == DoAll(old(disk), p.effects) && log == old(log) + p.effects
              && View() == p.store && o == p.outcome
    {
      hide PublishPlan, Do;
      if |content| > lim.maxArtifactBytes { return Failed(OversizePayload); }
      if |content| != declared.sizeBytes { return Failed(SizeMismatch); }
      var actual := lim.hash(content);
      if actual != declared.digest { return Failed(DigestMismatch); }
      var staged := WriteStaging(name, content);
      ArtifactRuns.OneEffect(disk, staged);
      Perform(staged);
      ghost var p := PublishPlan(lim, disk, View(), name, declared, actual, |content|);
      DoConcat(old(disk), [staged], p.effects);
      o := Publish(name, declared, actual, |content|);
    }

    method Unkept(live: seq<Digest>) returns (doomed: seq<Digest>)
      ensures doomed == Doomed(index, live)
    {
      doomed := [];
      var i := 0;
      while i < |index|
        invariant i <= |index| && Doomed(index, live) == doomed + Doomed(index[i..], live)
      {
        assert index[i..][1..] == index[i + 1..];
        if index[i].digest !in live { doomed := doomed + [index[i].digest]; }
        i := i + 1;
      }
    }

    /** `collectGarbage`: for each artifact not in `live` the payload goes first, then the metadata, then the entry. */
    method CollectGarbage(live: seq<Digest>) returns (removed: nat)
      modifies this
      ensures var p := PlanOf(lim, old(disk), old(View()), Collect(live));
              disk == DoAll(old(disk), p.effects) && log == old(log) + p.effects && View() == p.store
      ensures removed == |Doomed(old(index), live)|
    {
      hide Erase, Do, Doomed;
      var doomed := Unkept(live);
      removed := 0;
      while removed < |doomed|
        invariant removed <= |doomed|
        invariant EraseEach(View(), doomed[removed..]) == EraseEach(old(View()), doomed)
        invariant log == old(log) + Removals(doomed[..removed]) && disk == DoAll(old(disk), Removals(doomed[..removed]))
      {
        var d := doomed[removed];
        Perform(RemovePayload(d));
        Perform(RemoveMetadata(d));
        EraseEntry(d);
        assert doomed[removed..][1..] == doomed[removed + 1..] && doomed[removed..][0] == d;
        RemovalsOneMore(old(disk), doomed[..removed], d);
        assert doomed[..removed] + [d] == doomed[..removed + 1];
        removed := removed + 1;
      }
      assert doomed[..removed] == doomed;
    }
  }

  lemma AddOne(loaded: seq<Metadata>, m: Metadata)
    ensures Total(loaded + [m]) == Total(loaded) + m.sizeBytes
  {
    TotalConcat(loaded, [m]);
    assert Total([m]) == m.sizeBytes;
  }

  lemma FoundAt(index: seq<Metadata>, d: Digest)
    ensures Find(index, d).Some? <==> LowerBound(index, d) < |index| && index[LowerBound(index, d)].digest == d
  {
  }

  lemma InsertedAt(index: seq<Metadata>, m: Metadata)
    requires Find(index, m.digest) == None
    ensures var k := LowerBound(index, m.digest); Replace(index, m.digest, Some(m)) == index[..k] + [m] + index[k..]
  {
  }

  lemma SamePayloads(k: Disk, e: Effect)
    requires e.RemoveStaging? || e.WriteStaging?
    ensures Do(k, e).payload == k.payload && Do(k, e).meta == k.meta
  {
  }

  lemma {:induction false} RemovalsSnoc(ds: seq<Digest>, d: Digest)
    ensures Removals(ds + [d]) == Removals(ds) + [RemovePayload(d), RemoveMetadata(d)]
    decreases |ds|
  {
    if ds == [] {
      assert [d][1..] == [];
      assert ds + [d] == [d];
    } else {
      assert (ds + [d])[1..] == ds[1..] + [d];
      RemovalsSnoc(ds[1..], d);
    }
  }

  lemma RemovalsOneMore(k: Disk, ds: seq<Digest>, d: Digest)
    ensures Removals(ds + [d]) == Removals(ds) + [RemovePayload(d), RemoveMetadata(d)]
    ensures DoAll(k, Removals(ds + [d])) == Do(Do(DoAll(k, Removals(ds)), RemovePayload(d)), RemoveMetadata(d))
  {
    hide Do;
    var k1 := DoAll(k, Removals(ds));
    RemovalsSnoc(ds, d);
    DoConcat(k, Removals(ds), [RemovePayload(d), RemoveMetadata(d)]);
    DoConcat(k1, [RemovePayload(d)], [RemoveMetadata(d)]);
    assert [RemovePayload(d), RemoveMetadata(d)] == [RemovePayload(d)] + [RemoveMetadata(d)];
    ArtifactRuns.OneEffect(k1, RemovePayload(d));
    ArtifactRuns.OneEffect(Do(k1, RemovePayload(d)), RemoveMetadata(d));
  }
}
