/** Transfer assembly: with an honest sender, whatever is duplicated, reordered, lost, re-offered or cut by a crash,
    the bytes the target counts as received are the artifact's own, and a completed transfer always verifies. */
module AgentTransfers {
  import opened Prelude
  import opened Lifecycle
  import opened AgentState
  import opened Messages
  import opened AgentModel
  import opened KeyPaths
  import opened AgentInvariants
  import opened AgentHandlers
  import opened AgentRecovery
  import opened AgentRuns

  /** The sender's side: the content behind each digest, and the digest each stream carries. */
  datatype Source = Source(content: Digest -> Bytes, carries: u64 -> Digest)

  predicate Slice(content: Bytes, offset: nat, data: Bytes) {
    offset + |data| <= |content| && content[offset..offset + |data|] == data
  }

  /** Every offer describes the content behind its digest, and every chunk is a true slice of its stream's content. */
  predicate Honest(cfg: Config, src: Source, m: Message) {
    match m
    case Prepare(p) =>
      && p.digest == src.carries(p.stream)
      && p.sizeBytes == |src.content(p.digest)|
      && cfg.hash(src.content(p.digest)) == p.digest
    case Chunk(s, o, data) => Slice(src.content(src.carries(s)), o, data)
    case _ => true
  }

  predicate Prefixed(content: Bytes, file: Bytes, n: nat) {
    n <= |file| && n <= |content| && file[..n] == content[..n]
  }

  /** The record is for the stream's artifact, and what it counts as received is that artifact's prefix. */
  predicate Assembled(cfg: Config, src: Source, f: Files, r: TransferRecord) {
    var content := src.content(r.digest);
    && r.digest == src.carries(r.stream) && r.totalBytes == |content| > 0 && cfg.hash(content) == r.digest
    && (r.deployment in f.staging ==> Prefixed(content, f.staging[r.deployment], r.bytesReceived))
  }

  predicate AllAssembled(cfg: Config, src: Source, f: Files, transfers: map<Id, TransferRecord>) {
    forall d :: d in transfers ==> transfers[d].deployment == d && Assembled(cfg, src, f, transfers[d])
  }

  // ---- Effects ----

  predicate SafeBytes(cfg: Config, src: Source, w: World, e: Effect) {
    match e
    case Commit(AgentTransferUpsert(t)) => Assembled(cfg, src, w.files, t)
    case TruncateStaging(d) => d in w.dur.transfers ==> w.dur.transfers[d].bytesReceived == 0
    case WriteStaging(d, o, _) =>
      d in w.dur.transfers && d in w.files.staging ==> w.dur.transfers[d].bytesReceived <= o <= |w.files.staging[d]|
    case ResizeStaging(d, n) => d in w.dur.transfers ==> w.dur.transfers[d].bytesReceived <= n
    case _ => true
  }

  predicate AllBytes(cfg: Config, src: Source, w: World, es: seq<Effect>)
    decreases |es|
  {
    es == [] || (SafeBytes(cfg, src, w, es[0]) && AllBytes(cfg, src, Do(w, es[0]), es[1..]))
  }

  lemma EffectKeepsBytes(cfg: Config, src: Source, w: World, e: Effect)
    requires AllAssembled(cfg, src, w.files, w.dur.transfers) && SafeBytes(cfg, src, w, e)
    ensures AllAssembled(cfg, src, Do(w, e).files, Do(w, e).dur.transfers)
  {
    var w' := Do(w, e);
    forall d | d in w'.dur.transfers
      ensures w'.dur.transfers[d].deployment == d && Assembled(cfg, src, w'.files, w'.dur.transfers[d])
    {
      var r := w'.dur.transfers[d];
      if e.WriteStaging? && e.deployment == d && d in w.files.staging {
        var file, file' := w.files.staging[d], w'.files.staging[d];
        assert file'[..e.offset] == file[..e.offset];
        assert file'[..r.bytesReceived] == file'[..e.offset][..r.bytesReceived];
      } else if e.ResizeStaging? && e.deployment == d && d in w.files.staging {
        assert w'.files.staging[d][..r.bytesReceived] == w.files.staging[d][..r.bytesReceived];
      }
    }
  }

  lemma {:induction false} PrefixKeepsBytes(cfg: Config, src: Source, w: World, es: seq<Effect>, n: nat)
    requires AllAssembled(cfg, src, w.files, w.dur.transfers) && AllBytes(cfg, src, w, es) && n <= |es|
    ensures AllAssembled(cfg, src, Run(w, es[..n]).files, Run(w, es[..n]).dur.transfers)
    decreases |es|
  {
    if n > 0 {
      EffectKeepsBytes(cfg, src, w, es[0]);
      assert es[..n][0] == es[0] && es[..n][1..] == es[1..][..n - 1];
      PrefixKeepsBytes(cfg, src, Do(w, es[0]), es[1..], n - 1);
    }
  }

  lemma {:induction false} BytesConcat(cfg: Config, src: Source, w: World, a: seq<Effect>, b: seq<Effect>)
    requires AllBytes(cfg, src, w, a) && AllBytes(cfg, src, Run(w, a), b)
    ensures AllBytes(cfg, src, w, a + b)
    decreases |a|
  {
    if a == [] {
      assert a + b == b;
    } else {
      assert (a + b)[0] == a[0] && (a + b)[1..] == a[1..] + b;
      BytesConcat(cfg, src, Do(w, a[0]), a[1..], b);
    }
  }

  // ---- Effects that leave staging files and transfer records alone ----

  predicate Aside(e: Effect) {
    && !e.TruncateStaging? && !e.WriteStaging? && !e.ResizeStaging? && !e.RemoveStaging? && !e.Remember?
    && (e.Commit? ==> LeavesTransfers(e.record))
  }

  lemma AsideStep(cfg: Config, src: Source, w: World, e: Effect)
    requires Aside(e)
    ensures SafeBytes(cfg, src, w, e) && Do(w, e).files.staging == w.files.staging
    ensures Do(w, e).mem.transfers == w.mem.transfers && Do(w, e).dur.transfers == w.dur.transfers
  {
  }

  lemma {:induction false} AsideRun(cfg: Config, src: Source, w: World, es: seq<Effect>)
    requires forall e :: e in es ==> Aside(e)
    ensures AllBytes(cfg, src, w, es)
    ensures Run(w, es).files.staging == w.files.staging
    ensures Run(w, es).mem.transfers == w.mem.transfers && Run(w, es).dur.transfers == w.dur.transfers
    decreases |es|
  {
    hide Do, SafeBytes, Aside;
    if es != [] {
      assert Aside(es[0]);
      AsideStep(cfg, src, w, es[0]);
      AsideRun(cfg, src, Do(w, es[0]), es[1..]);
    }
  }

  // ---- Handlers ----

  predicate Assembling(cfg: Config, src: Source, w: World) {
    && Alive(cfg, w)
    && AllAssembled(cfg, src, w.files, w.dur.transfers)
    && AllAssembled(cfg, src, w.files, w.mem.transfers)
  }

  /** What one handler must establish. */
  predicate KeepsBytes(cfg: Config, src: Source, w: World, es: seq<Effect>) {
    AllBytes(cfg, src, w, es) && AllAssembled(cfg, src, Run(w, es).files, Run(w, es).mem.transfers)
  }

  lemma UpsertBytes(cfg: Config, src: Source, w: World, t: TransferRecord)
    requires AllAssembled(cfg, src, w.files, w.mem.transfers) && Assembled(cfg, src, w.files, t)
    ensures KeepsBytes(cfg, src, w, [Commit(AgentTransferUpsert(t))])
    ensures KeepsBytes(cfg, src, w, [Remember(t)])
  {
    OneEffect(cfg, w, Commit(AgentTransferUpsert(t)));
    OneEffect(cfg, w, Remember(t));
  }

  lemma DestroyBytes(cfg: Config, src: Source, w: World, d: Id)
    requires AllAssembled(cfg, src, w.files, w.mem.transfers) && w.mem.transfers.Keys == w.dur.transfers.Keys
    ensures KeepsBytes(cfg, src, w, Destroy(w, d)) && Run(w, Destroy(w, d)) == Destroyed(w, d)
  {
    DestroyRuns(cfg, w, d);
  }

  lemma PrepareBytes(cfg: Config, src: Source, w: World, m: PrepareMessage, now: i64)
    requires Assembling(cfg, src, w) && Decodable(Prepare(m)) && Honest(cfg, src, Prepare(m))
    ensures KeepsBytes(cfg, src, w, PrepareOutcome(cfg, w, m, now).effects)
  {
    hide Apply;
    var es := PrepareOutcome(cfg, w, m, now).effects;
    var (resumeFrom, stale) := ResumePoint(w, m);
    var t := NewTransfer(m, resumeFrom, now);
    var upsert := [Commit(AgentTransferUpsert(t))];
    if (forall e :: e in es ==> Aside(e)) {
      AsideRun(cfg, src, w, es);
    } else if stale {
      DestroyBytes(cfg, src, w, m.deployment);
      UpsertBytes(cfg, src, Destroyed(w, m.deployment), t);
      BytesConcat(cfg, src, w, Destroy(w, m.deployment), upsert);
      RunConcat(w, Destroy(w, m.deployment), upsert);
    } else {
      ResumeAssembled(cfg, src, w, m, now);
      UpsertBytes(cfg, src, w, t);
      assert es == upsert;
    }
  }

  lemma ResumeAssembled(cfg: Config, src: Source, w: World, m: PrepareMessage, now: i64)
    requires Assembling(cfg, src, w) && m.sizeBytes != 0 && Honest(cfg, src, Prepare(m)) && !ResumePoint(w, m).1
    ensures Assembled(cfg, src, w.files, NewTransfer(m, ResumePoint(w, m).0, now))
  {
    if m.deployment in w.mem.transfers {
      var r := w.mem.transfers[m.deployment];
      assert Assembled(cfg, src, w.files, r);
      assert FileExact(w.files, r);
      assert Ahead(w.dur.transfers[m.deployment], r);
      assert Backed(cfg, w.files, w.dur.transfers[m.deployment]);
    } else {
      assert m.deployment !in w.files.staging;
    }
  }

  /** The staging file after one honest chunk. */
  lemma ChunkExtends(content: Bytes, file: Bytes, offset: nat, data: Bytes)
    requires Prefixed(content, file, offset) && |file| == offset && Slice(content, offset, data)
    ensures Prefixed(content, Overwrite(file, offset, data), offset + |data|)
  {
    var file' := Overwrite(file, offset, data);
    assert file'[..offset + |data|] == file'[..offset] + file'[offset..offset + |data|];
    assert content[..offset + |data|] == content[..offset] + content[offset..offset + |data|];
  }

  lemma TransferFacts(cfg: Config, src: Source, w: World, d: Id)
    requires Assembling(cfg, src, w) && d in w.mem.transfers
    ensures var r := w.mem.transfers[d];
            && AllAssembled(cfg, src, w.files, w.mem.transfers)
            && r.digest == src.carries(r.stream) && d in w.dur.transfers && w.dur.transfers[d].bytesReceived <= r.bytesReceived
            && (r.bytesReceived > 0 ==> d in w.files.staging && |w.files.staging[d]| == r.bytesReceived)
            && (d in w.files.staging ==> Prefixed(src.content(r.digest), w.files.staging[d], r.bytesReceived))
  {
    var r := w.mem.transfers[d];
    assert Assembled(cfg, src, w.files, r) && FileExact(w.files, r) && Ahead(w.dur.transfers[d], r);
  }

  lemma ChunkWritesBytes(cfg: Config, src: Source, w: World, d: Id, data: Bytes, now: i64)
    requires Assembling(cfg, src, w) && d in w.mem.transfers && data != []
    requires var r := w.mem.transfers[d]; Slice(src.content(src.carries(r.stream)), r.bytesReceived, data)
    ensures var r := w.mem.transfers[d];
            var w3 := Run(w, ChunkWrites(r, d, r.bytesReceived, data));
            && AllBytes(cfg, src, w, ChunkWrites(r, d, r.bytesReceived, data))
            && w3.mem == w.mem && w3.dur == w.dur
            && AllAssembled(cfg, src, w3.files, w3.mem.transfers)
            && Assembled(cfg, src, w3.files, r.(bytesReceived := r.bytesReceived + |data|, updatedAt := now))
  {
    var r := w.mem.transfers[d];
    var content := src.content(r.digest);
    hide Assembling, AllAssembled, Assembled;
    TransferFacts(cfg, src, w, d);
    var truncate, write := TruncateStaging(d), WriteStaging(d, r.bytesReceived, data);
    var first := if r.bytesReceived == 0 then [truncate] else [];
    var was := if r.bytesReceived == 0 then [] else w.files.staging[d];
    assert Prefixed(content, was, r.bytesReceived) && |was| == r.bytesReceived;
    ChunkExtends(content, was, r.bytesReceived, data);
    FirstBytes(cfg, src, w, d, r.bytesReceived);
    var w1 := Run(w, first);
    hide AllBytes, Prefixed, Do, Overwrite, Run;
    WriteBytes(cfg, src, w1, d, r.bytesReceived, data);
    RunConcat(w, first, [write, CountChunk]);
    BytesConcat(cfg, src, w, first, [write, CountChunk]);
    var file := Overwrite(was, r.bytesReceived, data);
    assert w.files.staging[d := was][d := file] == w.files.staging[d := file];
    OthersAssembled(cfg, src, w, d, data, file, now);
  }

  /** A fresh transfer's staging file is emptied first. */
  lemma FirstBytes(cfg: Config, src: Source, w: World, d: Id, received: nat)
    requires d in w.dur.transfers && w.dur.transfers[d].bytesReceived <= received
    requires received > 0 ==> d in w.files.staging
    ensures var first := if received == 0 then [TruncateStaging(d)] else [];
            var was := if received == 0 then [] else w.files.staging[d];
            var w1 := Run(w, first);
            && AllBytes(cfg, src, w, first) && w1.mem == w.mem && w1.dur == w.dur
            && w1.files == w.files.(staging := w.files.staging[d := was])
  {
    OneEffect(cfg, w, TruncateStaging(d));
    if received > 0 { assert w.files.staging[d := w.files.staging[d]] == w.files.staging; }
  }

  lemma WriteBytes(cfg: Config, src: Source, w: World, d: Id, offset: u64, data: Bytes)
    requires d in w.files.staging && |w.files.staging[d]| == offset
    requires d in w.dur.transfers ==> w.dur.transfers[d].bytesReceived <= offset
    ensures var es := [WriteStaging(d, offset, data), CountChunk];
            var w' := Run(w, es);
            && AllBytes(cfg, src, w, es) && w'.mem == w.mem && w'.dur == w.dur
            && w'.files == w.files.(staging := w.files.staging[d := Overwrite(w.files.staging[d], offset, data)])
  {
    var write := WriteStaging(d, offset, data);
    TwoEffects(cfg, w, write, CountChunk);
    assert [write, CountChunk][1..] == [CountChunk];
    assert AllBytes(cfg, src, Do(w, write), [CountChunk]);
  }

  /** One honest chunk later, the old record and the new one both describe the staging file. */
  lemma OthersAssembled(cfg: Config, src: Source, w: World, d: Id, data: Bytes, file: Bytes, now: i64)
    requires d in w.mem.transfers && AllAssembled(cfg, src, w.files, w.mem.transfers)
    requires var r := w.mem.transfers[d];
             Prefixed(src.content(r.digest), file, r.bytesReceived + |data|)
    ensures var files := w.files.(staging := w.files.staging[d := file]);
            && AllAssembled(cfg, src, files, w.mem.transfers)
            && Assembled(cfg, src, files, w.mem.transfers[d].(bytesReceived := w.mem.transfers[d].bytesReceived + |data|, updatedAt := now))
  {
    var r := w.mem.transfers[d];
    var files := w.files.(staging := w.files.staging[d := file]);
    assert file[..r.bytesReceived] == file[..r.bytesReceived + |data|][..r.bytesReceived];
    forall x | x in w.mem.transfers ensures Assembled(cfg, src, files, w.mem.transfers[x]) {
      assert Assembled(cfg, src, w.files, w.mem.transfers[x]);
    }
  }

  lemma KeepsBytesConcat(cfg: Config, src: Source, w: World, a: seq<Effect>, b: seq<Effect>)
    requires AllBytes(cfg, src, w, a) && KeepsBytes(cfg, src, Run(w, a), b)
    ensures KeepsBytes(cfg, src, w, a + b)
  {
    BytesConcat(cfg, src, w, a, b);
    RunConcat(w, a, b);
  }

  lemma ChunkAcceptedBytes(cfg: Config, src: Source, w: World, d: Id, data: Bytes, now: i64)
    requires Assembling(cfg, src, w) && d in w.mem.transfers && data != []
    requires var r := w.mem.transfers[d];
             Slice(src.content(src.carries(r.stream)), r.bytesReceived, data) && r.bytesReceived + |data| <= r.totalBytes
    ensures KeepsBytes(cfg, src, w, ChunkEffects(w, d, data, now))
  {
    hide Run, AllBytes;
    var r := w.mem.transfers[d];
    var writes := ChunkWrites(r, d, r.bytesReceived, data);
    var updated := r.(bytesReceived := r.bytesReceived + |data|, updatedAt := now);
    ChunkWritesBytes(cfg, src, w, d, data, now);
    UpsertBytes(cfg, src, Run(w, writes), updated);
    KeepsBytesConcat(cfg, src, w, writes, [ChunkRecorded(w.chunkCounter + 1, updated)]);
  }

  lemma ChunkBytes(cfg: Config, src: Source, w: World, stream: u64, offset: u64, data: Bytes, now: i64)
    requires Assembling(cfg, src, w) && data != [] && Honest(cfg, src, Chunk(stream, offset, data))
    ensures KeepsBytes(cfg, src, w, ChunkOutcome(w, stream, offset, data, now).effects)
  {
    if ChunkOutcome(w, stream, offset, data, now).effects != [] {
      ChunkAcceptedBytes(cfg, src, w, FindStream(w.mem.transfers, stream).value, data, now);
    }
  }

  lemma CompleteBytes(cfg: Config, src: Source, w: World, d: Id, digest: Digest, size: u64, now: i64)
    requires Assembling(cfg, src, w)
    ensures KeepsBytes(cfg, src, w, CompleteOutcome(cfg, w, d, digest, size, now).effects)
  {
    var es := CompleteOutcome(cfg, w, d, digest, size, now).effects;
    if es != [] {
      var r := w.mem.transfers[d];
      assert Assembled(cfg, src, w.files, r);
      if StagingHashes(cfg, w, d, r.totalBytes, r.digest) {
        UpsertBytes(cfg, src, w, r.(verified := true, updatedAt := now));
      } else {
        var note := NoteRejection(w.mem.counters);
        OneEffect(cfg, w, note);
        DestroyBytes(cfg, src, Do(w, note), d);
        BytesConcat(cfg, src, w, [note], Destroy(w, d));
        RunConcat(w, [note], Destroy(w, d));
      }
    }
  }

  lemma StageBytes(cfg: Config, src: Source, w: World, d: Id, g: u64, digest: Digest, now: i64)
    requires Assembling(cfg, src, w)
    ensures KeepsBytes(cfg, src, w, StageOutcome(w, d, g, digest, now).effects)
  {
    var es := StageOutcome(w, d, g, digest, now).effects;
    if es != [] {
      var r := w.mem.transfers[d];
      assert Assembled(cfg, src, w.files, r);
      var place := PlacePayload(d, r.key, r.generation, r.digest);
      var upsert := Commit(AgentTransferUpsert(r.(staged := true, updatedAt := now)));
      OneEffect(cfg, w, place);
      UpsertBytes(cfg, src, Do(w, place), r.(staged := true, updatedAt := now));
      BytesConcat(cfg, src, w, [place], [upsert]);
      RunConcat(w, [place], [upsert]);
      assert es == [place] + [upsert];
    }
  }

  lemma AsideHandlers(cfg: Config, src: Source, w: World, i: Input)
    requires Assembling(cfg, src, w) && ValidInput(w, i)
    requires i.message.Hello? || i.message.ApplyPrepare? || i.message.ApplyCommit? || i.message.ApplyAbort? || i.message.ReconcileRequest?
    ensures KeepsBytes(cfg, src, w, Handle(cfg, w, i).effects)
  {
    hide Handle, Run, AllBytes, Aside, Alive, Assembled;
    var es := Handle(cfg, w, i).effects;
    forall e | e in es ensures Aside(e) { HandlerIsAside(cfg, w, i, e); }
    AsideRun(cfg, src, w, es);
    forall d | d in w.mem.transfers ensures Assembled(cfg, src, Run(w, es).files, w.mem.transfers[d]) {
      SameStaging(cfg, src, w.files, Run(w, es).files, w.mem.transfers[d]);
    }
  }

  lemma SameStaging(cfg: Config, src: Source, f: Files, f': Files, r: TransferRecord)
    requires f.staging == f'.staging && Assembled(cfg, src, f, r)
    ensures Assembled(cfg, src, f', r)
  {
  }

  lemma HandlerIsAside(cfg: Config, w: World, i: Input, e: Effect)
    requires ValidInput(w, i) && e in Handle(cfg, w, i).effects
    requires i.message.Hello? || i.message.ApplyPrepare? || i.message.ApplyCommit? || i.message.ApplyAbort? || i.message.ReconcileRequest?
    ensures Aside(e)
  {
    hide ApplyCommitOutcome, Run, Apply;
    match i.message
    case ApplyPrepare(d, g, h) => assert e in ApplyPrepareOutcome(cfg, w, d, g, h).effects;
    case ApplyCommit(d, g, h) => CommitAside(cfg, w, d, g, h, i.now, e);
    case ApplyAbort(d, g) => assert e in ApplyAbortOutcome(w, d, g).effects;
    case _ =>
  }

  lemma CommitAside(cfg: Config, w: World, d: Id, g: u64, digest: Digest, now: i64, e: Effect)
    requires e in ApplyCommitOutcome(cfg, w, d, g, digest, now).effects
    ensures Aside(e)
  {
    hide Run, Do, Apply;
  }

  lemma HandleBytes(cfg: Config, src: Source, w: World, i: Input)
    requires Assembling(cfg, src, w) && ValidInput(w, i) && Honest(cfg, src, i.message)
    ensures KeepsBytes(cfg, src, w, Handle(cfg, w, i).effects)
  {
    match i.message
    case Prepare(m) => PrepareBytes(cfg, src, w, m, i.now);
    case Chunk(s, o, data) => ChunkBytes(cfg, src, w, s, o, data, i.now);
    case TransferComplete(d, h, n) => CompleteBytes(cfg, src, w, d, h, n, i.now);
    case Stage(d, g, h) => StageBytes(cfg, src, w, d, g, h, i.now);
    case Retire(d, g) => DestroyBytes(cfg, src, w, d);
    case _ => AsideHandlers(cfg, src, w, i);
  }

  // ---- Start-up ----

  lemma {:induction false} StraysBytes(cfg: Config, src: Source, w0: World, w: World, names: seq<Id>)
    ensures AllBytes(cfg, src, w, Strays(w0, names))
    decreases |names|
  {
    if names != [] {
      var first := if names[0] in w0.mem.transfers then [] else [RemoveStaging(names[0])];
      StraysBytes(cfg, src, w0, Run(w, first), names[1..]);
      BytesConcat(cfg, src, w, first, Strays(w0, names[1..]));
    }
  }

  lemma {:induction false} ResizesBytes(cfg: Config, src: Source, w0: World, w: World, ds: seq<Id>)
    requires Known(w0, ds) && w.dur.transfers == w0.mem.transfers
    ensures AllBytes(cfg, src, w, Resizes(w0, ds))
    decreases |ds|
  {
    if ds != [] {
      var e := ResizeStaging(ds[0], w0.mem.transfers[ds[0]].bytesReceived);
      var first := if Oversized(w0, ds[0]) then [e] else [];
      OneEffect(cfg, w, e);
      ResizesBytes(cfg, src, w0, Run(w, first), ds[1..]);
      BytesConcat(cfg, src, w, first, Resizes(w0, ds[1..]));
    }
  }

  lemma {:induction false} DiscardsBytes(cfg: Config, src: Source, w0: World, w: World, ds: seq<Id>)
    requires Known(w0, ds)
    ensures AllBytes(cfg, src, w, Discards(w0, ds))
    decreases |ds|
  {
    if ds != [] {
      var pair := [RemoveStaging(ds[0]), Commit(AgentTransferRemove(ds[0]))];
      var first := if Supported(w0, ds[0]) then [] else pair;
      assert AllBytes(cfg, src, Do(w, pair[0]), pair[1..]);
      DiscardsBytes(cfg, src, w0, Run(w, first), ds[1..]);
      BytesConcat(cfg, src, w, first, Discards(w0, ds[1..]));
    }
  }

  lemma {:induction false} CheckpointsBytes(cfg: Config, src: Source, w0: World, w: World, ds: seq<Id>)
    requires Known(w0, ds) && w.mem == w.dur && AllAssembled(cfg, src, w.files, w.dur.transfers)
    requires forall d :: d in ds && Oversized(w0, d) ==> d in w.dur.transfers && w.dur.transfers[d] == w0.mem.transfers[d]
    ensures AllBytes(cfg, src, w, Checkpoints(w0, ds))
    decreases |ds|
  {
    if ds != [] {
      var d := ds[0];
      var e := Commit(AgentTransferUpsert(w0.mem.transfers[d]));
      var first := if Oversized(w0, d) then [e] else [];
      OneEffect(cfg, w, e);
      if Oversized(w0, d) {
        assert Assembled(cfg, src, w.files, w.dur.transfers[d]);
        assert w.dur.transfers[d := w.dur.transfers[d]] == w.dur.transfers;
        assert Do(w, e) == w;
      }
      CheckpointsBytes(cfg, src, w0, w, ds[1..]);
      BytesConcat(cfg, src, w, first, Checkpoints(w0, ds[1..]));
    }
  }

  lemma RecoverTransfersBytes(cfg: Config, src: Source, w: World, l: Listing)
    requires Inv(cfg, w) && w.mem == w.dur && ValidListing(cfg, w, l)
    requires AllAssembled(cfg, src, w.files, w.dur.transfers)
    ensures AllBytes(cfg, src, w, RecoverTransfers(w, l))
  {
    var a, b, c, d := Strays(w, l.staged), Resizes(w, l.transfers), Discards(w, l.transfers), Checkpoints(w, l.transfers);
    StraysRun(cfg, w, w, l.staged);
    StraysBytes(cfg, src, w, w, l.staged);
    var w1 := Run(w, a);
    ResizesRun(cfg, w, w1, l.transfers);
    ResizesBytes(cfg, src, w, w1, l.transfers);
    var w2 := Run(w1, b);
    DiscardsRun(cfg, w, w2, l.transfers);
    DiscardsBytes(cfg, src, w, w2, l.transfers);
    BytesConcat(cfg, src, w, a, b); RunConcat(w, a, b);
    BytesConcat(cfg, src, w, a + b, c); RunConcat(w, a + b, c);
    PrefixKeepsBytes(cfg, src, w, a + b + c, |a + b + c|);
    assert (a + b + c)[..|a + b + c|] == a + b + c;
    CheckpointsBytes(cfg, src, w, Run(w2, c), l.transfers);
    BytesConcat(cfg, src, w, a + b + c, d);
  }

  lemma RecoverKeyAside(cfg: Config, w: World, k: Id, e: Effect)
    requires e in RecoverKey(cfg, w, k)
    ensures Aside(e)
  {
    hide Run, Do, Apply;
  }

  lemma {:induction false} RecoverKeysAside(cfg: Config, w: World, keys: seq<Id>, e: Effect)
    requires e in RecoverKeys(cfg, w, keys)
    ensures Aside(e)
    decreases |keys|
  {
    hide Run, RecoverKey, Skipped;
    if Skipped(cfg.liveRoot, keys[0]) {
      RecoverKeysAside(cfg, w, keys[1..], e);
    } else if e in RecoverKeys(cfg, Run(w, RecoverKey(cfg, w, keys[0])), keys[1..]) {
      RecoverKeysAside(cfg, Run(w, RecoverKey(cfg, w, keys[0])), keys[1..], e);
    } else {
      RecoverKeyAside(cfg, w, keys[0], e);
    }
  }

  lemma RecoverLiveBytes(cfg: Config, src: Source, w: World, l: Listing)
    ensures AllBytes(cfg, src, w, RecoverLive(cfg, w, l))
  {
    var b := RecoverLive(cfg, w, l);
    forall e | e in b ensures Aside(e) {
      if e in RecoverKeys(cfg, w, l.keys) { RecoverKeysAside(cfg, w, l.keys, e); }
    }
    AsideRun(cfg, src, w, b);
  }

  lemma BootBytes(cfg: Config, src: Source, w: World, l: Listing)
    requires Inv(cfg, w) && w.mem == w.dur && CanBoot(w.mem) && ValidListing(cfg, w, l)
    requires AllAssembled(cfg, src, w.files, w.dur.transfers)
    ensures AllBytes(cfg, src, w, Boot(cfg, w, l))
  {
    BootShape(cfg, w, l);
    var id := Commit(AgentIdentity(NextIdentity(cfg, w.mem, l.incarnation)));
    var w0 := Identified(cfg, w, l);
    EffectKeepsInv(cfg, w, id);
    var a := RecoverTransfers(w0, l);
    RecoverTransfersBytes(cfg, src, w0, l);
    var b := RecoverLive(cfg, Run(w0, a), l);
    RecoverLiveBytes(cfg, src, Run(w0, a), l);
    BytesConcat(cfg, src, w0, a, b);
    BytesConcat(cfg, src, w, [id], a + b);
  }

  // ---- Whole runs ----

  predicate HonestEvent(cfg: Config, src: Source, e: Event) {
    match e
    case Handled(i) => Honest(cfg, src, i.message)
    case Cut(i, _) => Honest(cfg, src, i.message)
    case _ => true
  }

  ghost predicate HonestTrace(cfg: Config, src: Source, ps: seq<Process>, es: seq<Event>) {
    Trace(cfg, ps, es) && forall e :: e in es ==> HonestEvent(cfg, src, e)
  }

  predicate BytesKept(cfg: Config, src: Source, p: Process) {
    && Consistent(cfg, p)
    && AllAssembled(cfg, src, p.w.files, p.w.dur.transfers)
    && (p.up ==> AllAssembled(cfg, src, p.w.files, p.w.mem.transfers))
  }

  lemma StepBytes(cfg: Config, src: Source, p: Process, e: Event)
    requires BytesKept(cfg, src, p) && Enabled(cfg, p, e) && HonestEvent(cfg, src, e)
    ensures BytesKept(cfg, src, Next(cfg, p, e))
  {
    StepConsistent(cfg, p, e);
    match e
    case Handled(i) =>
      var es := Handle(cfg, p.w, i).effects;
      HandleBytes(cfg, src, p.w, i);
      PrefixKeepsBytes(cfg, src, p.w, es, |es|);
      assert es[..|es|] == es;
    case Cut(i, n) =>
      HandleBytes(cfg, src, p.w, i);
      PrefixKeepsBytes(cfg, src, p.w, Handle(cfg, p.w, i).effects, n);
    case Booted(l) =>
      var es := Boot(cfg, Reload(p.w), l);
      BootBytes(cfg, src, Reload(p.w), l);
      PrefixKeepsBytes(cfg, src, Reload(p.w), es, |es|);
      assert es[..|es|] == es;
      BootSound(cfg, Reload(p.w), l);
    case BootCut(l, n) =>
      BootBytes(cfg, src, Reload(p.w), l);
      PrefixKeepsBytes(cfg, src, Reload(p.w), Boot(cfg, Reload(p.w), l), n);
  }

  lemma {:induction false} TraceBytes(cfg: Config, src: Source, ps: seq<Process>, es: seq<Event>, i: nat)
    requires HonestTrace(cfg, src, ps, es) && i < |ps|
    ensures BytesKept(cfg, src, ps[i])
    decreases i
  {
    if i > 0 {
      TraceBytes(cfg, src, ps, es, i - 1);
      assert es[i - 1] in es;
      StepBytes(cfg, src, ps[i - 1], es[i - 1]);
    }
  }

  /** Whatever happened before, the staging file of a serving agent's transfer is exactly the received prefix of
      the artifact its digest names. */
  lemma TransferAssembly(cfg: Config, src: Source, ps: seq<Process>, es: seq<Event>, i: nat, d: Id)
    requires HonestTrace(cfg, src, ps, es) && i < |ps| && ps[i].up && d in ps[i].w.mem.transfers
    ensures var w := ps[i].w;
            var r := w.mem.transfers[d];
            && r.totalBytes == |src.content(r.digest)| && r.bytesReceived <= r.totalBytes
            && (r.bytesReceived > 0 ==> d in w.files.staging)
            && (d in w.files.staging ==> w.files.staging[d] == src.content(r.digest)[..r.bytesReceived])
  {
    TraceBytes(cfg, src, ps, es, i);
    var w := ps[i].w;
    var r := w.mem.transfers[d];
    assert Assembled(cfg, src, w.files, r) && FileExact(w.files, r) && Ahead(w.dur.transfers[d], r);
    if d in w.files.staging {
      assert w.files.staging[d][..r.bytesReceived] == w.files.staging[d];
    }
  }

  /** A completed transfer always verifies: the completion of a transfer that has all its bytes is answered with
      success, and afterwards the transfer is verified. */
  lemma CompletedTransferVerifies(cfg: Config, src: Source, ps: seq<Process>, es: seq<Event>, n: nat, i: Input)
    requires HonestTrace(cfg, src, ps, es) && n < |ps| && ps[n].up && ValidInput(ps[n].w, i)
    requires i.message.TransferComplete? && i.message.deployment in ps[n].w.mem.transfers
    requires var r := ps[n].w.mem.transfers[i.message.deployment];
             r.bytesReceived == r.totalBytes == i.message.sizeBytes && r.digest == i.message.digest
    ensures var o := Handle(cfg, ps[n].w, i);
            && o.replies == [TransferResult(i.message.deployment, true, i.message.sizeBytes, Success)]
            && i.message.deployment in Run(ps[n].w, o.effects).dur.transfers
            && Run(ps[n].w, o.effects).dur.transfers[i.message.deployment].verified
  {
    var d := i.message.deployment;
    TransferAssembly(cfg, src, ps, es, n, d);
    TraceBytes(cfg, src, ps, es, n);
    var w := ps[n].w;
    var r := w.mem.transfers[d];
    assert Assembled(cfg, src, w.files, r);
    var content := src.content(r.digest);
    assert content[..|content|] == content;
    var upsert := Commit(AgentTransferUpsert(r.(verified := true, updatedAt := i.now)));
    assert Handle(cfg, w, i).effects == [upsert];
    OneEffect(cfg, w, upsert);
  }
}
