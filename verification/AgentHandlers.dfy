/** Every handler of a live agent emits only safe effects and ends in a live, consistent agent. */
module AgentHandlers {
  import opened Prelude
  import opened Lifecycle
  import opened AgentState
  import opened Messages
  import opened AgentModel
  import opened AgentInvariants

  // ---- A live agent ----

  /** The in-memory record may be ahead of the last checkpoint, but only in the bytes received. */
  predicate Ahead(durable: TransferRecord, live: TransferRecord) {
    && live == durable.(bytesReceived := live.bytesReceived, updatedAt := live.updatedAt)
    && durable.bytesReceived <= live.bytesReceived <= live.totalBytes
    && (durable.verified ==> durable.bytesReceived == live.bytesReceived)
  }

  predicate TransfersAhead(durable: map<Id, TransferRecord>, live: map<Id, TransferRecord>) {
    && live.Keys == durable.Keys
    && forall d :: d in durable ==> Ahead(durable[d], live[d])
  }

  /** Memory differs from the store only in unchecked transfer progress and in counters. */
  predicate MemAhead(w: World) {
    && w.mem.(transfers := w.dur.transfers, counters := w.dur.counters) == w.dur
    && TransfersAhead(w.dur.transfers, w.mem.transfers)
  }

  predicate FileExact(f: Files, r: TransferRecord) {
    && (r.deployment in f.staging ==> |f.staging[r.deployment]| == r.bytesReceived)
    && (r.bytesReceived > 0 ==> r.deployment in f.staging)
  }

  /** Every retained transfer's file is exactly as long as its record says, and there are no other staging files. */
  predicate FilesExact(w: World) {
    && w.files.staging.Keys <= w.mem.transfers.Keys
    && forall d :: d in w.mem.transfers ==> FileExact(w.files, w.mem.transfers[d])
  }

  predicate Alive(cfg: Config, w: World) {
    Inv(cfg, w) && MemAhead(w) && FilesExact(w)
  }

  /** What one handler must establish. */
  predicate Sound(cfg: Config, w: World, es: seq<Effect>) {
    AllSafe(cfg, w, es) && Alive(cfg, Run(w, es))
  }

  // ---- Steps every handler is made of ----

  predicate LeavesTransfers(r: Record) {
    !r.AgentTransferUpsert? && !r.AgentTransferRemove?
  }

  lemma CommitAlive(cfg: Config, w: World, r: Record)
    requires Alive(cfg, w) && SafeCommit(cfg, w, r) && LeavesTransfers(r)
    ensures Sound(cfg, w, [Commit(r)]) && Run(w, [Commit(r)]) == Do(w, Commit(r))
  {
    EffectKeepsInv(cfg, w, Commit(r));
    OneEffect(cfg, w, Commit(r));
  }

  lemma UpsertAlive(cfg: Config, w: World, t: TransferRecord)
    requires Inv(cfg, w) && MemAhead(w) && SafeUpsert(cfg, w, t) && FileExact(w.files, t)
    requires w.files.staging.Keys <= w.mem.transfers.Keys + {t.deployment}
    requires forall d :: d in w.mem.transfers && d != t.deployment ==> FileExact(w.files, w.mem.transfers[d])
    ensures Sound(cfg, w, [Commit(AgentTransferUpsert(t))])
    ensures Run(w, [Commit(AgentTransferUpsert(t))]) == Do(w, Commit(AgentTransferUpsert(t)))
  {
    var e := Commit(AgentTransferUpsert(t));
    EffectKeepsInv(cfg, w, e);
    var w' := Do(w, e);
    OneEffect(cfg, w, e);
    forall d | d in w'.dur.transfers ensures Ahead(w'.dur.transfers[d], w'.mem.transfers[d]) {}
    forall d | d in w'.mem.transfers ensures FileExact(w'.files, w'.mem.transfers[d]) {}
  }

  function Destroyed(w: World, d: Id): World {
    w.(files := w.files.(staging := w.files.staging - {d}),
       mem := w.mem.(transfers := w.mem.transfers - {d}),
       dur := w.dur.(transfers := w.dur.transfers - {d}))
  }

  lemma DestroyRuns(cfg: Config, w: World, d: Id)
    requires w.mem.transfers.Keys == w.dur.transfers.Keys
    ensures AllSafe(cfg, w, Destroy(w, d)) && Run(w, Destroy(w, d)) == Destroyed(w, d)
  {
    if d in w.mem.transfers {
      var e := Commit(AgentTransferRemove(d));
      assert Destroy(w, d) == [RemoveStaging(d), e];
      TwoEffects(cfg, w, RemoveStaging(d), e);
    } else {
      assert Destroy(w, d) == [RemoveStaging(d)];
      OneEffect(cfg, w, RemoveStaging(d));
      assert w.mem.transfers - {d} == w.mem.transfers && w.dur.transfers - {d} == w.dur.transfers;
    }
  }

  lemma DestroyAlive(cfg: Config, w: World, d: Id)
    requires Alive(cfg, w)
    ensures Sound(cfg, w, Destroy(w, d)) && Run(w, Destroy(w, d)) == Destroyed(w, d)
  {
    DestroyRuns(cfg, w, d);
    var es := Destroy(w, d);
    PrefixKeepsInv(cfg, w, es, |es|);
    assert es[..|es|] == es;
  }

  lemma SoundConcat(cfg: Config, w: World, a: seq<Effect>, b: seq<Effect>)
    requires AllSafe(cfg, w, a) && Sound(cfg, Run(w, a), b)
    ensures Sound(cfg, w, a + b)
  {
    RunConcat(w, a, b);
    SafeConcat(cfg, w, a, b);
  }

  // ---- The handlers ----

  lemma HelloSound(cfg: Config, w: World, f: ControllerFence)
    requires Alive(cfg, w)
    ensures Sound(cfg, w, HelloOutcome(w, f).effects)
  {
    CommitAlive(cfg, w, AgentControllerFence(f));
  }

  lemma BeginSound(cfg: Config, w: World, m: PrepareMessage, now: i64)
    requires Alive(cfg, w) && Decodable(Prepare(m)) && !w.mem.window.applyPrepared
    ensures var (resumeFrom, stale) := ResumePoint(w, m);
            Sound(cfg, w, (if stale then Destroy(w, m.deployment) else []) +
                          [Commit(AgentTransferUpsert(NewTransfer(m, resumeFrom, now)))])
  {
    var (resumeFrom, stale) := ResumePoint(w, m);
    var t := NewTransfer(m, resumeFrom, now);
    if stale {
      DestroyAlive(cfg, w, m.deployment);
      UpsertAlive(cfg, Destroyed(w, m.deployment), t);
      SoundConcat(cfg, w, Destroy(w, m.deployment), [Commit(AgentTransferUpsert(t))]);
    } else {
      if m.deployment in w.mem.transfers {
        assert Ahead(w.dur.transfers[m.deployment], w.mem.transfers[m.deployment]);
        assert FileExact(w.files, w.mem.transfers[m.deployment]);
      }
      UpsertAlive(cfg, w, t);
      assert [] + [Commit(AgentTransferUpsert(t))] == [Commit(AgentTransferUpsert(t))];
    }
  }

  lemma PrepareSound(cfg: Config, w: World, m: PrepareMessage, now: i64)
    requires Alive(cfg, w) && Decodable(Prepare(m))
    ensures Sound(cfg, w, PrepareOutcome(cfg, w, m, now).effects)
  {
    CommitAlive(cfg, w, NoteStale(w.mem.counters).record);
    CommitAlive(cfg, w, NoteDuplicate(w.mem.counters).record);
    if !w.mem.window.applyPrepared {
      BeginSound(cfg, w, m, now);
    }
  }

  /** An accepted chunk's bytes are in the staging file but not yet in any record. */
  predicate ChunkWritten(cfg: Config, w: World, w3: World, d: Id, updated: TransferRecord) {
    && Alive(cfg, w) && d in w.mem.transfers
    && Inv(cfg, w3) && w3.mem == w.mem && w3.dur == w.dur && d in w3.files.staging
    && w3.files.staging == w.files.staging[d := w3.files.staging[d]]
    && |w3.files.staging[d]| == updated.bytesReceived <= updated.totalBytes
    && w.mem.transfers[d].bytesReceived <= updated.bytesReceived
    && updated == w.mem.transfers[d].(bytesReceived := updated.bytesReceived, updatedAt := updated.updatedAt)
    && !w.dur.transfers[d].verified
  }

  lemma OthersExact(cfg: Config, w: World, w3: World, d: Id, updated: TransferRecord)
    requires ChunkWritten(cfg, w, w3, d, updated)
    ensures updated.deployment == d
    ensures forall e :: e in w3.mem.transfers && e != d ==> FileExact(w3.files, w3.mem.transfers[e])
  {
    assert Ahead(w.dur.transfers[d], w.mem.transfers[d]);
    forall e | e in w3.mem.transfers && e != d ensures FileExact(w3.files, w3.mem.transfers[e]) {
      assert FileExact(w.files, w.mem.transfers[e]);
      assert Ahead(w.dur.transfers[e], w.mem.transfers[e]);
    }
  }

  lemma ChunkCheckpointed(cfg: Config, w: World, w3: World, d: Id, updated: TransferRecord)
    requires ChunkWritten(cfg, w, w3, d, updated)
    ensures Sound(cfg, w3, [Commit(AgentTransferUpsert(updated))])
  {
    OthersExact(cfg, w, w3, d, updated);
    assert Ahead(w.dur.transfers[d], w.mem.transfers[d]);
    assert Backed(cfg, w3.files, w.dur.transfers[d]);
    UpsertAlive(cfg, w3, updated);
  }

  lemma ChunkRemembered(cfg: Config, w: World, w3: World, d: Id, updated: TransferRecord)
    requires ChunkWritten(cfg, w, w3, d, updated)
    ensures Sound(cfg, w3, [Remember(updated)])
  {
    OthersExact(cfg, w, w3, d, updated);
    var e := Remember(updated);
    var w4 := Do(w3, e);
    OneEffect(cfg, w3, e);
    EffectKeepsInv(cfg, w3, e);
    forall x | x in w4.dur.transfers ensures Ahead(w4.dur.transfers[x], w4.mem.transfers[x]) {
      assert Ahead(w.dur.transfers[x], w.mem.transfers[x]);
    }
    assert MemAhead(w4);
    forall x | x in w4.mem.transfers ensures FileExact(w4.files, w4.mem.transfers[x]) {
      if x != d { assert FileExact(w3.files, w3.mem.transfers[x]); }
    }
  }

  /** A transfer that can still take bytes is not verified, and its file ends where its record does. */
  lemma StillOpen(cfg: Config, w: World, d: Id, more: nat)
    requires Alive(cfg, w) && d in w.mem.transfers && w.mem.transfers[d].bytesReceived + more <= w.mem.transfers[d].totalBytes && more > 0
    ensures var r := w.mem.transfers[d];
            && r.deployment == d && d in w.dur.transfers && !w.dur.transfers[d].verified && w.dur.transfers[d].bytesReceived <= r.bytesReceived
            && FileExact(w.files, r) && Inv(cfg, w)
  {
    var r := w.mem.transfers[d];
    assert Ahead(w.dur.transfers[d], r) && FileExact(w.files, r) && r.deployment == d;
  }

  lemma ChunkWritesSafe(cfg: Config, w: World, d: Id, data: Bytes, now: i64)
    requires Alive(cfg, w) && d in w.mem.transfers && data != []
    requires w.mem.transfers[d].bytesReceived + |data| <= w.mem.transfers[d].totalBytes
    ensures var r := w.mem.transfers[d];
            var es := ChunkWrites(r, d, r.bytesReceived, data);
            && AllSafe(cfg, w, es)
            && ChunkWritten(cfg, w, Run(w, es), d, r.(bytesReceived := r.bytesReceived + |data|, updatedAt := now))
  {
    hide AllSafe, Run, Inv, Alive;
    StillOpen(cfg, w, d, |data|);
    var r := w.mem.transfers[d];
    var w1 := if r.bytesReceived == 0 then Do(w, TruncateStaging(d)) else w;
    if r.bytesReceived == 0 { EffectKeepsInv(cfg, w, TruncateStaging(d)); }
    var write := WriteStaging(d, r.bytesReceived, data);
    EffectKeepsInv(cfg, w1, write);
    var w2 := Do(w1, write);
    EffectKeepsInv(cfg, w2, CountChunk);
    var tail := [write, CountChunk];
    TwoEffects(cfg, w1, write, CountChunk);
    if r.bytesReceived == 0 {
      OneEffect(cfg, w, TruncateStaging(d));
      SafeConcat(cfg, w, [TruncateStaging(d)], tail);
      RunConcat(w, [TruncateStaging(d)], tail);
    } else {
      assert ChunkWrites(r, d, r.bytesReceived, data) == tail;
    }
  }

  lemma ChunkAccepted(cfg: Config, w: World, d: Id, data: Bytes, now: i64)
    requires Alive(cfg, w) && d in w.mem.transfers && data != []
    requires w.mem.transfers[d].bytesReceived + |data| <= w.mem.transfers[d].totalBytes
    ensures Sound(cfg, w, ChunkEffects(w, d, data, now))
  {
    hide Run, AllSafe, Apply;
    var r := w.mem.transfers[d];
    var writes := ChunkWrites(r, d, r.bytesReceived, data);
    ChunkWritesSafe(cfg, w, d, data, now);
    var w3 := Run(w, writes);
    var updated := r.(bytesReceived := r.bytesReceived + |data|, updatedAt := now);
    ChunkCheckpointed(cfg, w, w3, d, updated);
    ChunkRemembered(cfg, w, w3, d, updated);
    SoundConcat(cfg, w, writes, [ChunkRecorded(w.chunkCounter + 1, updated)]);
  }

  lemma ChunkSound(cfg: Config, w: World, stream: u64, offset: u64, data: Bytes, now: i64)
    requires Alive(cfg, w) && data != []
    ensures Sound(cfg, w, ChunkOutcome(w, stream, offset, data, now).effects)
  {
    if ChunkOutcome(w, stream, offset, data, now).effects != [] {
      ChunkAccepted(cfg, w, FindStream(w.mem.transfers, stream).value, data, now);
    }
  }

  lemma CompleteSound(cfg: Config, w: World, d: Id, digest: Digest, size: u64, now: i64)
    requires Alive(cfg, w)
    ensures Sound(cfg, w, CompleteOutcome(cfg, w, d, digest, size, now).effects)
  {
    var es := CompleteOutcome(cfg, w, d, digest, size, now).effects;
    if es != [] {
      var r := w.mem.transfers[d];
      assert Ahead(w.dur.transfers[d], r) && FileExact(w.files, r) && r.deployment == d;
      assert Backed(cfg, w.files, w.dur.transfers[d]);
      if StagingHashes(cfg, w, d, r.totalBytes, r.digest) {
        UpsertAlive(cfg, w, r.(verified := true, updatedAt := now));
      } else {
        var note := NoteRejection(w.mem.counters);
        CommitAlive(cfg, w, note.record);
        DestroyAlive(cfg, Do(w, note), d);
        SoundConcat(cfg, w, [note], Destroy(w, d));
      }
    }
  }

  lemma StageSound(cfg: Config, w: World, d: Id, g: u64, digest: Digest, now: i64)
    requires Alive(cfg, w)
    ensures Sound(cfg, w, StageOutcome(w, d, g, digest, now).effects)
  {
    var es := StageOutcome(w, d, g, digest, now).effects;
    if es != [] {
      var r := w.mem.transfers[d];
      assert Ahead(w.dur.transfers[d], r) && FileExact(w.files, r) && r.deployment == d;
      assert Backed(cfg, w.files, w.dur.transfers[d]);
      var place := PlacePayload(d, r.key, r.generation, r.digest);
      EffectKeepsInv(cfg, w, place);
      var w1 := Do(w, place);
      OneEffect(cfg, w, place);
      assert w1.dur == w.dur && w1.mem == w.mem && w1.files.staging == w.files.staging;
      UpsertAlive(cfg, w1, r.(staged := true, updatedAt := now));
      SoundConcat(cfg, w, [place], [Commit(AgentTransferUpsert(r.(staged := true, updatedAt := now)))]);
      assert es == [place] + [Commit(AgentTransferUpsert(r.(staged := true, updatedAt := now)))];
    }
  }

  /** Effects on marker files do not disturb a live agent. */
  lemma MarkerAlive(cfg: Config, w: World, e: Effect)
    requires Alive(cfg, w) && (e.WritePending? || e.RemovePending?)
    ensures Sound(cfg, w, [e]) && Run(w, [e]) == Do(w, e)
  {
    EffectKeepsInv(cfg, w, e);
    OneEffect(cfg, w, e);
  }

  lemma ApplyPrepareSound(cfg: Config, w: World, d: Id, g: u64, digest: Digest)
    requires Alive(cfg, w)
    ensures Sound(cfg, w, ApplyPrepareOutcome(cfg, w, d, g, digest).effects)
  {
    var es := ApplyPrepareOutcome(cfg, w, d, g, digest).effects;
    if es != [] {
      var r := w.mem.transfers[d];
      assert Ahead(w.dur.transfers[d], r);
      MarkerAlive(cfg, w, es[0]);
      CommitAlive(cfg, Do(w, es[0]), es[1].record);
      SoundConcat(cfg, w, [es[0]], [es[1]]);
      assert es == [es[0]] + [es[1]];
    }
  }

  lemma SwitchAlive(cfg: Config, w: World, k: Id, p: Pointer)
    requires Alive(cfg, w) && IsSet(p) && Holds(cfg, w.files, k, p.generation, p.digest)
    ensures Sound(cfg, w, [SwitchCurrent(k, p)]) && Run(w, [SwitchCurrent(k, p)]) == Do(w, SwitchCurrent(k, p))
    ensures Switched(Do(w, SwitchCurrent(k, p)), k, p.generation, p.digest)
  {
    var e := SwitchCurrent(k, p);
    EffectKeepsInv(cfg, w, e);
    OneEffect(cfg, w, e);
    assert Do(w, e).switches[|w.switches|] == Switch(k, p.generation, p.digest);
  }

  lemma RecordFindingSound(cfg: Config, w: World, f: AppliedFinding, c: Counters)
    requires Alive(cfg, w) && Switched(w, f.key, f.generation, f.digest)
    ensures Sound(cfg, w, [Commit(AgentFindingUpsert(f)), BumpActivations, CounterNote(c)])
  {
    var finding := Commit(AgentFindingUpsert(f));
    CommitAlive(cfg, w, finding.record);
    var w2 := Do(w, finding);
    EffectKeepsInv(cfg, w2, BumpActivations);
    var w3 := Do(w2, BumpActivations);
    OneEffect(cfg, w2, BumpActivations);
    CommitAlive(cfg, w3, CounterNote(c).record);
    SoundConcat(cfg, w2, [BumpActivations], [CounterNote(c)]);
    SoundConcat(cfg, w, [finding], [BumpActivations] + [CounterNote(c)]);
    assert [finding] + ([BumpActivations] + [CounterNote(c)]) == [finding, BumpActivations, CounterNote(c)];
  }

  lemma CommitGenerationSound(cfg: Config, w: World, open: bool, activations: u64, c: Counters, r: TransferRecord, now: i64)
    requires Alive(cfg, w) && Switched(w, r.key, r.generation, r.digest)
    ensures Sound(cfg, w, CommitGeneration(open, activations, c, r, now))
  {
    var resolve := Commit(AgentApplyResolved(Next64(activations)));
    var commit := Commit(AgentTargetCommit(Pointer(r.generation, r.digest, r.artifact)));
    var f := AppliedFinding(r.key, r.generation, r.digest, r.artifact, r.deployment, Applied, now);
    var tail := [Commit(AgentFindingUpsert(f)), BumpActivations, CounterNote(c)];
    var w0 := if open then Do(w, resolve) else w;
    CommitAlive(cfg, w, resolve.record);
    assert WasLive(w0.switches, r.generation, r.digest);
    CommitAlive(cfg, w0, commit.record);
    RecordFindingSound(cfg, Do(w0, commit), f, c);
    SoundConcat(cfg, w0, [commit], tail);
    if open {
      SoundConcat(cfg, w, [resolve], [commit] + tail);
      assert CommitGeneration(open, activations, c, r, now) == [resolve] + ([commit] + tail);
    } else {
      assert CommitGeneration(open, activations, c, r, now) == [commit] + tail;
    }
  }

  lemma ActivateSound(cfg: Config, w: World, d: Id, explicit: bool, now: i64)
    requires Alive(cfg, w) && d in w.mem.transfers && w.mem.transfers[d].staged
    requires explicit ==> w.mem.window.applyPrepared
    ensures Sound(cfg, w, Activate(w, w.mem.transfers[d], explicit, now))
  {
    hide Activate, AllSafe, Apply, CommitGeneration;
    var r := w.mem.transfers[d];
    assert Ahead(w.dur.transfers[d], r) && Backed(cfg, w.files, w.dur.transfers[d]);
    var p := Pointer(r.generation, r.digest, r.artifact);
    var switch := SwitchCurrent(r.key, p);
    SwitchAlive(cfg, w, r.key, p);
    var w1 := Do(w, switch);
    var unmark := if explicit then [RemovePending(r.key)] else [];
    MarkerAlive(cfg, w1, RemovePending(r.key));
    var w2 := Run(w1, unmark);
    assert w2 == if explicit then Do(w1, RemovePending(r.key)) else w1;
    var commit := CommitGeneration(w.mem.window.applyPrepared || explicit, w.mem.counters.activations, w.mem.counters, r, now);
    CommitGenerationSound(cfg, w2, w.mem.window.applyPrepared || explicit, w.mem.counters.activations, w.mem.counters, r, now);
    SoundConcat(cfg, w1, unmark, commit);
    SoundConcat(cfg, w, [switch], unmark + commit);
    ActivateShape(w, r, explicit, now);
  }

  lemma ApplyCommitSound(cfg: Config, w: World, d: Id, g: u64, digest: Digest, now: i64)
    requires Alive(cfg, w)
    ensures Sound(cfg, w, ApplyCommitOutcome(cfg, w, d, g, digest, now).effects)
  {
    CommitAlive(cfg, w, NoteStale(w.mem.counters).record);
    CommitAlive(cfg, w, NoteDuplicate(w.mem.counters).record);
    if d in w.mem.transfers && w.mem.transfers[d].staged
       && (cfg.guarantee == PrepareCommitAbort ==> w.mem.window.applyPrepared) {
      ActivateSound(cfg, w, d, cfg.guarantee == PrepareCommitAbort, now);
    }
  }

  lemma ApplyAbortSound(cfg: Config, w: World, d: Id, g: u64)
    requires Alive(cfg, w)
    ensures Sound(cfg, w, ApplyAbortOutcome(w, d, g).effects)
  {
    var es := ApplyAbortOutcome(w, d, g).effects;
    if es != [] {
      var unmark := if d in w.mem.transfers then [RemovePending(w.mem.transfers[d].key)] else [];
      if unmark != [] { MarkerAlive(cfg, w, unmark[0]); }
      var w1 := Run(w, unmark);
      var note := NoteRollback(w.mem.counters);
      var resolve := Commit(AgentApplyResolved(w.mem.counters.activations));
      CommitAlive(cfg, w1, note.record);
      CommitAlive(cfg, Do(w1, note), resolve.record);
      SoundConcat(cfg, w1, [note], [resolve]);
      SoundConcat(cfg, w, unmark, [note] + [resolve]);
      assert es == unmark + ([note] + [resolve]);
    }
  }

  lemma RetireSound(cfg: Config, w: World, d: Id, g: u64)
    requires Alive(cfg, w)
    ensures Sound(cfg, w, RetireOutcome(w, d, g).effects)
  {
    DestroyAlive(cfg, w, d);
  }

  /** A live agent that handles a message to the end is still live and consistent, and a crash after any of
      the handler's effects leaves the crash invariant. */
  lemma HandleSound(cfg: Config, w: World, i: Input)
    requires Alive(cfg, w) && ValidInput(w, i)
    ensures Sound(cfg, w, Handle(cfg, w, i).effects)
    ensures forall n :: 0 <= n <= |Handle(cfg, w, i).effects| ==> Inv(cfg, Run(w, Handle(cfg, w, i).effects[..n]))
  {
    hide PrepareOutcome, ChunkOutcome, CompleteOutcome, StageOutcome, ApplyPrepareOutcome, ApplyCommitOutcome, ApplyAbortOutcome, RetireOutcome;
    match i.message {
    case Hello(f) => HelloSound(cfg, w, f);
    case Prepare(m) => PrepareSound(cfg, w, m, i.now);
    case Chunk(s, o, data) => ChunkSound(cfg, w, s, o, data, i.now);
    case TransferComplete(d, h, n) => CompleteSound(cfg, w, d, h, n, i.now);
    case Stage(d, g, h) => StageSound(cfg, w, d, g, h, i.now);
    case ApplyPrepare(d, g, h) => ApplyPrepareSound(cfg, w, d, g, h);
    case ApplyCommit(d, g, h) => ApplyCommitSound(cfg, w, d, g, h, i.now);
    case ApplyAbort(d, g) => ApplyAbortSound(cfg, w, d, g);
    case ReconcileRequest(n) =>
    case Retire(d, g) => RetireSound(cfg, w, d, g);
    }
    var es := Handle(cfg, w, i).effects;
    forall n | 0 <= n <= |es| ensures Inv(cfg, Run(w, es[..n])) {
      PrefixKeepsInv(cfg, w, es, n);
    }
  }
}
