/** The agent process itself (class TargetAgent, src/agent.cpp): handlers that act step by step on the store and
    the files, each proved to have exactly the effects of its specification in AgentModel. */
module TargetAgent {
  import opened Prelude
  import opened Lifecycle
  import opened AgentState
  import opened Messages
  import opened AgentModel
  import opened KeyPaths
  import opened AgentInvariants
  import opened AgentRecovery

  /** The effects of `destroyTransfer` on recorded transfers, in list order. */
  function DestroyEach(ds: seq<Id>): seq<Effect> {
    if ds == [] then [] else [RemoveStaging(ds[0]), Commit(AgentTransferRemove(ds[0]))] + DestroyEach(ds[1..])
  }

  function CheckpointEach(rs: seq<TransferRecord>): seq<Effect> {
    if rs == [] then [] else [Commit(AgentTransferUpsert(rs[0]))] + CheckpointEach(rs[1..])
  }

  lemma {:induction false} DestroyEachSnoc(ds: seq<Id>, d: Id)
    ensures DestroyEach(ds + [d]) == DestroyEach(ds) + [RemoveStaging(d), Commit(AgentTransferRemove(d))]
    decreases |ds|
  {
    if ds == [] {
      assert ds + [d] == [d];
      assert DestroyEach([d]) == [RemoveStaging(d), Commit(AgentTransferRemove(d))] + DestroyEach([]);
    } else {
      assert (ds + [d])[1..] == ds[1..] + [d];
      DestroyEachSnoc(ds[1..], d);
    }
  }

  lemma {:induction false} CheckpointEachSnoc(rs: seq<TransferRecord>, r: TransferRecord)
    ensures CheckpointEach(rs + [r]) == CheckpointEach(rs) + [Commit(AgentTransferUpsert(r))]
    decreases |rs|
  {
    if rs == [] {
      assert rs + [r] == [r];
    } else {
      assert (rs + [r])[1..] == rs[1..] + [r];
      CheckpointEachSnoc(rs[1..], r);
    }
  }

  class TargetAgent {
    const cfg: Config
    var mem: AgentState
    var dur: AgentState
    var files: Files
    var chunkCounter: nat
    ghost var switches: seq<Switch>
    ghost const origin: World
    ghost var log: seq<Effect>

    ghost function View(): World
      reads this
    {
      World(mem, dur, files, chunkCounter, switches)
    }

    /** Everything that happened since this process started is in the log. */
    ghost predicate Valid()
      reads this
    {
      View() == Run(origin, log)
    }

    /** A process starts on what the dead one left: the durable state becomes the state in memory. */
    constructor (cfg: Config, durable: AgentState, files: Files, ghost history: seq<Switch>)
      ensures Valid() && this.cfg == cfg && log == []
      ensures View() == World(durable, durable, files, 0, history)
    {
      this.cfg := cfg;
      mem, dur := durable, durable;
      this.files := files;
      chunkCounter := 0;
      switches := history;
      origin := World(durable, durable, files, 0, history);
      log := [];
    }

    // ---- Single effects ----

    ghost predicate Did(w: World, es: seq<Effect>, e: Effect)
      reads this
    {
      Valid() && View() == Do(w, e) && log == es + [e]
    }

    ghost method Note(e: Effect)
      requires View() == Do(Run(origin, log), e)
      modifies `log
      ensures Valid() && log == old(log) + [e]
    {
      RunConcat(origin, log, [e]);
      log := log + [e];
    }

    method CommitRecord(r: Record)
      requires Valid()
      modifies this
      ensures Did(old(View()), old(log), Commit(r))
    {
      mem := Apply(mem, r);
      dur := Apply(dur, r);
      Note(Commit(r));
    }

    method RememberTransfer(t: TransferRecord)
      requires Valid()
      modifies this
      ensures Did(old(View()), old(log), Remember(t))
    {
      mem := mem.(transfers := mem.transfers[t.deployment := t]);
      Note(Remember(t));
    }

    method CountOneChunk()
      requires Valid()
      modifies this
      ensures Did(old(View()), old(log), CountChunk)
    {
      chunkCounter := chunkCounter + 1;
      Note(CountChunk);
    }

    method CountActivation()
      requires Valid()
      modifies this
      ensures Did(old(View()), old(log), BumpActivations)
    {
      if mem.counters.activations != U64_LIMIT - 1 {
        mem := mem.(counters := mem.counters.(activations := mem.counters.activations + 1));
      }
      Note(BumpActivations);
    }

    /** Any effect on files other than the pointer switch. */
    method ChangeFiles(e: Effect)
      requires Valid() && !e.SwitchCurrent?
      requires !e.Commit? && !e.Remember? && !e.CountChunk? && !e.BumpActivations?
      modifies this
      ensures Did(old(View()), old(log), e)
    {
      files := DoFiles(files, e);
      Note(e);
    }

    method SwitchPointer(k: Id, p: Pointer)
      requires Valid()
      modifies this
      ensures Did(old(View()), old(log), SwitchCurrent(k, p))
    {
      files := files.(current := files.current[k := p]);
      switches := switches + [Switch(k, p.generation, p.digest)];
      Note(SwitchCurrent(k, p));
    }

    // ---- Handlers ----

    /** Since the world `w`, reached by the effects `before`, exactly the effects `es` happened. */
    ghost predicate Performed(w: World, before: seq<Effect>, es: seq<Effect>)
      reads this
    {
      Valid() && w == Run(origin, before) && log == before + es
    }

    /** What that means for the world the process is in. */
    lemma PerformedRuns(w: World, before: seq<Effect>, es: seq<Effect>)
      requires Performed(w, before, es)
      ensures View() == Run(w, es)
    {
      RunConcat(origin, before, es);
    }

    method OnHello(f: ControllerFence) returns (replies: seq<Reply>)
      requires Valid()
      modifies this
      ensures Performed(old(View()), old(log), HelloOutcome(old(View()), f).effects)
      ensures replies == HelloOutcome(old(View()), f).replies
    {
      ghost var w, before := View(), log;
      if mem.fence.epoch != 0 {
        if f.epoch < mem.fence.epoch {
          return [AuthReject(StaleEpoch)];
        }
        if f.epoch == mem.fence.epoch && mem.fence.incarnation != Zeros(16) && f.incarnation != mem.fence.incarnation {
          return [AuthReject(FencedIncarnation)];
        }
      }
      CommitRecord(AgentControllerFence(f));
      replies := [HelloAck(mem.identity.target, mem.identity.klass, mem.identity.guarantee,
                           mem.identity.term, mem.identity.incarnation, mem.committed)];
    }

    method DestroyTransfer(d: Id)
      requires Valid()
      modifies this
      ensures Performed(old(View()), old(log), Destroy(old(View()), d))
    {
      ghost var w, before := View(), log;
      ChangeFiles(RemoveStaging(d));
      if d in mem.transfers {
        CommitRecord(AgentTransferRemove(d));
      }
    }

    method OnPrepare(m: PrepareMessage, now: i64) returns (replies: seq<Reply>)
      requires Valid()
      modifies this
      ensures Performed(old(View()), old(log), PrepareOutcome(cfg, old(View()), m, now).effects)
      ensures replies == PrepareOutcome(cfg, old(View()), m, now).replies
    {
      ghost var w, before := View(), log;
      var committed := mem.committed;
      if m.sizeBytes > cfg.maxArtifactBytes {
        return [PrepareReject(m.deployment, OversizePayload, committed.generation)];
      }
      if IsSet(committed) && m.generation < committed.generation {
        var note := NoteStale(mem.counters);
        CommitRecord(note.record);
        return [PrepareReject(m.deployment, StaleGeneration, committed.generation)];
      }
      if IsSet(committed) && m.generation == committed.generation && m.digest != committed.digest {
        var note := NoteStale(mem.counters);
        CommitRecord(note.record);
        return [PrepareReject(m.deployment, GenerationConflict, committed.generation)];
      }
      if !GuaranteeSatisfies(cfg.guarantee, m.requirement) {
        return [PrepareReject(m.deployment, GuaranteeUnsupported, committed.generation)];
      }
      if mem.window.applyPrepared {
        return [PrepareReject(m.deployment, Busy, committed.generation)];
      }
      var finding := FindFinding(mem.findings, m.key, m.digest);
      if finding.Some? && IsActivationState(finding.value.state) && finding.value.generation == m.generation {
        var note := NoteDuplicate(mem.counters);
        CommitRecord(note.record);
        return [PrepareAck(m.deployment, m.stream, m.sizeBytes, true, finding.value.generation, finding.value.digest, committed)];
      }
      replies := BeginOrResume(m, committed, now);
    }

    /** The tail of onPrepare: the resume point, then the new transfer record. */
    method BeginOrResume(m: PrepareMessage, committed: Pointer, now: i64) returns (replies: seq<Reply>)
      requires Valid()
      modifies this
      ensures var (resumeFrom, stale) := ResumePoint(old(View()), m);
              && Performed(old(View()), old(log),
                           (if stale then Destroy(old(View()), m.deployment) else []) +
                           [Commit(AgentTransferUpsert(NewTransfer(m, resumeFrom, now)))])
              && replies == [PrepareAck(m.deployment, m.stream, resumeFrom, false, committed.generation, committed.digest, committed)]
    {
      ghost var w, before := View(), log;
      var resumeFrom: u64 := 0;
      ghost var destroyed: seq<Effect> := [];
      if m.deployment in mem.transfers {
        var r := mem.transfers[m.deployment];
        if SameContent(r, m) && r.verified {
          if m.deployment in files.staging && |files.staging[m.deployment]| == r.totalBytes {
            resumeFrom := r.totalBytes;
          } else {
            DestroyTransfer(m.deployment);
            destroyed := Destroy(w, m.deployment);
          }
        } else if SameContent(r, m) {
          if m.deployment in files.staging {
            var onDisk := |files.staging[m.deployment]|;
            resumeFrom := if onDisk < r.bytesReceived then onDisk else r.bytesReceived;
          }
        } else {
          DestroyTransfer(m.deployment);
          destroyed := Destroy(w, m.deployment);
        }
      }
      var t := NewTransfer(m, resumeFrom, now);
      CommitRecord(AgentTransferUpsert(t));
      assert log == before + (destroyed + [Commit(AgentTransferUpsert(t))]);
      replies := [PrepareAck(m.deployment, m.stream, resumeFrom, false, committed.generation, committed.digest, committed)];
    }

    /** The first transfer in identifier order whose stream matches. */
    method SelectStream(stream: u64) returns (found: Option<Id>)
      ensures found == FindStream(mem.transfers, stream)
    {
      found := None;
      var rest := mem.transfers.Keys;
      while rest != {}
        invariant rest <= mem.transfers.Keys
        invariant found.None? ==> forall d :: d in mem.transfers && d !in rest ==> mem.transfers[d].stream != stream
        invariant found.Some? ==> found.value in mem.transfers && mem.transfers[found.value].stream == stream
        invariant found.Some? ==>
                    forall d :: d in mem.transfers && d !in rest && mem.transfers[d].stream == stream ==> !Before(d, found.value)
        decreases rest
      {
        var d :| d in rest;
        rest := rest - {d};
        if mem.transfers[d].stream == stream && (found.None? || Before(d, found.value)) {
          forall e | e in mem.transfers && e !in rest && mem.transfers[e].stream == stream ensures !Before(e, d) {
            if Before(e, d) {
              if e == d { NotBeforeItself(d); }
              else { BeforeTransitive(e, d, found.value); }
            }
          }
          found := Some(d);
        }
      }
      if found.Some? {
        assert IsFirstWithStream(mem.transfers, stream, found.value);
        FirstWithStreamUnique(mem.transfers, stream, found.value, FindStream(mem.transfers, stream).value);
      }
    }

    static lemma {:induction false} NotBeforeItself(a: Id)
      ensures !Before(a, a)
    {
      if a != "" { NotBeforeItself(a[1..]); }
    }

    method OnChunk(stream: u64, offset: u64, data: Bytes, now: i64) returns (replies: seq<Reply>)
      requires Valid()
      modifies this
      ensures Performed(old(View()), old(log), ChunkOutcome(old(View()), stream, offset, data, now).effects)
      ensures replies == ChunkOutcome(old(View()), stream, offset, data, now).replies
    {
      ghost var w, before := View(), log;
      var found := SelectStream(stream);
      if found.None? {
        return [ChunkAck(stream, 0, NotFound)];
      }
      var d := found.value;
      var r := mem.transfers[d];
      if offset != r.bytesReceived {
        return [ChunkAck(stream, r.bytesReceived, ReorderedFrame)];
      }
      if offset + |data| > r.totalBytes {
        return [ChunkAck(stream, r.bytesReceived, SizeMismatch)];
      }
      if r.bytesReceived != 0 && d !in files.staging {
        return [ChunkAck(stream, r.bytesReceived, IoFailure)];
      }
      AcceptChunk(d, data, now);
      replies := [ChunkAck(stream, offset + |data|, Success)];
    }

    method AcceptChunk(d: Id, data: Bytes, now: i64)
      requires Valid() && d in mem.transfers
      requires mem.transfers[d].bytesReceived + |data| <= mem.transfers[d].totalBytes
      modifies this
      ensures Performed(old(View()), old(log), ChunkEffects(old(View()), d, data, now))
    {
      hide Run, Overwrite;
      ghost var w, before := View(), log;
      var r := mem.transfers[d];
      if r.bytesReceived == 0 {
        ChangeFiles(TruncateStaging(d));
      }
      ChangeFiles(WriteStaging(d, r.bytesReceived, data));
      CountOneChunk();
      var updated := r.(bytesReceived := r.bytesReceived + |data|, updatedAt := now);
      if chunkCounter % CHECKPOINT_CHUNKS == 0 || updated.bytesReceived == updated.totalBytes {
        CommitRecord(AgentTransferUpsert(updated));
      } else {
        RememberTransfer(updated);
      }
      assert log == before + ChunkEffects(w, d, data, now);
    }

    method OnTransferComplete(d: Id, digest: Digest, sizeBytes: u64, now: i64) returns (replies: seq<Reply>)
      requires Valid()
      modifies this
      ensures Performed(old(View()), old(log), CompleteOutcome(cfg, old(View()), d, digest, sizeBytes, now).effects)
      ensures replies == CompleteOutcome(cfg, old(View()), d, digest, sizeBytes, now).replies
    {
      ghost var w, before := View(), log;
      if d !in mem.transfers {
        return [TransferResult(d, false, 0, NotFound)];
      }
      var r := mem.transfers[d];
      if r.bytesReceived != r.totalBytes {
        return [TransferResult(d, false, r.bytesReceived, SizeMismatch)];
      }
      if digest != r.digest || sizeBytes != r.totalBytes {
        return [TransferResult(d, false, r.bytesReceived, Conflict)];
      }
      var hashed := d in files.staging && (r.totalBytes != 0 ==> |files.staging[d]| == r.totalBytes)
                    && cfg.hash(files.staging[d]) == r.digest;
      if !hashed {
        var note := NoteRejection(mem.counters);
        CommitRecord(note.record);
        DestroyTransfer(d);
        assert log == before + ([note] + Destroy(w, d));
        return [TransferResult(d, false, r.bytesReceived, DigestMismatch), DeliveryNack(d, DigestMismatch)];
      }
      CommitRecord(AgentTransferUpsert(r.(verified := true, updatedAt := now)));
      replies := [TransferResult(d, true, r.bytesReceived, Success)];
    }

    method OnStage(d: Id, generation: u64, digest: Digest, now: i64) returns (replies: seq<Reply>)
      requires Valid()
      modifies this
      ensures Performed(old(View()), old(log), StageOutcome(old(View()), d, generation, digest, now).effects)
      ensures replies == StageOutcome(old(View()), d, generation, digest, now).replies
    {
      ghost var w, before := View(), log;
      if d !in mem.transfers {
        return [StageAck(d, false, NotFound)];
      }
      var r := mem.transfers[d];
      var refusal := if !r.verified then NotPrepared
                     else if digest != r.digest || generation != r.generation then Conflict
                     else if IsSet(mem.committed) && generation < mem.committed.generation then StaleGeneration
                     else if d !in files.staging then ArtifactUnavailable
                     else Success;
      if refusal != Success {
        return [StageAck(d, false, refusal)];
      }
      ChangeFiles(PlacePayload(d, r.key, r.generation, r.digest));
      CommitRecord(AgentTransferUpsert(r.(staged := true, updatedAt := now)));
      replies := [StageAck(d, true, Success)];
    }

    method OnApplyPrepare(d: Id, generation: u64, digest: Digest) returns (replies: seq<Reply>)
      requires Valid()
      modifies this
      ensures Performed(old(View()), old(log), ApplyPrepareOutcome(cfg, old(View()), d, generation, digest).effects)
      ensures replies == ApplyPrepareOutcome(cfg, old(View()), d, generation, digest).replies
    {
      ghost var w, before := View(), log;
      if cfg.guarantee == AtomicActivate {
        return [ApplyPrepareAck(d, false, UnexpectedMessage)];
      }
      if d !in mem.transfers || !mem.transfers[d].staged {
        return [ApplyPrepareAck(d, false, NotPrepared)];
      }
      var r := mem.transfers[d];
      var refusal := if IsSet(mem.committed) && generation < mem.committed.generation then StaleGeneration
                     else if digest != r.digest || generation != r.generation then Conflict
                     else if mem.window.applyPrepared then Busy
                     else Success;
      if refusal != Success {
        return [ApplyPrepareAck(d, false, refusal)];
      }
      ChangeFiles(WritePending(r.key, Pointer(r.generation, r.digest, UNSET)));
      CommitRecord(AgentApplyPrepared(r.deployment, r.generation, r.digest));
      replies := [ApplyPrepareAck(d, true, Success)];
    }

    method RecordGeneration(r: TransferRecord, now: i64)
      requires Valid()
      modifies this
      ensures Performed(old(View()), old(log),
                        CommitGeneration(old(mem.window.applyPrepared), old(mem.counters.activations), old(mem.counters), r, now))
    {
      ghost var w, before := View(), log;
      var counters := mem.counters;
      ghost var open := mem.window.applyPrepared;
      if mem.window.applyPrepared {
        CommitRecord(AgentApplyResolved(Next64(mem.counters.activations)));
      }
      CommitRecord(AgentTargetCommit(Pointer(r.generation, r.digest, r.artifact)));
      CommitRecord(AgentFindingUpsert(AppliedFinding(r.key, r.generation, r.digest, r.artifact, r.deployment, Applied, now)));
      CountActivation();
      CommitRecord(CounterNote(counters).record);
      assert log == before + CommitGeneration(open, counters.activations, counters, r, now);
    }

    method ActivateTransfer(r: TransferRecord, explicit: bool, now: i64)
      requires Valid()
      modifies this
      ensures Performed(old(View()), old(log), Activate(old(View()), r, explicit, now))
    {
      ghost var w, before := View(), log;
      var p := Pointer(r.generation, r.digest, r.artifact);
      if explicit && !mem.window.applyPrepared {
        ChangeFiles(WritePending(r.key, p));
        CommitRecord(AgentApplyPrepared(r.deployment, r.generation, r.digest));
      }
      SwitchPointer(r.key, p);
      if explicit {
        ChangeFiles(RemovePending(r.key));
      }
      ghost var half := log;
      assert half == before + (OpenWindow(w, r, explicit) + [SwitchCurrent(r.key, p)] + if explicit then [RemovePending(r.key)] else []);
      assert mem.counters == w.mem.counters && (mem.window.applyPrepared <==> w.mem.window.applyPrepared || explicit);
      RecordGeneration(r, now);
      assert log == before + Activate(w, r, explicit, now);
    }

    method OnApplyCommit(d: Id, generation: u64, digest: Digest, now: i64) returns (replies: seq<Reply>)
      requires Valid()
      modifies this
      ensures Performed(old(View()), old(log), ApplyCommitOutcome(cfg, old(View()), d, generation, digest, now).effects)
      ensures replies == ApplyCommitOutcome(cfg, old(View()), d, generation, digest, now).replies
    {
      ghost var w, before := View(), log;
      var committed := mem.committed;
      if IsSet(committed) && generation < committed.generation {
        var note := NoteStale(mem.counters);
        CommitRecord(note.record);
        return [ApplyCommitAck(d, false, StaleGeneration, committed.generation, committed.digest), DeliveryNack(d, StaleGeneration)];
      }
      if IsSet(committed) && generation == committed.generation && digest == committed.digest {
        var note := NoteDuplicate(mem.counters);
        var ack := SignedAck(d, UNSET, committed, committed.artifact, 0, now);
        CommitRecord(note.record);
        return [ApplyCommitAck(d, true, DuplicateSuppressed, committed.generation, committed.digest), ack];
      }
      if IsSet(committed) && generation == committed.generation {
        return [ApplyCommitAck(d, false, GenerationConflict, committed.generation, committed.digest), DeliveryNack(d, GenerationConflict)];
      }
      if d !in mem.transfers || !mem.transfers[d].staged {
        var recorded := HasActivation(generation, digest);
        if !recorded {
          return [ApplyCommitAck(d, false, NotPrepared, committed.generation, committed.digest), DeliveryNack(d, NotPrepared)];
        }
        var ack := SignedAck(d, UNSET, Pointer(generation, digest, UNSET), committed.artifact, 0, now);
        return [ApplyCommitAck(d, true, DuplicateSuppressed, committed.generation, committed.digest), ack];
      }
      var r := mem.transfers[d];
      var refusal := if digest != r.digest || generation != r.generation then Conflict
                     else if cfg.guarantee == PrepareCommitAbort && !mem.window.applyPrepared then NotPrepared
                     else if mem.window.applyPrepared && mem.window.deployment != d then Conflict
                     else Success;
      if refusal != Success {
        return [ApplyCommitAck(d, false, refusal, committed.generation, committed.digest), DeliveryNack(d, refusal)];
      }
      var ack := SignedAck(d, r.key, Pointer(r.generation, r.digest, r.artifact),
                           if r.artifact == UNSET then committed.artifact else r.artifact, r.totalBytes, now);
      ActivateTransfer(r, cfg.guarantee == PrepareCommitAbort, now);
      replies := [ApplyCommitAck(d, true, Success, r.generation, r.digest), ack];
    }

    method SignedAck(d: Id, key: Id, p: Pointer, artifact: Id, bytes: u64, now: i64) returns (ack: Reply)
      ensures ack == AckMessage(View(), d, key, p, artifact, bytes, now)
    {
      ack := DeliveryAck(DeliveryAckMessage(d, key, p.generation, p.digest, artifact, Applied,
                                            mem.identity.term, mem.identity.incarnation, mem.fence.epoch,
                                            mem.identity.guarantee, bytes, now, false));
    }

    /** The search over the findings table that ends at the first match. */
    method HasActivation(generation: u64, digest: Digest) returns (recorded: bool)
      ensures recorded == RecordedActivation(mem.findings, generation, digest)
    {
      for i := 0 to |mem.findings|
        invariant !RecordedActivation(mem.findings[..i], generation, digest)
      {
        var f := mem.findings[i];
        assert mem.findings[..i + 1] == mem.findings[..i] + [f];
        if f.generation == generation && f.digest == digest && IsActivationState(f.state) {
          assert f in mem.findings;
          return true;
        }
      }
      assert mem.findings[..|mem.findings|] == mem.findings;
      recorded := false;
    }

    method OnApplyAbort(d: Id, generation: u64) returns (replies: seq<Reply>)
      requires Valid()
      modifies this
      ensures Performed(old(View()), old(log), ApplyAbortOutcome(old(View()), d, generation).effects)
      ensures replies == ApplyAbortOutcome(old(View()), d, generation).replies
    {
      hide Run;
      ghost var w, before := View(), log;
      if !mem.window.applyPrepared {
        return [ApplyAbortAck(d, false, NotPrepared)];
      }
      if d != mem.window.deployment || generation != mem.window.generation {
        return [ApplyAbortAck(d, false, Conflict)];
      }
      if d in mem.transfers {
        ChangeFiles(RemovePending(mem.transfers[d].key));
      }
      CommitRecord(NoteRollback(mem.counters).record);
      CommitRecord(AgentApplyResolved(mem.counters.activations));
      assert log == before + ApplyAbortOutcome(w, d, generation).effects;
      replies := [ApplyAbortAck(d, true, Success)];
    }

    method OnRetire(d: Id, generation: u64) returns (replies: seq<Reply>)
      requires Valid()
      modifies this
      ensures Performed(old(View()), old(log), RetireOutcome(old(View()), d, generation).effects)
      ensures replies == RetireOutcome(old(View()), d, generation).replies
    {
      ghost var w, before := View(), log;
      if IsSet(mem.committed) && generation >= mem.committed.generation {
        return [RetireAck(d, false)];
      }
      DestroyTransfer(d);
      replies := [RetireAck(d, true)];
    }

    // ---- Start-up ----

    method RemoveStrays(names: seq<Id>)
      requires Valid()
      modifies this
      ensures Performed(old(View()), old(log), Strays(old(View()), names))
      ensures mem == old(mem) && dur == old(dur)
      ensures forall d :: d in mem.transfers ==> (d in files.staging <==> d in old(files.staging))
      ensures forall d :: d in mem.transfers && d in files.staging ==> files.staging[d] == old(files.staging[d])
    {
      ghost var w, before := View(), log;
      for i := 0 to |names|
        invariant Valid() && mem == w.mem && dur == w.dur
        invariant log + Strays(w, names[i..]) == before + Strays(w, names)
        invariant forall d :: d in mem.transfers ==> (d in files.staging <==> d in w.files.staging)
        invariant forall d :: d in mem.transfers && d in files.staging ==> files.staging[d] == w.files.staging[d]
      {
        assert names[i..][0] == names[i] && names[i..][1..] == names[i + 1..];
        if names[i] !in mem.transfers {
          ChangeFiles(RemoveStaging(names[i]));
        }
      }
    }

    static predicate SameFile(v: World, w: World, d: Id) {
      (d in v.files.staging <==> d in w.files.staging) && (d in v.files.staging ==> v.files.staging[d] == w.files.staging[d])
    }

    /** The staging file of `d` is as it was in `w`. */
    ghost predicate Untouched(w: World, d: Id)
      reads this
    {
      SameFile(View(), w, d)
    }

    /** What recovery decides about one recorded transfer, cutting its file when that is too long. */
    method TrimOne(d: Id) returns (supported: bool, resized: bool)
      requires Valid() && d in mem.transfers
      modifies this
      ensures Valid() && mem == old(mem) && dur == old(dur)
      ensures supported == Supported(old(View()), d) && resized == Oversized(old(View()), d)
      ensures log == old(log) + if resized then [ResizeStaging(d, mem.transfers[d].bytesReceived)] else []
      ensures forall e :: e != d ==> Untouched(old(View()), e)
    {
      var r := mem.transfers[d];
      supported := d in files.staging && |files.staging[d]| >= r.bytesReceived;
      resized := supported && |files.staging[d]| > r.bytesReceived;
      if resized {
        ChangeFiles(ResizeStaging(d, r.bytesReceived));
      }
    }

    /** The three passes of recovery over the transfers, unrolled by one. */
    static lemma TrimStep(w: World, ds: seq<Id>, i: nat)
      requires i < |ds| && Known(w, ds)
      ensures Known(w, ds[i..]) && Known(w, ds[i + 1..]) && ds[i] in w.mem.transfers
      ensures Resizes(w, ds[i..]) ==
              (if Oversized(w, ds[i]) then [ResizeStaging(ds[i], w.mem.transfers[ds[i]].bytesReceived)] else [])
              + Resizes(w, ds[i + 1..])
      ensures Discards(w, ds[i..]) ==
              (if Supported(w, ds[i]) then [] else [RemoveStaging(ds[i]), Commit(AgentTransferRemove(ds[i]))])
              + Discards(w, ds[i + 1..])
      ensures Checkpoints(w, ds[i..]) ==
              (if Oversized(w, ds[i]) then [Commit(AgentTransferUpsert(w.mem.transfers[ds[i]]))] else [])
              + Checkpoints(w, ds[i + 1..])
    {
      assert ds[i..][0] == ds[i] && ds[i..][1..] == ds[i + 1..];
    }

    method TrimTransfers(ds: seq<Id>) returns (discard: seq<Id>, resized: seq<TransferRecord>)
      requires Valid() && Distinct(ds) && Known(View(), ds)
      modifies this
      ensures Known(old(View()), ds) && mem == old(mem) && dur == old(dur)
      ensures Performed(old(View()), old(log), Resizes(old(View()), ds))
      ensures DestroyEach(discard) == Discards(old(View()), ds)
      ensures CheckpointEach(resized) == Checkpoints(old(View()), ds)
      ensures Distinct(discard) && forall d :: d in discard ==> d in mem.transfers
    {
      hide Run, Resizes, Discards, Checkpoints, DestroyEach, CheckpointEach;
      ghost var w, before := View(), log;
      discard, resized := [], [];
      assert ds[0..] == ds;
      TrimNone(w, ds[|ds|..]);
      for i := 0 to |ds|
        invariant Valid() && mem == w.mem && dur == w.dur
        invariant Known(w, ds[i..])
        invariant log + Resizes(w, ds[i..]) == before + Resizes(w, ds)
        invariant DestroyEach(discard) + Discards(w, ds[i..]) == Discards(w, ds)
        invariant CheckpointEach(resized) + Checkpoints(w, ds[i..]) == Checkpoints(w, ds)
        invariant forall j :: i <= j < |ds| ==> Untouched(w, ds[j])
        invariant Distinct(discard) && forall d :: d in discard ==> d in ds[..i]
      {
        TrimStep(w, ds, i);
        assert ds[..i + 1] == ds[..i] + [ds[i]] && ds[i] !in ds[..i];
        ghost var v := View();
        assert Untouched(w, ds[i]);
        assert forall j :: i <= j < |ds| ==> SameFile(v, w, ds[j]);
        var supported, oversized := TrimOne(ds[i]);
        if !supported {
          DestroyEachSnoc(discard, ds[i]);
          discard := discard + [ds[i]];
        } else if oversized {
          CheckpointEachSnoc(resized, mem.transfers[ds[i]]);
          resized := resized + [mem.transfers[ds[i]]];
        }
        forall j | i + 1 <= j < |ds| ensures Untouched(w, ds[j]) {
          assert ds[j] != ds[i] && SameFile(v, w, ds[j]) && Untouched(v, ds[j]);
        }
      }
      assert ds[..|ds|] == ds;
    }

    static lemma TrimNone(w: World, ds: seq<Id>)
      requires ds == []
      ensures Resizes(w, ds) == [] && Discards(w, ds) == [] && Checkpoints(w, ds) == []
      ensures DestroyEach([]) == [] && CheckpointEach([]) == []
    {
    }

    method DestroyAll(discard: seq<Id>)
      requires Valid() && Distinct(discard) && forall d :: d in discard ==> d in mem.transfers
      modifies this
      ensures Performed(old(View()), old(log), DestroyEach(discard))
    {
      ghost var w, before := View(), log;
      for i := 0 to |discard|
        invariant Valid()
        invariant log + DestroyEach(discard[i..]) == before + DestroyEach(discard)
        invariant forall j :: i <= j < |discard| ==> discard[j] in mem.transfers
      {
        assert discard[i..][0] == discard[i] && discard[i..][1..] == discard[i + 1..];
        ghost var mid := log;
        ghost var v := View();
        assert Destroy(v, discard[i]) == [RemoveStaging(discard[i]), Commit(AgentTransferRemove(discard[i]))];
        TwoEffects(cfg, v, RemoveStaging(discard[i]), Commit(AgentTransferRemove(discard[i])));
        DestroyTransfer(discard[i]);
        PerformedRuns(v, mid, Destroy(v, discard[i]));
        assert mem.transfers == v.mem.transfers - {discard[i]};
        forall j | i + 1 <= j < |discard| ensures discard[j] in mem.transfers {
          assert discard[j] != discard[i];
        }
      }
    }

    method CheckpointAll(resized: seq<TransferRecord>)
      requires Valid()
      modifies this
      ensures Performed(old(View()), old(log), CheckpointEach(resized))
    {
      ghost var w, before := View(), log;
      for i := 0 to |resized|
        invariant Valid()
        invariant log + CheckpointEach(resized[i..]) == before + CheckpointEach(resized)
      {
        assert resized[i..][0] == resized[i] && resized[i..][1..] == resized[i + 1..];
        CommitRecord(AgentTransferUpsert(resized[i]));
      }
    }

    method ResolveMarker(k: Id)
      requires Valid()
      modifies this
      ensures Performed(old(View()), old(log), ResolvePending(old(View()), k))
    {
      ghost var w, before := View(), log;
      if k in files.pending {
        if !(k in files.current && files.current[k].generation == mem.window.generation && files.current[k].digest == mem.window.digest) {
          CommitRecord(NoteRollback(mem.counters).record);
        }
        ChangeFiles(RemovePending(k));
        if mem.window.applyPrepared {
          CommitRecord(AgentApplyResolved(mem.counters.activations));
        }
      }
      assert log == before + ResolvePending(w, k);
    }

    method FollowPointer(k: Id)
      requires Valid()
      modifies this
      ensures Performed(old(View()), old(log), AdoptPointer(cfg, old(View()), k))
    {
      ghost var w, before := View(), log;
      if k in files.current {
        var p := files.current[k];
        var verified := !cfg.verifyOnStart
                        || ((k, p.generation, p.digest) in files.payload && cfg.hash(files.payload[(k, p.generation, p.digest)]) == p.digest);
        if !verified {
          CommitRecord(AgentTargetCommit(NOTHING));
        } else if !(p.generation == mem.committed.generation && p.digest == mem.committed.digest && IsSet(mem.committed)) {
          CommitRecord(AgentTargetCommit(p));
        }
      } else if IsSet(mem.committed) {
        CommitRecord(AgentTargetCommit(NOTHING));
      }
      assert log == before + AdoptPointer(cfg, w, k);
    }

    method RecoverDirectory(k: Id)
      requires Valid()
      modifies this
      ensures Performed(old(View()), old(log), RecoverKey(cfg, old(View()), k))
    {
      ghost var w, before := View(), log;
      ResolveMarker(k);
      PerformedRuns(w, before, ResolvePending(w, k));
      FollowPointer(k);
      assert log == before + RecoverKey(cfg, w, k);
    }

    static lemma RecoverKeysStep(cfg: Config, v: World, keys: seq<Id>, i: nat)
      requires i < |keys|
      ensures RecoverKeys(cfg, v, keys[i..])
           == if Skipped(cfg.liveRoot, keys[i]) then RecoverKeys(cfg, v, keys[i + 1..])
              else RecoverKey(cfg, v, keys[i]) + RecoverKeys(cfg, Run(v, RecoverKey(cfg, v, keys[i])), keys[i + 1..])
    {
      assert keys[i..][0] == keys[i] && keys[i..][1..] == keys[i + 1..];
    }

    /** The walk: a directory called "payload" is passed over, whatever it holds. */
    method RecoverKeyDirectories(keys: seq<Id>)
      requires Valid()
      modifies this
      ensures Performed(old(View()), old(log), RecoverKeys(cfg, old(View()), keys))
    {
      hide Run, RecoverKeys, RecoverKey, Skipped;
      ghost var w, before := View(), log;
      assert keys[0..] == keys;
      for i := 0 to |keys|
        invariant Valid()
        invariant log + RecoverKeys(cfg, View(), keys[i..]) == before + RecoverKeys(cfg, w, keys)
      {
        ghost var v, so := View(), log;
        RecoverKeysStep(cfg, v, keys, i);
        if Skipped(cfg.liveRoot, keys[i]) { continue; }
        RecoverDirectory(keys[i]);
        PerformedRuns(v, so, RecoverKey(cfg, v, keys[i]));
      }
      NoKeys(cfg, View(), keys[|keys|..]);
    }

    static lemma NoKeys(cfg: Config, v: World, keys: seq<Id>)
      requires keys == []
      ensures RecoverKeys(cfg, v, keys) == []
    {
    }

    method RecoverStaging(l: Listing)
      requires Valid() && mem == dur && ValidListing(cfg, View(), l)
      modifies this
      ensures Performed(old(View()), old(log), RecoverTransfers(old(View()), l))
    {
      hide Run, Do, Resizes, Discards, Checkpoints, Strays, DestroyEach, CheckpointEach;
      ghost var w, before := View(), log;
      RemoveStrays(l.staged);
      SameDecisions(w, View(), l.transfers);
      var discard, resized := TrimTransfers(l.transfers);
      DestroyAll(discard);
      CheckpointAll(resized);
      assert log == before + RecoverTransfers(w, l);
    }

    method RecoverPointers(l: Listing)
      requires Valid()
      modifies this
      ensures Performed(old(View()), old(log), RecoverLive(cfg, old(View()), l))
    {
      ghost var w, before := View(), log;
      RecoverKeyDirectories(l.keys);
      PerformedRuns(w, before, RecoverKeys(cfg, w, l.keys));
      if mem.window.applyPrepared {
        var counters := mem.counters;
        CommitRecord(NoteRollback(counters).record);
        CommitRecord(AgentApplyResolved(counters.activations));
      }
      assert log == before + RecoverLive(cfg, w, l);
    }

    /** `recoverLiveArea`. */
    method RecoverLiveArea(l: Listing)
      requires Valid() && mem == dur && ValidListing(cfg, View(), l)
      modifies this
      ensures var w := old(View());
              var transfers := RecoverTransfers(w, l);
              Performed(w, old(log), transfers + RecoverLive(cfg, Run(w, transfers), l))
    {
      hide Run, RecoverTransfers, RecoverLive;
      ghost var w, before := View(), log;
      RecoverStaging(l);
      PerformedRuns(w, before, RecoverTransfers(w, l));
      RecoverPointers(l);
    }

    /** Removing stray files changes no decision about a recorded transfer. */
    static lemma {:induction false} SameDecisions(w: World, w1: World, ds: seq<Id>)
      requires Known(w, ds) && w1.mem == w.mem
      requires forall d :: d in w.mem.transfers ==> (d in w1.files.staging <==> d in w.files.staging)
      requires forall d :: d in w.mem.transfers && d in w.files.staging ==> w1.files.staging[d] == w.files.staging[d]
      ensures Known(w1, ds)
      ensures Resizes(w1, ds) == Resizes(w, ds) && Discards(w1, ds) == Discards(w, ds) && Checkpoints(w1, ds) == Checkpoints(w, ds)
      decreases |ds|
    {
      if ds != [] { SameDecisions(w, w1, ds[1..]); }
    }

    /** `open`, from the identity record on: the process is live only when this returns. */
    method Start(l: Listing)
      requires Valid() && View().mem == View().dur && CanBoot(View().mem) && ValidListing(cfg, View(), l)
      modifies this
      ensures Performed(old(View()), old(log), Boot(cfg, old(View()), l))
    {
      ghost var w, before := View(), log;
      var id := AgentIdentity(NextIdentity(cfg, mem, l.incarnation));
      CommitRecord(id);
      RecoverLiveArea(l);
      BootShape(cfg, w, l);
      assert log == before + Boot(cfg, w, l);
    }
  }
}
