/** A delivery goes through: whatever the state of a serving agent, an admissible offer followed by the artifact in any
    chunks, the completion, the staging and the commit ends with the live pointer at exactly that content. */
module AgentProgress {
  import opened Prelude
  import opened Lifecycle
  import opened AgentState
  import opened Messages
  import opened AgentModel
  import opened AgentInvariants
  import opened AgentHandlers
  import AgentManyKeys
  import AgentRecovery
  import AgentRuns

  /** The agent has no reason to refuse the offer, and has not remembered activating it. */
  predicate Acceptable(cfg: Config, w: World, m: PrepareMessage) {
    && m.sizeBytes <= cfg.maxArtifactBytes && GuaranteeSatisfies(cfg.guarantee, m.requirement) && !w.mem.window.applyPrepared
    && (Newer(w, m) || Repeated(w, m)) && !Found(w, m)
  }

  /** How much of the offered content the agent has recorded as received. */
  function Held(w: World, m: PrepareMessage): u64 {
    if m.deployment in w.mem.transfers && w.mem.transfers[m.deployment].generation == m.generation
       && w.mem.transfers[m.deployment].digest == m.digest && w.mem.transfers[m.deployment].totalBytes == m.sizeBytes
    then w.mem.transfers[m.deployment].bytesReceived else 0
  }

  /** An acceptable offer of this content, of which the agent has nothing, a part or everything; its staging file, named
      after the deployment, needs no directory of its own. */
  ghost predicate Welcome(cfg: Config, w: World, m: PrepareMessage, content: Bytes) {
    && Decodable(Prepare(m)) && '/' !in m.deployment && m.sizeBytes == |content| && cfg.hash(content) == m.digest
    && Acceptable(cfg, w, m)
    && (Held(w, m) > 0 ==>
          Held(w, m) <= |content| && m.deployment in w.files.staging && w.files.staging[m.deployment] == content[..Held(w, m)])
    && forall d :: d in w.mem.transfers && d != m.deployment ==> w.mem.transfers[d].stream != m.stream
  }

  predicate Newer(w: World, m: PrepareMessage) {
    IsSet(w.mem.committed) ==> w.mem.committed.generation < m.generation
  }

  /** The very pair is committed already, through this key or another one. */
  predicate Repeated(w: World, m: PrepareMessage) {
    IsSet(w.mem.committed) && w.mem.committed.generation == m.generation && w.mem.committed.digest == m.digest
  }

  /** The agent remembers activating the pair for this very key. */
  predicate Found(w: World, m: PrepareMessage) {
    var f := FindFinding(w.mem.findings, m.key, m.digest);
    f.Some? && IsActivationState(f.value.state) && f.value.generation == m.generation
  }

  /** The agent holds the first `n` bytes of the offered content. */
  ghost predicate Holding(w: World, m: PrepareMessage, content: Bytes, n: u64, verified: bool, staged: bool) {
    && (Newer(w, m) || Repeated(w, m)) && m.deployment in w.mem.transfers
    && w.mem.transfers[m.deployment] ==
         TransferRecord(m.deployment, m.stream, m.key, m.artifact, m.generation, m.digest, m.sizeBytes, n, verified, staged,
                        w.mem.transfers[m.deployment].updatedAt)
    && (n > 0 ==> m.deployment in w.files.staging && n <= |content| && w.files.staging[m.deployment] == content[..n])
    && forall d :: d in w.mem.transfers && d != m.deployment ==> w.mem.transfers[d].stream != m.stream
  }

  /** Until the commit nothing changes but the transfer itself. */
  ghost predicate OnlyTransfer(m: PrepareMessage, w: World, w': World) {
    && w'.mem.committed == w.mem.committed && w'.dur.committed == w.dur.committed
    && w'.mem.findings == w.mem.findings && w'.dur.findings == w.dur.findings && w'.dur.identity == w.dur.identity
    && w'.switches == w.switches && w'.files.current == w.files.current
    && w'.files.pending.Keys <= w.files.pending.Keys + {m.key}
    && forall x :: x != m.deployment ==>
         (x in w'.mem.transfers <==> x in w.mem.transfers)
         && (x in w.mem.transfers ==> w'.mem.transfers[x] == w.mem.transfers[x])
  }

  lemma OnlyTransferTwice(m: PrepareMessage, a: World, b: World, c: World)
    ensures OnlyTransfer(m, a, b) && OnlyTransfer(m, b, c) ==> OnlyTransfer(m, a, c)
  {
  }

  function Says(m: Message, now: i64): Input {
    Input(m, now, [])
  }

  ghost function After(cfg: Config, w: World, m: Message, now: i64): World
    requires Decodable(m)
  {
    Run(w, Handle(cfg, w, Says(m, now)).effects)
  }

  lemma StaysAlive(cfg: Config, w: World, m: Message, now: i64)
    requires Alive(cfg, w) && Decodable(m)
    ensures Alive(cfg, After(cfg, w, m, now))
  {
    hide Handle, Run, AllSafe;
    HandleSound(cfg, w, Says(m, now));
  }

  // ---- What an offer resumes ----

  /** An accepted offer of content that was partly received goes on where the bytes end: the answer names the shorter of
      what is recorded and what is in the file, and no file changes. */
  lemma OfferResumes(cfg: Config, w: World, m: PrepareMessage, now: i64)
    requires Decodable(Prepare(m)) && Acceptable(cfg, w, m) && m.deployment in w.mem.transfers && m.deployment in w.files.staging
    requires var r := w.mem.transfers[m.deployment];
             r.digest == m.digest && r.generation == m.generation && r.totalBytes == m.sizeBytes && !r.verified
    ensures var w' := After(cfg, w, Prepare(m), now);
            var r, length := w.mem.transfers[m.deployment], |w.files.staging[m.deployment]|;
            var from := if length < r.bytesReceived then length else r.bytesReceived;
            && Handle(cfg, w, Says(Prepare(m), now)).replies ==
                 [PrepareAck(m.deployment, m.stream, from, false, w.mem.committed.generation, w.mem.committed.digest, w.mem.committed)]
            && w'.files == w.files && m.deployment in w'.mem.transfers && w'.mem.transfers[m.deployment].bytesReceived == from
  {
    var from := ResumePoint(w, m).0;
    OfferRecords(cfg, w, m, from, now);
  }

  lemma OfferRecords(cfg: Config, w: World, m: PrepareMessage, from: u64, now: i64)
    requires Decodable(Prepare(m)) && Acceptable(cfg, w, m) && ResumePoint(w, m) == (from, false)
    ensures var w' := After(cfg, w, Prepare(m), now);
            && w' == Do(w, Commit(AgentTransferUpsert(NewTransfer(m, from, now))))
            && Handle(cfg, w, Says(Prepare(m), now)).replies ==
                 [PrepareAck(m.deployment, m.stream, from, false, w.mem.committed.generation, w.mem.committed.digest, w.mem.committed)]
  {
    hide ResumePoint;
    var e := Commit(AgentTransferUpsert(NewTransfer(m, from, now)));
    OneEffect(cfg, w, e);
    assert [] + [e] == [e];
    assert PrepareOutcome(cfg, w, m, now).effects == [e];
  }

  /** Content already received and verified is not asked for again. */
  lemma OfferOfTheWhole(cfg: Config, w: World, m: PrepareMessage, now: i64)
    requires Decodable(Prepare(m)) && Acceptable(cfg, w, m) && m.deployment in w.mem.transfers && m.deployment in w.files.staging
    requires var r := w.mem.transfers[m.deployment];
             r.digest == m.digest && r.generation == m.generation && r.totalBytes == m.sizeBytes && r.verified
    requires |w.files.staging[m.deployment]| == m.sizeBytes
    ensures var w' := After(cfg, w, Prepare(m), now);
            && Handle(cfg, w, Says(Prepare(m), now)).replies ==
                 [PrepareAck(m.deployment, m.stream, m.sizeBytes, false, w.mem.committed.generation, w.mem.committed.digest, w.mem.committed)]
            && w'.files == w.files && m.deployment in w'.mem.transfers && w'.mem.transfers[m.deployment].bytesReceived == m.sizeBytes
  {
    OfferRecords(cfg, w, m, m.sizeBytes, now);
  }

  /** Other content under the same deployment is thrown away and the transfer begins again. */
  lemma OfferReplaces(cfg: Config, w: World, m: PrepareMessage, now: i64)
    requires Decodable(Prepare(m)) && Acceptable(cfg, w, m) && m.deployment in w.mem.transfers
    requires var r := w.mem.transfers[m.deployment]; r.digest != m.digest || r.generation != m.generation || r.totalBytes != m.sizeBytes
    ensures var w' := After(cfg, w, Prepare(m), now);
            && Handle(cfg, w, Says(Prepare(m), now)).replies ==
                 [PrepareAck(m.deployment, m.stream, 0, false, w.mem.committed.generation, w.mem.committed.digest, w.mem.committed)]
            && w'.files == w.files.(staging := w.files.staging - {m.deployment})
            && m.deployment in w'.mem.transfers && w'.mem.transfers[m.deployment] == NewTransfer(m, 0, now)
            && w'.mem.(transfers := w.mem.transfers) == w.mem && w'.switches == w.switches
            && w'.dur.(transfers := w.dur.transfers) == w.dur
            && forall x :: x != m.deployment ==>
                 (x in w'.mem.transfers <==> x in w.mem.transfers) && (x in w.mem.transfers ==> w'.mem.transfers[x] == w.mem.transfers[x])
  {
    var gone := [RemoveStaging(m.deployment), Commit(AgentTransferRemove(m.deployment))];
    var e := Commit(AgentTransferUpsert(NewTransfer(m, 0, now)));
    TwoEffects(cfg, w, RemoveStaging(m.deployment), Commit(AgentTransferRemove(m.deployment)));
    OneEffect(cfg, Run(w, gone), e);
    RunConcat(w, gone, [e]);
    assert PrepareOutcome(cfg, w, m, now).effects == gone + [e];
  }

  /** From nothing, a part or everything, the transfer goes on with what the agent has. */
  lemma OfferStarts(cfg: Config, w: World, m: PrepareMessage, content: Bytes, now: i64)
    requires Alive(cfg, w) && Welcome(cfg, w, m, content)
    ensures var w' := After(cfg, w, Prepare(m), now);
            && Holding(w', m, content, Held(w, m), false, false) && w'.mem.window == w.mem.window && OnlyTransfer(m, w, w')
            && Handle(cfg, w, Says(Prepare(m), now)).replies ==
                 [PrepareAck(m.deployment, m.stream, Held(w, m), false, w.mem.committed.generation, w.mem.committed.digest, w.mem.committed)]
  {
    var d := m.deployment;
    if d in w.mem.transfers && Held(w, m) == 0 && !HasContent(w.mem.transfers[d], m) {
      OfferReplaces(cfg, w, m, now);
    } else {
      HeldIsResumed(cfg, w, m, content);
      OfferRecords(cfg, w, m, Held(w, m), now);
    }
  }

  predicate HasContent(r: TransferRecord, m: PrepareMessage) {
    r.digest == m.digest && r.generation == m.generation && r.totalBytes == m.sizeBytes
  }

  lemma HeldIsResumed(cfg: Config, w: World, m: PrepareMessage, content: Bytes)
    requires Alive(cfg, w) && Welcome(cfg, w, m, content)
    requires m.deployment in w.mem.transfers ==> HasContent(w.mem.transfers[m.deployment], m)
    ensures ResumePoint(w, m) == (Held(w, m), false)
  {
    var d := m.deployment;
    if d in w.mem.transfers {
      assert Ahead(w.dur.transfers[d], w.mem.transfers[d]) && Backed(cfg, w.files, w.dur.transfers[d]) && FileExact(w.files, w.mem.transfers[d]);
    }
  }

  lemma StreamIsFound(w: World, m: PrepareMessage, content: Bytes, n: u64, v: bool, s: bool)
    requires Holding(w, m, content, n, v, s)
    ensures FindStream(w.mem.transfers, m.stream) == Some(m.deployment)
  {
    forall e | e in w.mem.transfers && w.mem.transfers[e].stream == m.stream ensures !Before(e, m.deployment) {
      NotBefore(m.deployment);
    }
    assert IsFirstWithStream(w.mem.transfers, m.stream, m.deployment);
  }

  lemma {:induction false} NotBefore(a: Id)
    ensures !Before(a, a)
  {
    if a != "" { NotBefore(a[1..]); }
  }

  lemma ChunkAdvances(cfg: Config, w: World, m: PrepareMessage, content: Bytes, n: u64, data: Bytes, now: i64)
    requires Holding(w, m, content, n, false, false) && Decodable(Chunk(m.stream, n, data))
    requires m.sizeBytes == |content| && n + |data| <= |content| && data == content[n..n + |data|]
    ensures var w' := After(cfg, w, Chunk(m.stream, n, data), now);
            && Holding(w', m, content, n + |data|, false, false) && w'.mem.window == w.mem.window && OnlyTransfer(m, w, w')
            && Handle(cfg, w, Says(Chunk(m.stream, n, data), now)).replies == [ChunkAck(m.stream, n + |data|, Success)]
  {
    StreamIsFound(w, m, content, n, false, false);
    var d := m.deployment;
    assert ChunkOutcome(w, m.stream, n, data, now).effects == ChunkEffects(w, d, data, now);
    var was: Bytes := if n == 0 then [] else w.files.staging[d];
    hide Run, ChunkEffects, Overwrite;
    ChunkRun(cfg, w, d, was, data, now);
    PrefixGrows(was, content, n, data);
  }

  lemma PrefixGrows(was: Bytes, content: Bytes, n: nat, data: Bytes)
    requires n + |data| <= |content| && was == content[..n] && data == content[n..n + |data|]
    ensures Overwrite(was, n, data) == content[..n + |data|]
  {
    var file := Overwrite(was, n, data);
    assert file == file[..n] + file[n..];
    assert content[..n + |data|] == content[..n] + content[n..n + |data|];
  }

  predicate SameRecord(s: AgentState, t: AgentState) {
    t.committed == s.committed && t.findings == s.findings && t.identity == s.identity
  }

  /** A checkpoint is due at every sixteenth chunk and at the end. */
  predicate Due(w: World, d: Id)
    requires d in w.mem.transfers
  {
    w.chunkCounter % 16 == 0 || w.mem.transfers[d].bytesReceived == w.mem.transfers[d].totalBytes
  }

  /** The world after an accepted chunk: the file extended, the record moved on, nothing else in memory touched. */
  lemma ChunkRun(cfg: Config, w: World, d: Id, was: Bytes, data: Bytes, now: i64)
    requires d in w.mem.transfers && w.mem.transfers[d].deployment == d
    requires w.mem.transfers[d].bytesReceived + |data| <= w.mem.transfers[d].totalBytes
    requires if w.mem.transfers[d].bytesReceived == 0 then was == [] else d in w.files.staging && was == w.files.staging[d]
    ensures var r := w.mem.transfers[d];
            var w' := Run(w, ChunkEffects(w, d, data, now));
            && w'.mem == w.mem.(transfers := w.mem.transfers[d := r.(bytesReceived := r.bytesReceived + |data|, updatedAt := now)])
            && w'.files == w.files.(staging := w.files.staging[d := Overwrite(was, r.bytesReceived, data)])
            && w'.switches == w.switches && SameRecord(w.dur, w'.dur)
            && w'.chunkCounter == w.chunkCounter + 1
            && w'.dur.transfers == if Due(w', d) then w.dur.transfers[d := w'.mem.transfers[d]] else w.dur.transfers
  {
    hide Run, Do, DoFiles, ChunkWrites, ChunkRecorded, Overwrite, Apply;
    var r := w.mem.transfers[d];
    var updated := r.(bytesReceived := r.bytesReceived + |data|, updatedAt := now);
    var writes, last := ChunkWrites(r, d, r.bytesReceived, data), ChunkRecorded(w.chunkCounter + 1, updated);
    WritesRun(cfg, w, r, d, was, data);
    OneRecorded(cfg, Run(w, writes), w.chunkCounter + 1, updated);
    RunConcat(w, writes, [last]);
    assert ChunkEffects(w, d, data, now) == writes + [last];
  }

  lemma WritesRun(cfg: Config, w: World, r: TransferRecord, d: Id, was: Bytes, data: Bytes)
    requires if r.bytesReceived == 0 then was == [] else d in w.files.staging && was == w.files.staging[d]
    ensures var w' := Run(w, ChunkWrites(r, d, r.bytesReceived, data));
            && w'.mem == w.mem && w'.files == w.files.(staging := w.files.staging[d := Overwrite(was, r.bytesReceived, data)])
            && w'.switches == w.switches && w'.dur == w.dur && w'.chunkCounter == w.chunkCounter + 1
  {
    hide Overwrite;
    var first := if r.bytesReceived == 0 then [TruncateStaging(d)] else [];
    var rest := [WriteStaging(d, r.bytesReceived, data), CountChunk];
    var w1 := Run(w, first);
    OneEffect(cfg, w, TruncateStaging(d));
    assert w1.mem == w.mem && w1.files == w.files.(staging := w.files.staging[d := was]) by {
      if r.bytesReceived > 0 { assert w.files.staging[d := was] == w.files.staging; }
    }
    TwoEffects(cfg, w1, WriteStaging(d, r.bytesReceived, data), CountChunk);
    RunConcat(w, first, rest);
  }

  /** Checkpointed or only remembered, the record is the one the process goes on with. */
  lemma OneRecorded(cfg: Config, w: World, chunks: nat, updated: TransferRecord)
    ensures var w' := Run(w, [ChunkRecorded(chunks, updated)]);
            && w'.mem == w.mem.(transfers := w.mem.transfers[updated.deployment := updated]) && w'.files == w.files
            && w'.switches == w.switches && SameRecord(w.dur, w'.dur) && w'.chunkCounter == w.chunkCounter
            && w'.dur.transfers == if chunks % 16 == 0 || updated.bytesReceived == updated.totalBytes
                                   then w.dur.transfers[updated.deployment := updated] else w.dur.transfers
  {
    OneEffect(cfg, w, ChunkRecorded(chunks, updated));
  }

  lemma CompletionVerifies(cfg: Config, w: World, m: PrepareMessage, content: Bytes, now: i64)
    requires m.sizeBytes == |content| > 0 && cfg.hash(content) == m.digest && Decodable(Prepare(m))
    requires Holding(w, m, content, m.sizeBytes, false, false)
    ensures var w' := After(cfg, w, TransferComplete(m.deployment, m.digest, m.sizeBytes), now);
            && Holding(w', m, content, m.sizeBytes, true, false) && w'.mem.window == w.mem.window && OnlyTransfer(m, w, w')
            && Handle(cfg, w, Says(TransferComplete(m.deployment, m.digest, m.sizeBytes), now)).replies ==
                 [TransferResult(m.deployment, true, m.sizeBytes, Success)]
  {
    assert content[..|content|] == content;
    var r := w.mem.transfers[m.deployment];
    var e := Commit(AgentTransferUpsert(r.(verified := true, updatedAt := now)));
    OneEffect(cfg, w, e);
    assert CompleteOutcome(cfg, w, m.deployment, m.digest, m.sizeBytes, now).effects == [e];
  }

  lemma StagingPlaces(cfg: Config, w: World, m: PrepareMessage, content: Bytes, now: i64)
    requires m.sizeBytes == |content| > 0 && Decodable(Prepare(m)) && Holding(w, m, content, m.sizeBytes, true, false)
    ensures var w' := After(cfg, w, Stage(m.deployment, m.generation, m.digest), now);
            && Holding(w', m, content, m.sizeBytes, true, true) && w'.mem.window == w.mem.window && OnlyTransfer(m, w, w')
            && Handle(cfg, w, Says(Stage(m.deployment, m.generation, m.digest), now)).replies == [StageAck(m.deployment, true, Success)]
  {
    var r := w.mem.transfers[m.deployment];
    var e := PlacePayload(m.deployment, m.key, m.generation, m.digest);
    var f := Commit(AgentTransferUpsert(r.(staged := true, updatedAt := now)));
    TwoEffects(cfg, w, e, f);
    assert StageOutcome(w, m.deployment, m.generation, m.digest, now).effects == [e, f];
  }

  lemma WindowOpens(cfg: Config, w: World, m: PrepareMessage, content: Bytes, now: i64)
    requires cfg.guarantee == PrepareCommitAbort && !w.mem.window.applyPrepared && Decodable(Prepare(m))
    requires Holding(w, m, content, m.sizeBytes, true, true)
    ensures var w' := After(cfg, w, ApplyPrepare(m.deployment, m.generation, m.digest), now);
            && Holding(w', m, content, m.sizeBytes, true, true) && OnlyTransfer(m, w, w')
            && w'.mem.window == Window(true, m.deployment, m.generation, m.digest)
            && Handle(cfg, w, Says(ApplyPrepare(m.deployment, m.generation, m.digest), now)).replies ==
                 [ApplyPrepareAck(m.deployment, true, Success)]
  {
    var e := WritePending(m.key, Pointer(m.generation, m.digest, UNSET));
    var f := Commit(AgentApplyPrepared(m.deployment, m.generation, m.digest));
    TwoEffects(cfg, w, e, f);
    assert ApplyPrepareOutcome(cfg, w, m.deployment, m.generation, m.digest).effects == [e, f];
  }

  /** The window the agent's guarantee needs for a commit. */
  predicate WindowReady(cfg: Config, w: World, m: PrepareMessage) {
    if cfg.guarantee == PrepareCommitAbort then w.mem.window == Window(true, m.deployment, m.generation, m.digest)
    else !w.mem.window.applyPrepared
  }

  /** The commit of a staged transfer is acknowledged; the pointer is switched exactly when the pair is new. */
  lemma CommitSwitches(cfg: Config, w: World, m: PrepareMessage, content: Bytes, now: i64)
    requires Alive(cfg, w) && Decodable(Prepare(m)) && WindowReady(cfg, w, m)
    requires Holding(w, m, content, m.sizeBytes, true, true)
    ensures CommitSucceeds(cfg, w, m, now)
    ensures var w' := AfterCommit(cfg, w, m, now);
            AgentManyKeys.Names(w'.files, m.key, m.generation, m.digest) <==>
              Newer(w, m) || AgentManyKeys.Names(w.files, m.key, m.generation, m.digest)
  {
    hide Activate, Apply, Run, Alive;
    AgentManyKeys.AcknowledgedCommit(cfg, w, Says(ApplyCommit(m.deployment, m.generation, m.digest), now));
  }

  // ---- The whole conversation ----

  function Joined(chunks: seq<Bytes>): Bytes {
    if chunks == [] then [] else chunks[0] + Joined(chunks[1..])
  }

  predicate Sendable(chunks: seq<Bytes>) {
    forall c :: c in chunks ==> c != [] && |c| <= MAX_CHUNK_BYTES
  }

  /** The chunks, one after the other. */
  ghost function Fed(cfg: Config, w: World, stream: u64, offset: u64, chunks: seq<Bytes>, now: i64): World
    requires stream != 0 && Sendable(chunks) && offset + |Joined(chunks)| < U64_LIMIT
    decreases |chunks|
  {
    if chunks == [] then w
    else
      Fed(cfg, After(cfg, w, Chunk(stream, offset, chunks[0]), now), stream, offset + |chunks[0]|, chunks[1..], now)
  }

  lemma {:induction false} ChunksArrive(cfg: Config, w: World, m: PrepareMessage, content: Bytes, n: u64, chunks: seq<Bytes>, now: i64)
    requires Alive(cfg, w) && Holding(w, m, content, n, false, false) && Decodable(Prepare(m)) && Sendable(chunks)
    requires m.sizeBytes == |content| && n <= |content| && content[n..] == Joined(chunks)
    ensures var w' := Fed(cfg, w, m.stream, n, chunks, now);
            && Alive(cfg, w') && Holding(w', m, content, m.sizeBytes, false, false) && w'.mem.window == w.mem.window
            && OnlyTransfer(m, w, w')
    decreases |chunks|
  {
    hide Alive, Holding, Handle, Run;
    if chunks != [] {
      var c := chunks[0];
      assert content[n..][..|c|] == c && content[n..][|c|..] == Joined(chunks[1..]);
      assert content[n..n + |c|] == c && content[n + |c|..] == Joined(chunks[1..]);
      ChunkAdvances(cfg, w, m, content, n, c, now);
      StaysAlive(cfg, w, Chunk(m.stream, n, c), now);
      var w1 := After(cfg, w, Chunk(m.stream, n, c), now);
      ChunksArrive(cfg, w1, m, content, n + |c|, chunks[1..], now);
      OnlyTransferTwice(m, w, w1, Fed(cfg, w1, m.stream, n + |c|, chunks[1..], now));
    }
  }

  lemma FollowUps(m: PrepareMessage)
    requires Decodable(Prepare(m))
    ensures Decodable(TransferComplete(m.deployment, m.digest, m.sizeBytes)) && Decodable(Stage(m.deployment, m.generation, m.digest))
    ensures Decodable(ApplyPrepare(m.deployment, m.generation, m.digest)) && Decodable(ApplyCommit(m.deployment, m.generation, m.digest))
    ensures m.stream != 0 && m.sizeBytes > 0
  {
  }

  /** Offer, the chunks of what is missing, completion and staging. */
  ghost function StagedBy(cfg: Config, w: World, m: PrepareMessage, chunks: seq<Bytes>, now: i64): World
    requires Decodable(Prepare(m)) && Sendable(chunks) && Held(w, m) + |Joined(chunks)| < U64_LIMIT
  {
    FollowUps(m);
    var w1 := Fed(cfg, After(cfg, w, Prepare(m), now), m.stream, Held(w, m), chunks, now);
    var w2 := After(cfg, w1, TransferComplete(m.deployment, m.digest, m.sizeBytes), now);
    After(cfg, w2, Stage(m.deployment, m.generation, m.digest), now)
  }

  /** And the window, if the guarantee needs one. */
  ghost function ReadyWorld(cfg: Config, w: World, m: PrepareMessage, chunks: seq<Bytes>, now: i64): World
    requires Decodable(Prepare(m)) && Sendable(chunks) && Held(w, m) + |Joined(chunks)| < U64_LIMIT
  {
    FollowUps(m);
    var w3 := StagedBy(cfg, w, m, chunks, now);
    if cfg.guarantee == PrepareCommitAbort then After(cfg, w3, ApplyPrepare(m.deployment, m.generation, m.digest), now) else w3
  }

  ghost function AfterCommit(cfg: Config, w: World, m: PrepareMessage, now: i64): World
    requires Decodable(Prepare(m))
  {
    FollowUps(m);
    After(cfg, w, ApplyCommit(m.deployment, m.generation, m.digest), now)
  }

  /** The commit is acknowledged at the offered pair, as done now or as a duplicate. */
  ghost predicate CommitSucceeds(cfg: Config, w: World, m: PrepareMessage, now: i64)
    requires Decodable(Prepare(m))
  {
    FollowUps(m);
    var o := Handle(cfg, w, Says(ApplyCommit(m.deployment, m.generation, m.digest), now));
    o.replies != [] && o.replies[0] == ApplyCommitAck(m.deployment, true, if Newer(w, m) then Success else DuplicateSuppressed, m.generation, m.digest)
  }

  /** The chunks are what the agent does not have yet. */
  ghost predicate Missing(w: World, m: PrepareMessage, content: Bytes, chunks: seq<Bytes>) {
    Held(w, m) <= |content| < U64_LIMIT && Sendable(chunks) && Joined(chunks) == content[Held(w, m)..]
  }

  lemma StagedInTheEnd(cfg: Config, w: World, m: PrepareMessage, content: Bytes, chunks: seq<Bytes>, now: i64)
    requires Decodable(Prepare(m)) && Missing(w, m, content, chunks)
    requires Alive(cfg, w) && Welcome(cfg, w, m, content)
    ensures var w3 := StagedBy(cfg, w, m, chunks, now);
            && Alive(cfg, w3) && Holding(w3, m, content, m.sizeBytes, true, true) && !w3.mem.window.applyPrepared
            && OnlyTransfer(m, w, w3)
  {
    OfferStarts(cfg, w, m, content, now);
    assert m.sizeBytes == |content| && cfg.hash(content) == m.digest && !w.mem.window.applyPrepared;
    FollowUps(m);
    hide Alive, Holding, Handle, Run, After, Decodable, Welcome, Sendable, Held;
    StaysAlive(cfg, w, Prepare(m), now);
    var w0 := After(cfg, w, Prepare(m), now);
    ChunksArrive(cfg, w0, m, content, Held(w, m), chunks, now);
    hide Fed, Joined;
    var w1 := Fed(cfg, w0, m.stream, Held(w, m), chunks, now);
    CompletionVerifies(cfg, w1, m, content, now);
    StaysAlive(cfg, w1, TransferComplete(m.deployment, m.digest, m.sizeBytes), now);
    var w2 := After(cfg, w1, TransferComplete(m.deployment, m.digest, m.sizeBytes), now);
    StagingPlaces(cfg, w2, m, content, now);
    StaysAlive(cfg, w2, Stage(m.deployment, m.generation, m.digest), now);
    hide OnlyTransfer;
    OnlyTransferTwice(m, w, w0, w1);
    OnlyTransferTwice(m, w, w1, w2);
    OnlyTransferTwice(m, w, w2, After(cfg, w2, Stage(m.deployment, m.generation, m.digest), now));
  }

  lemma ReadyInTheEnd(cfg: Config, w: World, m: PrepareMessage, content: Bytes, chunks: seq<Bytes>, now: i64)
    requires Decodable(Prepare(m)) && Missing(w, m, content, chunks)
    requires Alive(cfg, w) && Welcome(cfg, w, m, content)
    ensures var p := ReadyWorld(cfg, w, m, chunks, now);
            && Alive(cfg, p) && Holding(p, m, content, m.sizeBytes, true, true) && WindowReady(cfg, p, m)
            && OnlyTransfer(m, w, p)
  {
    hide Alive, Holding, Handle, Run, After, Decodable, Welcome, Sendable, StagedBy, Joined, OnlyTransfer;
    StagedInTheEnd(cfg, w, m, content, chunks, now);
    FollowUps(m);
    var w3 := StagedBy(cfg, w, m, chunks, now);
    if cfg.guarantee == PrepareCommitAbort {
      WindowOpens(cfg, w3, m, content, now);
      StaysAlive(cfg, w3, ApplyPrepare(m.deployment, m.generation, m.digest), now);
      OnlyTransferTwice(m, w, w3, After(cfg, w3, ApplyPrepare(m.deployment, m.generation, m.digest), now));
    }
  }

  /** A delivery goes through: an offer the agent has no reason to refuse, what it lacks of the content in any division
      into chunks, and the remaining messages in order end with an acknowledged commit. The key is then live at exactly the
      offered pair, unless that pair was committed through another key before. */
  lemma DeliveryGoesThrough(cfg: Config, w: World, m: PrepareMessage, content: Bytes, chunks: seq<Bytes>, now: i64)
    requires Decodable(Prepare(m)) && Missing(w, m, content, chunks)
    requires Alive(cfg, w) && Welcome(cfg, w, m, content)
    ensures CommitSucceeds(cfg, ReadyWorld(cfg, w, m, chunks, now), m, now)
    ensures var w' := AfterCommit(cfg, ReadyWorld(cfg, w, m, chunks, now), m, now);
            AgentManyKeys.Names(w'.files, m.key, m.generation, m.digest) <==>
              Newer(w, m) || AgentManyKeys.Names(w.files, m.key, m.generation, m.digest)
  {
    hide Alive, Holding, ReadyWorld, Decodable, Welcome, Sendable, Joined, CommitSucceeds, AfterCommit;
    ReadyInTheEnd(cfg, w, m, content, chunks, now);
    CommitSwitches(cfg, ReadyWorld(cfg, w, m, chunks, now), m, content, now);
  }

  // ---- What a crash can cost ----

  /** How much of a transfer is checkpointed. */
  function Durable(w: World, d: Id): int {
    if d in w.dur.transfers then w.dur.transfers[d].bytesReceived else -1
  }

  lemma ChunkCheckpoints(cfg: Config, w: World, m: PrepareMessage, content: Bytes, n: u64, data: Bytes, now: i64)
    requires Holding(w, m, content, n, false, false) && Decodable(Chunk(m.stream, n, data))
    requires m.sizeBytes == |content| && n + |data| <= |content| && data == content[n..n + |data|]
    ensures var w' := After(cfg, w, Chunk(m.stream, n, data), now);
            && w'.chunkCounter == w.chunkCounter + 1
            && (Durable(w', m.deployment) == Durable(w, m.deployment) || Durable(w', m.deployment) == n + |data|)
            && (w'.chunkCounter % 16 == 0 ==> Durable(w', m.deployment) == n + |data|)
  {
    StreamIsFound(w, m, content, n, false, false);
    assert ChunkOutcome(w, m.stream, n, data, now).effects == ChunkEffects(w, m.deployment, data, now);
    hide Run, ChunkEffects, Overwrite;
    ChunkRun(cfg, w, m.deployment, if n == 0 then [] else w.files.staging[m.deployment], data, now);
  }

  /** What is checkpointed by the `k`-th chunk, or before the first, stays. */
  lemma {:induction false} CheckpointStays(cfg: Config, w: World, m: PrepareMessage, content: Bytes, n: u64, chunks: seq<Bytes>, k: nat, b: nat, now: i64)
    requires Holding(w, m, content, n, false, false) && m.stream != 0 && Sendable(chunks)
    requires m.sizeBytes == |content| < U64_LIMIT && Joined(chunks) <= content[n..] && n <= |content|
    requires k <= |chunks| && b <= n + |Joined(chunks[..k])|
    requires if k == 0 then b <= Durable(w, m.deployment) else (w.chunkCounter + k) % 16 == 0
    ensures var w' := Fed(cfg, w, m.stream, n, chunks, now);
            Holding(w', m, content, n + |Joined(chunks)|, false, false) && b <= Durable(w', m.deployment)
    decreases |chunks|
  {
    hide Holding, Durable, After, Joined, Handle, OnlyTransfer;
    FirstChunk(content, n, chunks, k);
    if chunks != [] {
      var c := chunks[0];
      ChunkAdvances(cfg, w, m, content, n, c, now);
      ChunkCheckpoints(cfg, w, m, content, n, c, now);
      var w1 := After(cfg, w, Chunk(m.stream, n, c), now);
      CheckpointStays(cfg, w1, m, content, n + |c|, chunks[1..], if k > 0 then k - 1 else 0, b, now);
    }
  }

  lemma FirstChunk(content: Bytes, n: nat, chunks: seq<Bytes>, k: nat)
    requires n <= |content| && Joined(chunks) <= content[n..] && k <= |chunks|
    ensures chunks == [] ==> |Joined(chunks)| == 0
    ensures |Joined(chunks[..0])| == 0 && (chunks != [] ==> |Joined(chunks[1..][..0])| == 0)
    ensures chunks != [] ==>
              var c, rest, j := chunks[0], chunks[1..], if k > 0 then k - 1 else 0;
              && |Joined(chunks)| == |c| + |Joined(rest)| && n + |c| <= |content| && content[n..n + |c|] == c
              && Joined(rest) <= content[n + |c|..] && |Joined(rest[..j])| == |Joined(chunks[..k])| - if k > 0 then |c| else 0
  {
    if chunks != [] {
      var c := chunks[0];
      assert content[n..][..|c|] == c && content[n..][|c|..] == content[n + |c|..];
      assert content[n..n + |c|] == c && Joined(chunks[1..]) <= content[n + |c|..];
      if k > 0 { assert chunks[..k][0] == c && chunks[..k][1..] == chunks[1..][..k - 1]; }
    }
  }

  /** A crash costs a transfer that is sent alone at most its last fifteen chunks: however many were taken, after the restart
      the agent holds all but those. */
  lemma AtMostFifteenChunksAreLost(cfg: Config, w: World, m: PrepareMessage, content: Bytes, n: u64, chunks: seq<Bytes>, now: i64,
                                   p: AgentRuns.Process, l: Listing)
    requires Holding(w, m, content, n, false, false) && n <= Durable(w, m.deployment) && m.stream != 0 && Sendable(chunks) && chunks != []
    requires m.sizeBytes == |content| < U64_LIMIT && n <= |content| && Joined(chunks) <= content[n..]
    requires p.w == Fed(cfg, w, m.stream, n, chunks, now)
    requires AgentRuns.Consistent(cfg, p) && AgentRuns.Enabled(cfg, p, AgentRuns.Booted(l))
    ensures var w' := AgentRuns.Next(cfg, p, AgentRuns.Booted(l)).w;
            var kept := if |chunks| <= 15 then 0 else |chunks| - 15;
            m.deployment in w'.mem.transfers && w'.mem.transfers[m.deployment].bytesReceived >= n + |Joined(chunks[..kept])|
  {
    hide AgentRuns.Consistent, AgentRuns.Enabled, AgentRuns.Next, Fed;
    var since := (w.chunkCounter + |chunks|) % 16;
    var k := if |chunks| <= 15 then 0 else |chunks| - since;
    var kept := if |chunks| <= 15 then 0 else |chunks| - 15;
    JoinedGrows(chunks, kept, k);
    assert k > 0 ==> w.chunkCounter + k == 16 * ((w.chunkCounter + |chunks|) / 16);
    CheckpointStays(cfg, w, m, content, n, chunks, k, n + |Joined(chunks[..kept])|, now);
    assert |Joined(chunks)| > 0;
    AgentRuns.StartedOn(cfg, p, l, m.deployment);
  }

  lemma {:induction false} JoinedGrows(chunks: seq<Bytes>, i: nat, j: nat)
    requires i <= j <= |chunks|
    ensures |Joined(chunks[..i])| <= |Joined(chunks[..j])|
  {
    if i > 0 {
      assert chunks[..i][0] == chunks[0] == chunks[..j][0];
      assert chunks[..i][1..] == chunks[1..][..i - 1] && chunks[..j][1..] == chunks[1..][..j - 1];
      JoinedGrows(chunks[1..], i - 1, j - 1);
    } else {
      assert chunks[..0] == [];
    }
  }

  /** An interrupted delivery goes on: whatever the crash, a transfer whose staging file is still there is offered again after
      the restart, resumes at its last checkpoint, and with only the rest of the content sent it goes through. */
  lemma InterruptedDeliveryGoesOn(cfg: Config, p: AgentRuns.Process, l: Listing, m: PrepareMessage, content: Bytes, chunks: seq<Bytes>, now: i64)
    requires AgentRuns.Consistent(cfg, p) && AgentRuns.Enabled(cfg, p, AgentRuns.Booted(l))
    requires Interrupted(p.w, m, content) && Decodable(Prepare(m)) && '/' !in m.deployment && m.sizeBytes == |content| && cfg.hash(content) == m.digest
    requires Sendable(chunks) && Joined(chunks) == content[p.w.dur.transfers[m.deployment].bytesReceived..]
    requires var w := AgentRuns.Next(cfg, p, AgentRuns.Booted(l)).w;
             Acceptable(cfg, w, m) && forall d :: d in w.mem.transfers && d != m.deployment ==> w.mem.transfers[d].stream != m.stream
    ensures var w := AgentRuns.Next(cfg, p, AgentRuns.Booted(l)).w;
            var from := p.w.dur.transfers[m.deployment].bytesReceived;
            && Handle(cfg, w, Says(Prepare(m), now)).replies ==
                 [PrepareAck(m.deployment, m.stream, from, false, w.mem.committed.generation, w.mem.committed.digest, w.mem.committed)]
            && Missing(w, m, content, chunks) && CommitSucceeds(cfg, ReadyWorld(cfg, w, m, chunks, now), m, now)
  {
    hide AgentRuns.Consistent, AgentRuns.Enabled, AgentRuns.Next, Alive, Handle, Acceptable, Decodable, ReadyWorld, CommitSucceeds, Joined, Sendable;
    AgentRuns.StepConsistent(cfg, p, AgentRuns.Booted(l));
    var w := AgentRuns.Next(cfg, p, AgentRuns.Booted(l)).w;
    assert Alive(cfg, w) by { ServingIsAlive(cfg, AgentRuns.Next(cfg, p, AgentRuns.Booted(l)), p, l); }
    AgentRuns.StartedOn(cfg, p, l, m.deployment);
    assert Held(w, m) == p.w.dur.transfers[m.deployment].bytesReceived;
    assert Welcome(cfg, w, m, content);
    OfferStarts(cfg, w, m, content, now);
    DeliveryGoesThrough(cfg, w, m, content, chunks, now);
  }

  /** The checkpointed part of this content is in the staging file. */
  predicate Interrupted(w: World, m: PrepareMessage, content: Bytes) {
    && m.deployment in w.dur.transfers && HasContent(w.dur.transfers[m.deployment], m) && m.deployment in w.files.staging
    && var n := w.dur.transfers[m.deployment].bytesReceived;
       n <= |content| < U64_LIMIT && n <= |w.files.staging[m.deployment]| && w.files.staging[m.deployment][..n] == content[..n]
  }

  lemma ServingIsAlive(cfg: Config, q: AgentRuns.Process, p: AgentRuns.Process, l: Listing)
    requires AgentRuns.Enabled(cfg, p, AgentRuns.Booted(l)) && q == AgentRuns.Next(cfg, p, AgentRuns.Booted(l)) && AgentRuns.Consistent(cfg, q)
    ensures Alive(cfg, q.w)
  {
    hide Boot, Run, Alive;
  }

  /** The first delivery of all: an agent started on an empty disk serves, and an admissible offer is welcome there. */
  lemma FreshAgentServes(cfg: Config, incarnation: Bytes, m: PrepareMessage, content: Bytes)
    requires Decodable(Prepare(m)) && m.sizeBytes == |content| <= cfg.maxArtifactBytes && cfg.hash(content) == m.digest
    requires GuaranteeSatisfies(cfg.guarantee, m.requirement) && '/' !in m.deployment
    ensures var l := Listing([], [], [], incarnation);
            && AgentRuns.CanStart(cfg, FRESH, l)
            && Alive(cfg, AgentRuns.Next(cfg, AgentRuns.Process(FRESH, false), AgentRuns.Booted(l)).w)
            && Welcome(cfg, AgentRuns.Next(cfg, AgentRuns.Process(FRESH, false), AgentRuns.Booted(l)).w, m, content)
  {
    hide Decodable;
    var l := Listing([], [], [], incarnation);
    var e := Commit(AgentIdentity(NextIdentity(cfg, INITIAL, incarnation)));
    assert Boot(cfg, FRESH, l) == [e];
    OneEffect(cfg, FRESH, e);
    AgentRuns.FreshConsistent(cfg);
    AgentRuns.StepConsistent(cfg, AgentRuns.Process(FRESH, false), AgentRuns.Booted(l));
  }
}
