/** The target agent as a sequence of effects (src/agent.cpp).

    Every handler is specified by the ordered list of effects it has on the durable store and on the files,
    plus the replies it sends once they are done. A crash cuts such a list anywhere. */
module AgentModel {
  import opened Prelude
  import opened Lifecycle
  import opened AgentState
  import opened Messages
  import opened KeyPaths

  /** The configuration of one agent process. `hash` stands for SHA-256. */
  datatype Config = Config(
    hash: Bytes -> Digest, maxArtifactBytes: u64, guarantee: Guarantee, target: Id, klass: TargetClass,
    verifyOnStart: bool, liveRoot: Path)

  const CHECKPOINT_CHUNKS: nat := 16

  /** The staging area, the payloads of the live area, and the two marker files of every key directory. */
  datatype Files = Files(
    staging: map<Id, Bytes>, payload: map<(Id, u64, Digest), Bytes>,
    current: map<Id, Pointer>, pending: map<Id, Pointer>)

  /** One replacement of a live pointer. */
  datatype Switch = Switch(key: Id, generation: u64, digest: Digest)

  /** `mem` is the state the process holds, `dur` the fold of everything it committed to the store;
      `switches` is the history of live-pointer writes, oldest first. */
  datatype World = World(mem: AgentState, dur: AgentState, files: Files, chunkCounter: nat, switches: seq<Switch>)

  const FRESH: World := World(INITIAL, INITIAL, Files(map[], map[], map[], map[]), 0, [])

  /** One step a crash cannot divide. */
  datatype Effect =
    | Commit(record: Record)
    | Remember(transfer: TransferRecord)
    | CountChunk
    | BumpActivations
    | TruncateStaging(deployment: Id)
    | WriteStaging(deployment: Id, offset: u64, data: Bytes)
    | RemoveStaging(deployment: Id)
    | ResizeStaging(deployment: Id, length: u64)
    | PlacePayload(deployment: Id, key: Id, generation: u64, digest: Digest)
    | WritePending(key: Id, marker: Pointer)
    | RemovePending(key: Id)
    | SwitchCurrent(key: Id, pointer: Pointer)

  /** `fwrite` at an offset: the file keeps what lies before and after, and a gap reads as zeros. */
  function Overwrite(file: Bytes, offset: nat, data: Bytes): (r: Bytes)
    ensures |r| == if offset + |data| > |file| then offset + |data| else |file|
    ensures r[offset..offset + |data|] == data
    ensures offset <= |file| ==> r[..offset] == file[..offset]
  {
    var base := if offset > |file| then file + Zeros(offset - |file|) else file;
    base[..offset] + data + (if offset + |data| < |base| then base[offset + |data|..] else [])
  }

  function Resize(file: Bytes, length: nat): Bytes {
    if length <= |file| then file[..length] else file + Zeros(length - |file|)
  }

  function DoFiles(f: Files, e: Effect): Files {
    match e
    case TruncateStaging(d) => f.(staging := f.staging[d := []])
    case WriteStaging(d, o, data) =>
      if d in f.staging then f.(staging := f.staging[d := Overwrite(f.staging[d], o, data)]) else f
    case RemoveStaging(d) => f.(staging := f.staging - {d})
    case ResizeStaging(d, n) =>
      if d in f.staging then f.(staging := f.staging[d := Resize(f.staging[d], n)]) else f
    case PlacePayload(d, k, g, h) =>
      if d in f.staging then f.(payload := f.payload[(k, g, h) := f.staging[d]]) else f
    case WritePending(k, p) => f.(pending := f.pending[k := p])
    case RemovePending(k) => f.(pending := f.pending - {k})
    case SwitchCurrent(k, p) => f.(current := f.current[k := p])
    case _ => f
  }

  function Do(w: World, e: Effect): World {
    match e
    case Commit(r) => w.(mem := Apply(w.mem, r), dur := Apply(w.dur, r))
    case Remember(t) => w.(mem := w.mem.(transfers := w.mem.transfers[t.deployment := t]))
    case CountChunk => w.(chunkCounter := w.chunkCounter + 1)
    case BumpActivations =>
      if w.mem.counters.activations == U64_LIMIT - 1 then w
      else w.(mem := w.mem.(counters := w.mem.counters.(activations := w.mem.counters.activations + 1)))
    case SwitchCurrent(k, p) =>
      w.(files := DoFiles(w.files, e), switches := w.switches + [Switch(k, p.generation, p.digest)])
    case _ => w.(files := DoFiles(w.files, e))
  }

  function Run(w: World, es: seq<Effect>): World
    decreases |es|
  {
    if es == [] then w else Run(Do(w, es[0]), es[1..])
  }

  /** What a handler does: its effects in order, then its replies. */
  datatype Outcome = Outcome(effects: seq<Effect>, replies: seq<Reply>)

  function Answer(r: Reply): Outcome {
    Outcome([], [r])
  }

  /** The counter record, with the in-memory increments the handlers make just before committing it. */
  function CounterNote(c: Counters): Effect {
    Commit(AgentRollbackNote(c.applyRollbacks, c.duplicatesSuppressed, c.staleOffersRefused, c.digestRejections))
  }

  function NoteStale(c: Counters): Effect {
    CounterNote(c.(staleOffersRefused := Next64(c.staleOffersRefused)))
  }

  function NoteDuplicate(c: Counters): Effect {
    CounterNote(c.(duplicatesSuppressed := Next64(c.duplicatesSuppressed)))
  }

  function NoteRejection(c: Counters): Effect {
    CounterNote(c.(digestRejections := Next64(c.digestRejections)))
  }

  function NoteRollback(c: Counters): Effect {
    CounterNote(c.(applyRollbacks := Next64(c.applyRollbacks)))
  }

  predicate IsSet(p: Pointer) {
    p.generation != 0
  }

  /** `destroyTransfer`. */
  function Destroy(w: World, d: Id): seq<Effect> {
    [RemoveStaging(d)] + if d in w.mem.transfers then [Commit(AgentTransferRemove(d))] else []
  }

  // ---- Session establishment: the authority fence (src/agent.cpp:846-866) ----

  function HelloOutcome(w: World, f: ControllerFence): Outcome {
    if w.mem.fence.epoch != 0 && f.epoch < w.mem.fence.epoch then Answer(AuthReject(StaleEpoch))
    else if w.mem.fence.epoch != 0 && f.epoch == w.mem.fence.epoch
            && w.mem.fence.incarnation != Zeros(16) && f.incarnation != w.mem.fence.incarnation then
      Answer(AuthReject(FencedIncarnation))
    else
      Outcome([Commit(AgentControllerFence(f))],
              [HelloAck(w.mem.identity.target, w.mem.identity.klass, w.mem.identity.guarantee,
                        w.mem.identity.term, w.mem.identity.incarnation, w.mem.committed)])
  }

  // ---- onPrepare (src/agent.cpp:1028-1151) ----

  predicate SameContent(r: TransferRecord, m: PrepareMessage) {
    r.digest == m.digest && r.generation == m.generation && r.totalBytes == m.sizeBytes
  }

  /** Where the offer resumes, and whether the recorded transfer has to be destroyed first. */
  function ResumePoint(w: World, m: PrepareMessage): (r: (u64, bool))
  {
    if m.deployment !in w.mem.transfers then (0, false)
    else
      var r := w.mem.transfers[m.deployment];
      var onDisk := if m.deployment in w.files.staging then |w.files.staging[m.deployment]| else -1;
      if SameContent(r, m) && r.verified then
        if onDisk == r.totalBytes then (r.totalBytes, false) else (0, true)
      else if SameContent(r, m) then
        if onDisk == -1 then (0, false)
        else if onDisk < r.bytesReceived then (onDisk, false) else (r.bytesReceived, false)
      else (0, true)
  }

  function NewTransfer(m: PrepareMessage, resumeFrom: u64, now: i64): TransferRecord {
    TransferRecord(m.deployment, m.stream, m.key, m.artifact, m.generation, m.digest,
                   m.sizeBytes, resumeFrom, false, false, now)
  }

  function PrepareOutcome(cfg: Config, w: World, m: PrepareMessage, now: i64): Outcome {
    var committed := w.mem.committed;
    if m.sizeBytes > cfg.maxArtifactBytes then
      Answer(PrepareReject(m.deployment, OversizePayload, committed.generation))
    else if IsSet(committed) && m.generation < committed.generation then
      Outcome([NoteStale(w.mem.counters)], [PrepareReject(m.deployment, StaleGeneration, committed.generation)])
    else if IsSet(committed) && m.generation == committed.generation && m.digest != committed.digest then
      Outcome([NoteStale(w.mem.counters)], [PrepareReject(m.deployment, GenerationConflict, committed.generation)])
    else if !GuaranteeSatisfies(cfg.guarantee, m.requirement) then
      Answer(PrepareReject(m.deployment, GuaranteeUnsupported, committed.generation))
    else if w.mem.window.applyPrepared then
      Answer(PrepareReject(m.deployment, Busy, committed.generation))
    else
      var finding := FindFinding(w.mem.findings, m.key, m.digest);
      if finding.Some? && IsActivationState(finding.value.state) && finding.value.generation == m.generation then
        Outcome([NoteDuplicate(w.mem.counters)],
                [PrepareAck(m.deployment, m.stream, m.sizeBytes, true,
                            finding.value.generation, finding.value.digest, committed)])
      else
        var (resumeFrom, stale) := ResumePoint(w, m);
        Outcome((if stale then Destroy(w, m.deployment) else []) +
                [Commit(AgentTransferUpsert(NewTransfer(m, resumeFrom, now)))],
                [PrepareAck(m.deployment, m.stream, resumeFrom, false,
                            committed.generation, committed.digest, committed)])
  }

  // ---- onChunk (src/agent.cpp:1153-1247) ----

  /** Lexicographic order of identifiers, which is the order `std::map` iterates in. */
  predicate Before(a: Id, b: Id) {
    b != "" && (a == "" || a[0] < b[0] || (a[0] == b[0] && Before(a[1..], b[1..])))
  }

  lemma {:induction false} BeforeTotal(a: Id, b: Id)
    ensures Before(a, b) || a == b || Before(b, a)
  {
    if a != "" && b != "" && a[0] == b[0] {
      BeforeTotal(a[1..], b[1..]);
      assert a == [a[0]] + a[1..] && b == [b[0]] + b[1..];
    }
  }

  lemma {:induction false} BeforeTransitive(a: Id, b: Id, c: Id)
    requires Before(a, b) && Before(b, c)
    ensures Before(a, c)
  {
    if a != "" && a[0] == b[0] == c[0] {
      BeforeTransitive(a[1..], b[1..], c[1..]);
    }
  }

  ghost predicate IsFirstWithStream(transfers: map<Id, TransferRecord>, stream: u64, d: Id) {
    && d in transfers && transfers[d].stream == stream
    && forall e :: e in transfers && transfers[e].stream == stream ==> !Before(e, d)
  }

  lemma FirstWithStreamUnique(transfers: map<Id, TransferRecord>, stream: u64, d: Id, e: Id)
    requires IsFirstWithStream(transfers, stream, d) && IsFirstWithStream(transfers, stream, e)
    ensures d == e
  {
    BeforeTotal(d, e);
  }

  /** The transfer the chunk's stream selects. */
  ghost function FindStream(transfers: map<Id, TransferRecord>, stream: u64): (r: Option<Id>)
    ensures r.Some? ==> IsFirstWithStream(transfers, stream, r.value)
  {
    if exists d :: IsFirstWithStream(transfers, stream, d) then
      var d :| IsFirstWithStream(transfers, stream, d);
      Some(d)
    else None
  }

  /** The file effects of an accepted chunk. */
  function ChunkWrites(r: TransferRecord, d: Id, offset: u64, data: Bytes): seq<Effect> {
    (if r.bytesReceived == 0 then [TruncateStaging(d)] else []) + [WriteStaging(d, offset, data), CountChunk]
  }

  /** The record is checkpointed every sixteenth chunk and at the end; in between it is only kept in memory. */
  function ChunkRecorded(chunks: nat, updated: TransferRecord): Effect {
    if chunks % CHECKPOINT_CHUNKS == 0 || updated.bytesReceived == updated.totalBytes then
      Commit(AgentTransferUpsert(updated))
    else Remember(updated)
  }

  /** The effects of an accepted chunk. */
  function ChunkEffects(w: World, d: Id, data: Bytes, now: i64): seq<Effect>
    requires d in w.mem.transfers && w.mem.transfers[d].bytesReceived + |data| <= w.mem.transfers[d].totalBytes
  {
    var r := w.mem.transfers[d];
    ChunkWrites(r, d, r.bytesReceived, data) +
    [ChunkRecorded(w.chunkCounter + 1, r.(bytesReceived := r.bytesReceived + |data|, updatedAt := now))]
  }

  ghost function ChunkOutcome(w: World, stream: u64, offset: u64, data: Bytes, now: i64): Outcome {
    match FindStream(w.mem.transfers, stream)
    case None => Answer(ChunkAck(stream, 0, NotFound))
    case Some(d) =>
      var r := w.mem.transfers[d];
      if offset != r.bytesReceived then Answer(ChunkAck(stream, r.bytesReceived, ReorderedFrame))
      else if offset + |data| > r.totalBytes then Answer(ChunkAck(stream, r.bytesReceived, SizeMismatch))
      else if r.bytesReceived != 0 && d !in w.files.staging then Answer(ChunkAck(stream, r.bytesReceived, IoFailure))
      else Outcome(ChunkEffects(w, d, data, now), [ChunkAck(stream, offset + |data|, Success)])
  }

  // ---- onTransferComplete (src/agent.cpp:1249-1313) ----

  /** `hashStagingFile` on a file that must have the recorded size. */
  predicate StagingHashes(cfg: Config, w: World, d: Id, size: u64, digest: Digest) {
    && d in w.files.staging
    && (size != 0 ==> |w.files.staging[d]| == size)
    && cfg.hash(w.files.staging[d]) == digest
  }

  function CompleteOutcome(cfg: Config, w: World, d: Id, digest: Digest, sizeBytes: u64, now: i64): Outcome {
    if d !in w.mem.transfers then Answer(TransferResult(d, false, 0, NotFound))
    else
      var r := w.mem.transfers[d];
      if r.bytesReceived != r.totalBytes then Answer(TransferResult(d, false, r.bytesReceived, SizeMismatch))
      else if digest != r.digest || sizeBytes != r.totalBytes then
        Answer(TransferResult(d, false, r.bytesReceived, Conflict))
      else if !StagingHashes(cfg, w, d, r.totalBytes, r.digest) then
        Outcome([NoteRejection(w.mem.counters)] + Destroy(w, d),
                [TransferResult(d, false, r.bytesReceived, DigestMismatch), DeliveryNack(d, DigestMismatch)])
      else
        Outcome([Commit(AgentTransferUpsert(r.(verified := true, updatedAt := now)))],
                [TransferResult(d, true, r.bytesReceived, Success)])
  }

  // ---- onStage (src/agent.cpp:1315-1383) ----

  function StageOutcome(w: World, d: Id, generation: u64, digest: Digest, now: i64): Outcome {
    if d !in w.mem.transfers then Answer(StageAck(d, false, NotFound))
    else
      var r := w.mem.transfers[d];
      if !r.verified then Answer(StageAck(d, false, NotPrepared))
      else if digest != r.digest || generation != r.generation then Answer(StageAck(d, false, Conflict))
      else if IsSet(w.mem.committed) && generation < w.mem.committed.generation then
        Answer(StageAck(d, false, StaleGeneration))
      else if d !in w.files.staging then Answer(StageAck(d, false, ArtifactUnavailable))
      else
        Outcome([PlacePayload(d, r.key, r.generation, r.digest),
                 Commit(AgentTransferUpsert(r.(staged := true, updatedAt := now)))],
                [StageAck(d, true, Success)])
  }

  // ---- onApplyPrepare (src/agent.cpp:1385-1464) ----

  function ApplyPrepareOutcome(cfg: Config, w: World, d: Id, generation: u64, digest: Digest): Outcome {
    if cfg.guarantee == AtomicActivate then Answer(ApplyPrepareAck(d, false, UnexpectedMessage))
    else if d !in w.mem.transfers || !w.mem.transfers[d].staged then Answer(ApplyPrepareAck(d, false, NotPrepared))
    else
      var r := w.mem.transfers[d];
      if IsSet(w.mem.committed) && generation < w.mem.committed.generation then
        Answer(ApplyPrepareAck(d, false, StaleGeneration))
      else if digest != r.digest || generation != r.generation then Answer(ApplyPrepareAck(d, false, Conflict))
      else if w.mem.window.applyPrepared then Answer(ApplyPrepareAck(d, false, Busy))
      else
        Outcome([WritePending(r.key, Pointer(r.generation, r.digest, UNSET)),
                 Commit(AgentApplyPrepared(r.deployment, r.generation, r.digest))],
                [ApplyPrepareAck(d, true, Success)])
  }

  // ---- onApplyCommit, activate, commitGeneration (src/agent.cpp:1466-1711) ----

  function AckMessage(w: World, d: Id, key: Id, p: Pointer, artifact: Id, bytes: u64, now: i64): Reply {
    DeliveryAck(DeliveryAckMessage(d, key, p.generation, p.digest, artifact, Applied,
                                   w.mem.identity.term, w.mem.identity.incarnation, w.mem.fence.epoch,
                                   w.mem.identity.guarantee, bytes, now, false))
  }

  predicate RecordedActivation(findings: seq<AppliedFinding>, generation: u64, digest: Digest) {
    exists f :: f in findings && f.generation == generation && f.digest == digest && IsActivationState(f.state)
  }

  /** The prepare bracket of `activate`: written here only when no window is open yet. */
  function OpenWindow(w: World, r: TransferRecord, explicit: bool): seq<Effect> {
    if explicit && !w.mem.window.applyPrepared then
      [WritePending(r.key, Pointer(r.generation, r.digest, r.artifact)),
       Commit(AgentApplyPrepared(r.deployment, r.generation, r.digest))]
    else []
  }

  function CommitGeneration(open: bool, activations: u64, counters: Counters, r: TransferRecord, now: i64): seq<Effect> {
    (if open then [Commit(AgentApplyResolved(Next64(activations)))] else []) +
    [Commit(AgentTargetCommit(Pointer(r.generation, r.digest, r.artifact))),
     Commit(AgentFindingUpsert(AppliedFinding(r.key, r.generation, r.digest, r.artifact, r.deployment, Applied, now))),
     BumpActivations, CounterNote(counters)]
  }

  function Activate(w: World, r: TransferRecord, explicit: bool, now: i64): seq<Effect> {
    OpenWindow(w, r, explicit) +
    [SwitchCurrent(r.key, Pointer(r.generation, r.digest, r.artifact))] +
    (if explicit then [RemovePending(r.key)] else []) +
    CommitGeneration(w.mem.window.applyPrepared || explicit, w.mem.counters.activations, w.mem.counters, r, now)
  }

  /** With the window open (or no window needed) an activation starts with the switch. */
  lemma ActivateShape(w: World, r: TransferRecord, explicit: bool, now: i64)
    requires explicit ==> w.mem.window.applyPrepared
    ensures Activate(w, r, explicit, now) ==
            [SwitchCurrent(r.key, Pointer(r.generation, r.digest, r.artifact))] +
            ((if explicit then [RemovePending(r.key)] else []) +
             CommitGeneration(w.mem.window.applyPrepared || explicit, w.mem.counters.activations, w.mem.counters, r, now))
  {
    hide CommitGeneration;
  }

  function ApplyCommitOutcome(cfg: Config, w: World, d: Id, generation: u64, digest: Digest, now: i64): Outcome {
    var committed := w.mem.committed;
    if IsSet(committed) && generation < committed.generation then
      Outcome([NoteStale(w.mem.counters)],
              [ApplyCommitAck(d, false, StaleGeneration, committed.generation, committed.digest),
               DeliveryNack(d, StaleGeneration)])
    else if IsSet(committed) && generation == committed.generation && digest == committed.digest then
      Outcome([NoteDuplicate(w.mem.counters)],
              [ApplyCommitAck(d, true, DuplicateSuppressed, committed.generation, committed.digest),
               AckMessage(w, d, UNSET, committed, committed.artifact, 0, now)])
    else if IsSet(committed) && generation == committed.generation then
      Outcome([], [ApplyCommitAck(d, false, GenerationConflict, committed.generation, committed.digest),
                   DeliveryNack(d, GenerationConflict)])
    else if d !in w.mem.transfers || !w.mem.transfers[d].staged then
      if !RecordedActivation(w.mem.findings, generation, digest) then
        Outcome([], [ApplyCommitAck(d, false, NotPrepared, committed.generation, committed.digest),
                     DeliveryNack(d, NotPrepared)])
      else
        Outcome([], [ApplyCommitAck(d, true, DuplicateSuppressed, committed.generation, committed.digest),
                     AckMessage(w, d, UNSET, Pointer(generation, digest, UNSET), committed.artifact, 0, now)])
    else
      var r := w.mem.transfers[d];
      if digest != r.digest || generation != r.generation then
        Outcome([], [ApplyCommitAck(d, false, Conflict, committed.generation, committed.digest), DeliveryNack(d, Conflict)])
      else if cfg.guarantee == PrepareCommitAbort && !w.mem.window.applyPrepared then
        Outcome([], [ApplyCommitAck(d, false, NotPrepared, committed.generation, committed.digest), DeliveryNack(d, NotPrepared)])
      else if w.mem.window.applyPrepared && w.mem.window.deployment != d then
        Outcome([], [ApplyCommitAck(d, false, Conflict, committed.generation, committed.digest), DeliveryNack(d, Conflict)])
      else
        Outcome(Activate(w, r, cfg.guarantee == PrepareCommitAbort, now),
                [ApplyCommitAck(d, true, Success, r.generation, r.digest),
                 AckMessage(w, d, r.key, Pointer(r.generation, r.digest, r.artifact),
                            if r.artifact == UNSET then committed.artifact else r.artifact, r.totalBytes, now)])
  }

  /** When a commit reaches the activation. */
  predicate Admits(cfg: Config, w: World, d: Id, generation: u64, digest: Digest) {
    && (IsSet(w.mem.committed) ==> w.mem.committed.generation < generation)
    && d in w.mem.transfers && w.mem.transfers[d].staged
    && digest == w.mem.transfers[d].digest && generation == w.mem.transfers[d].generation
    && (cfg.guarantee == PrepareCommitAbort ==> w.mem.window.applyPrepared)
    && (w.mem.window.applyPrepared ==> w.mem.window.deployment == d)
  }

  // ---- onApplyAbort (src/agent.cpp:1713-1755) ----

  function ApplyAbortOutcome(w: World, d: Id, generation: u64): Outcome {
    if !w.mem.window.applyPrepared then Answer(ApplyAbortAck(d, false, NotPrepared))
    else if d != w.mem.window.deployment || generation != w.mem.window.generation then
      Answer(ApplyAbortAck(d, false, Conflict))
    else
      Outcome((if d in w.mem.transfers then [RemovePending(w.mem.transfers[d].key)] else []) +
              [NoteRollback(w.mem.counters), Commit(AgentApplyResolved(w.mem.counters.activations))],
              [ApplyAbortAck(d, true, Success)])
  }

  // ---- onReconcileRequest (src/agent.cpp:1757-1828) ----

  function StatusOf(w: World, r: TransferRecord): TransferStatus {
    var usable := if r.deployment in w.files.staging then |w.files.staging[r.deployment]| else 0;
    var received := if usable < r.bytesReceived then usable else r.bytesReceived;
    TransferStatus(r.deployment, r.stream, r.key, r.generation, r.digest, received, r.totalBytes,
                   r.verified && received == r.totalBytes, r.staged)
  }

  /** `listed` is the prefix of the transfer table that fits the report. */
  function ReportOf(cfg: Config, w: World, listed: seq<Id>, maxFindings: u32): ReconcileReport
    requires forall d :: d in listed ==> d in w.mem.transfers
  {
    var take := if maxFindings < |w.mem.findings| then maxFindings else |w.mem.findings|;
    ReconcileReport(w.mem.identity.target, w.mem.identity.klass, w.mem.identity.guarantee, w.mem.identity.term,
                    w.mem.identity.incarnation, w.mem.committed, w.mem.window, w.mem.identity.restartCount,
                    if w.mem.counters.applyRollbacks < U32_LIMIT then w.mem.counters.applyRollbacks else U32_LIMIT - 1,
                    seq(|listed|, i requires 0 <= i < |listed| => StatusOf(w, w.mem.transfers[listed[i]])),
                    w.mem.findings[|w.mem.findings| - take..])
  }

  // ---- onRetire (src/agent.cpp:1830-1846) ----

  function RetireOutcome(w: World, d: Id, generation: u64): Outcome {
    if IsSet(w.mem.committed) && generation >= w.mem.committed.generation then Answer(RetireAck(d, false))
    else Outcome(Destroy(w, d), [RetireAck(d, true)])
  }

  // ---- One message ----

  /** What the environment contributes to handling one message: the clock, and which transfers a report lists. */
  datatype Input = Input(message: Message, now: i64, listed: seq<Id>)

  predicate ValidInput(w: World, i: Input) {
    && Decodable(i.message)
    && |i.listed| <= MAX_TRANSFERS_IN_REPORT
    && forall d :: d in i.listed ==> d in w.mem.transfers
  }

  ghost function Handle(cfg: Config, w: World, i: Input): Outcome
    requires ValidInput(w, i)
  {
    match i.message
    case Hello(f) => HelloOutcome(w, f)
    case Prepare(m) => PrepareOutcome(cfg, w, m, i.now)
    case Chunk(s, o, data) => ChunkOutcome(w, s, o, data, i.now)
    case TransferComplete(d, h, n) => CompleteOutcome(cfg, w, d, h, n, i.now)
    case Stage(d, g, h) => StageOutcome(w, d, g, h, i.now)
    case ApplyPrepare(d, g, h) => ApplyPrepareOutcome(cfg, w, d, g, h)
    case ApplyCommit(d, g, h) => ApplyCommitOutcome(cfg, w, d, g, h, i.now)
    case ApplyAbort(d, g) => ApplyAbortOutcome(w, d, g)
    case ReconcileRequest(n) => Answer(Report(ReportOf(cfg, w, i.listed, n)))
    case Retire(d, g) => RetireOutcome(w, d, g)
  }

  // ---- Start-up: a new term, then recoverLiveArea (src/agent.cpp:354-612) ----

  /** The directory listings a start-up sees, in whatever order the system returns them: staging files, recorded
      transfers, and the directories below the live root that hold a pointer or a marker. */
  datatype Listing = Listing(staged: seq<Id>, transfers: seq<Id>, keys: seq<Id>, incarnation: Bytes)

  predicate Lists(names: seq<Id>, s: set<Id>) {
    (forall n :: n in names ==> n in s) && (forall n :: n in s ==> n in names)
  }

  predicate Distinct(names: seq<Id>) {
    forall i, j :: 0 <= i < j < |names| ==> names[i] != names[j]
  }

  predicate ValidListing(cfg: Config, w: World, l: Listing) {
    && Lists(l.staged, w.files.staging.Keys)
    && Lists(l.transfers, w.dur.transfers.Keys)
    && Lists(l.keys, set k | k in w.files.current.Keys + w.files.pending.Keys && Listed(cfg.liveRoot, k))
    && Distinct(l.staged) && Distinct(l.transfers) && Distinct(l.keys)
  }

  /** The process died: only what is durable is left, and the store is opened again. */
  function Reload(w: World): World {
    w.(mem := w.dur, chunkCounter := 0)
  }

  /** `open` refuses once the boot term or the restart counter is exhausted. */
  predicate CanBoot(s: AgentState) {
    s.identity.term < U64_LIMIT - 1 && s.identity.restartCount < U32_LIMIT - 1
  }

  function NextIdentity(cfg: Config, s: AgentState, incarnation: Bytes): Identity
    requires CanBoot(s)
  {
    Identity(cfg.target, cfg.klass, cfg.guarantee, s.identity.term + 1, incarnation, s.identity.restartCount + 1)
  }

  function Strays(w: World, names: seq<Id>): seq<Effect> {
    if names == [] then []
    else (if names[0] in w.mem.transfers then [] else [RemoveStaging(names[0])]) + Strays(w, names[1..])
  }

  predicate Supported(w: World, d: Id)
    requires d in w.mem.transfers
  {
    d in w.files.staging && |w.files.staging[d]| >= w.mem.transfers[d].bytesReceived
  }

  predicate Oversized(w: World, d: Id)
    requires d in w.mem.transfers
  {
    Supported(w, d) && |w.files.staging[d]| > w.mem.transfers[d].bytesReceived
  }

  function Resizes(w: World, ds: seq<Id>): seq<Effect>
    requires forall d :: d in ds ==> d in w.mem.transfers
  {
    if ds == [] then []
    else (if Oversized(w, ds[0]) then [ResizeStaging(ds[0], w.mem.transfers[ds[0]].bytesReceived)] else []) + Resizes(w, ds[1..])
  }

  function Discards(w: World, ds: seq<Id>): seq<Effect>
    requires forall d :: d in ds ==> d in w.mem.transfers
  {
    if ds == [] then []
    else (if Supported(w, ds[0]) then [] else [RemoveStaging(ds[0]), Commit(AgentTransferRemove(ds[0]))]) + Discards(w, ds[1..])
  }

  function Checkpoints(w: World, ds: seq<Id>): seq<Effect>
    requires forall d :: d in ds ==> d in w.mem.transfers
  {
    if ds == [] then []
    else (if Oversized(w, ds[0]) then [Commit(AgentTransferUpsert(w.mem.transfers[ds[0]]))] else []) + Checkpoints(w, ds[1..])
  }

  predicate PayloadVerifies(cfg: Config, w: World, k: Id, p: Pointer) {
    && (k, p.generation, p.digest) in w.files.payload
    && cfg.hash(w.files.payload[(k, p.generation, p.digest)]) == p.digest
  }

  /** The prepare marker of one key directory is resolved against the live pointer. */
  function ResolvePending(w: World, k: Id): seq<Effect> {
    if k !in w.files.pending then []
    else
      (if k in w.files.current && w.files.current[k].generation == w.mem.window.generation
          && w.files.current[k].digest == w.mem.window.digest
       then [] else [NoteRollback(w.mem.counters)]) +
      [RemovePending(k)] +
      (if w.mem.window.applyPrepared then [Commit(AgentApplyResolved(w.mem.counters.activations))] else [])
  }

  /** The durable record is brought to the live pointer, in either direction. */
  function AdoptPointer(cfg: Config, w: World, k: Id): seq<Effect> {
    if k in w.files.current then
      var p := w.files.current[k];
      if cfg.verifyOnStart && !PayloadVerifies(cfg, w, k, p) then [Commit(AgentTargetCommit(NOTHING))]
      else if p.generation == w.mem.committed.generation && p.digest == w.mem.committed.digest && IsSet(w.mem.committed) then []
      else [Commit(AgentTargetCommit(p))]
    else if IsSet(w.mem.committed) then [Commit(AgentTargetCommit(NOTHING))]
    else []
  }

  function RecoverKey(cfg: Config, w: World, k: Id): seq<Effect> {
    ResolvePending(w, k) + AdoptPointer(cfg, Run(w, ResolvePending(w, k)), k)
  }

  function RecoverKeys(cfg: Config, w: World, keys: seq<Id>): seq<Effect>
    decreases |keys|
  {
    if keys == [] then []
    else if Skipped(cfg.liveRoot, keys[0]) then RecoverKeys(cfg, w, keys[1..])
    else RecoverKey(cfg, w, keys[0]) + RecoverKeys(cfg, Run(w, RecoverKey(cfg, w, keys[0])), keys[1..])
  }

  function CloseWindow(w: World): seq<Effect> {
    if w.mem.window.applyPrepared then
      [NoteRollback(w.mem.counters), Commit(AgentApplyResolved(w.mem.counters.activations))]
    else []
  }

  /** Step 1 of recovery: partial transfers are kept only when the bytes on disk support them. */
  function RecoverTransfers(w: World, l: Listing): seq<Effect>
    requires forall d :: d in l.transfers ==> d in w.mem.transfers
  {
    Strays(w, l.staged) + Resizes(w, l.transfers) + Discards(w, l.transfers) + Checkpoints(w, l.transfers)
  }

  /** Steps 2 and 3. */
  function RecoverLive(cfg: Config, w: World, l: Listing): seq<Effect> {
    RecoverKeys(cfg, w, l.keys) + CloseWindow(Run(w, RecoverKeys(cfg, w, l.keys)))
  }

  function Boot(cfg: Config, w: World, l: Listing): seq<Effect>
    requires w.mem == w.dur && CanBoot(w.mem) && ValidListing(cfg, w, l)
  {
    var identified := Do(w, Commit(AgentIdentity(NextIdentity(cfg, w.mem, l.incarnation))));
    var transfers := RecoverTransfers(identified, l);
    [Commit(AgentIdentity(NextIdentity(cfg, w.mem, l.incarnation)))] + transfers +
    RecoverLive(cfg, Run(identified, transfers), l)
  }
}
