/** The protocol messages the agent and the distributor exchange (include/cf/protocol.hpp), as decoded values. */
module Messages {
  import opened Prelude
  import opened Lifecycle
  import opened AgentState

  const MAX_TRANSFERS_IN_REPORT: nat := 64
  const MAX_FINDINGS_IN_REPORT: nat := 64
  const MAX_CHUNK_BYTES: nat := 0x80_0000

  /** The error codes the modelled branches report. */
  datatype Code =
    | Success | Refused | OversizePayload | StaleGeneration | GenerationConflict | GuaranteeUnsupported | Busy
    | NotFound | ReorderedFrame | SizeMismatch | Conflict | DigestMismatch | NotPrepared | ArtifactUnavailable
    | UnexpectedMessage | DuplicateSuppressed | IoFailure | StaleEpoch | FencedIncarnation | ApplyFailed
    | PolicyDenied | ProtocolViolation | IntegrityFailure | SchemaUnsupported | InvalidArgument | UnsupportedVersion
    | UnsupportedFeature | CapabilityMismatch | ConnectionClosed | Unauthorized | InvalidTransition | ArithmeticOverflow

  datatype PrepareMessage = PrepareMessage(
    deployment: Id, key: Id, artifact: Id, generation: u64, digest: Digest, sizeBytes: u64,
    schema: Id, schemaVersion: u32, requirement: Requirement, guarantee: Guarantee, authorityEpoch: u64,
    attempt: u64, stream: u64, chunkBytes: u32, resumeFromOffset: u64)

  datatype DeliveryAckMessage = DeliveryAckMessage(
    deployment: Id, key: Id, generation: u64, digest: Digest, artifact: Id, state: DeliveryState,
    term: u64, incarnation: Bytes, authorityEpoch: u64, guarantee: Guarantee, bytesTransferred: u64,
    targetTimestamp: i64, evidenceFromReconcile: bool)

  datatype TransferStatus = TransferStatus(
    deployment: Id, stream: u64, key: Id, generation: u64, digest: Digest,
    bytesReceived: u64, totalBytes: u64, verified: bool, staged: bool)

  datatype ReconcileReport = ReconcileReport(
    target: Id, klass: TargetClass, guarantee: Guarantee, term: u64, incarnation: Bytes,
    committed: Pointer, window: Window, restartCount: u32, applyRollbacks: u32,
    transfers: seq<TransferStatus>, findings: seq<AppliedFinding>)

  /** What a session delivers to the agent. */
  datatype Message =
    | Hello(fence: ControllerFence)
    | Prepare(offer: PrepareMessage)
    | Chunk(stream: u64, offset: u64, data: Bytes)
    | TransferComplete(deployment: Id, digest: Digest, sizeBytes: u64)
    | Stage(deployment: Id, generation: u64, digest: Digest)
    | ApplyPrepare(deployment: Id, generation: u64, digest: Digest)
    | ApplyCommit(deployment: Id, generation: u64, digest: Digest)
    | ApplyAbort(deployment: Id, generation: u64)
    | ReconcileRequest(maxFindings: u32)
    | Retire(deployment: Id, generation: u64)

  /** The checks the message decoders make before a handler sees a message. */
  predicate Decodable(m: Message) {
    match m
    case Hello(_) => true
    case Prepare(p) =>
      && p.deployment != UNSET && p.key != UNSET && p.artifact != UNSET && p.schema != UNSET && p.generation != 0 && p.digest != NO_DIGEST
      && p.sizeBytes != 0 && 1 <= p.chunkBytes <= MAX_CHUNK_BYTES && p.stream != 0 && p.authorityEpoch != 0
    case Chunk(s, _, data) => s != 0 && data != [] && |data| <= MAX_CHUNK_BYTES
    case TransferComplete(d, _, _) => d != UNSET
    case Stage(d, g, _) => d != UNSET && g != 0
    case ApplyPrepare(d, g, _) => d != UNSET && g != 0
    case ApplyCommit(d, g, _) => d != UNSET && g != 0
    case ApplyAbort(d, g) => d != UNSET && g != 0
    case ReconcileRequest(n) => n <= MAX_FINDINGS_IN_REPORT
    case Retire(d, g) => d != UNSET && g != 0
  }

  /** What the agent answers. */
  datatype Reply =
    | HelloAck(target: Id, klass: TargetClass, guarantee: Guarantee, term: u64, incarnation: Bytes, committed: Pointer)
    | AuthReject(code: Code)
    | PrepareAck(deployment: Id, stream: u64, resumeFrom: u64, duplicateSuppressed: bool,
                 priorGeneration: u64, priorDigest: Digest, committed: Pointer)
    | PrepareReject(deployment: Id, code: Code, committedGeneration: u64)
    | ChunkAck(stream: u64, bytesReceived: u64, code: Code)
    | TransferResult(deployment: Id, verified: bool, bytesReceived: u64, code: Code)
    | StageAck(deployment: Id, staged: bool, code: Code)
    | ApplyPrepareAck(deployment: Id, prepared: bool, code: Code)
    | ApplyCommitAck(deployment: Id, isCommitted: bool, code: Code, committedGeneration: u64, committedDigest: Digest)
    | ApplyAbortAck(deployment: Id, aborted: bool, code: Code)
    | DeliveryAck(ack: DeliveryAckMessage)
    | DeliveryNack(deployment: Id, code: Code)
    | Report(report: ReconcileReport)
    | RetireAck(deployment: Id, retired: bool)
}
