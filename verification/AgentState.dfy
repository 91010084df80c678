/** The durable state of a target agent and the journal records that change it
    (include/cf/state.hpp, AgentStateCodec::apply in src/state.cpp). */
module AgentState {
  import opened Prelude
  import opened Lifecycle

  /** Identifiers are validated strings; the empty one is the unset identifier. */
  type Id = string

  /** A SHA-256 value; all-zero means unset. */
  type Digest = Bytes

  const UNSET: Id := ""
  const NO_DIGEST: Digest := Zeros(32)
  const MAX_FINDINGS: nat := 128

  datatype TargetClass = Unspecified | NetworkDevice | ControlPlaneParticipant
  datatype Guarantee = AtomicActivate | PrepareCommitAbort
  datatype Requirement = RequireAtomic | AllowPrepareCommit

  predicate GuaranteeSatisfies(offered: Guarantee, required: Requirement) {
    required == RequireAtomic ==> offered == AtomicActivate
  }

  datatype Identity = Identity(
    target: Id, klass: TargetClass, guarantee: Guarantee, term: u64, incarnation: Bytes, restartCount: u32)

  datatype ControllerFence = ControllerFence(epoch: u64, incarnation: Bytes, node: Id)

  /** What a live pointer, a commit record or a prepare marker names. Generation 0 is unset. */
  datatype Pointer = Pointer(generation: u64, digest: Digest, artifact: Id)

  const NOTHING: Pointer := Pointer(0, NO_DIGEST, UNSET)

  datatype Window = Window(applyPrepared: bool, deployment: Id, generation: u64, digest: Digest)

  const CLOSED: Window := Window(false, UNSET, 0, NO_DIGEST)

  datatype TransferRecord = TransferRecord(
    deployment: Id, stream: u64, key: Id, artifact: Id, generation: u64, digest: Digest,
    totalBytes: u64, bytesReceived: u64, verified: bool, staged: bool, updatedAt: i64)

  datatype AppliedFinding = AppliedFinding(
    key: Id, generation: u64, digest: Digest, artifact: Id, deployment: Id, state: DeliveryState, recordedAt: i64)

  datatype Counters = Counters(
    activations: u64, duplicatesSuppressed: u64, staleOffersRefused: u64, digestRejections: u64, applyRollbacks: u64)

  datatype AgentState = AgentState(
    identity: Identity, fence: ControllerFence, committed: Pointer, window: Window,
    transfers: map<Id, TransferRecord>, findings: seq<AppliedFinding>, counters: Counters)

  const INITIAL: AgentState :=
    AgentState(Identity(UNSET, Unspecified, AtomicActivate, 0, Zeros(16), 0),
               ControllerFence(0, Zeros(16), UNSET), NOTHING, CLOSED, map[], [], Counters(0, 0, 0, 0, 0))

  /** The journal records an agent writes, decoded. */
  datatype Record =
    | AgentIdentity(identity: Identity)
    | AgentControllerFence(fence: ControllerFence)
    | AgentTargetCommit(pointer: Pointer)
    | AgentTransferUpsert(transfer: TransferRecord)
    | AgentTransferRemove(deployment: Id)
    | AgentFindingUpsert(finding: AppliedFinding)
    | AgentApplyPrepared(preparedDeployment: Id, preparedGeneration: u64, preparedDigest: Digest)
    | AgentApplyResolved(activations: u64)
    | AgentRollbackNote(rollbacks: u64, duplicates: u64, stale: u64, rejections: u64)
    | Note

  predicate SameFinding(a: AppliedFinding, key: Id, digest: Digest) {
    a.key == key && a.digest == digest
  }

  /** The position of the first finding for (key, digest), as the search loops of the source find it. */
  function FindingIndex(findings: seq<AppliedFinding>, key: Id, digest: Digest): (r: Option<nat>)
    ensures r.Some? ==> r.value < |findings| && SameFinding(findings[r.value], key, digest)
    ensures r.None? ==> forall f :: f in findings ==> !SameFinding(f, key, digest)
  {
    if findings == [] then None
    else if SameFinding(findings[0], key, digest) then Some(0)
    else
      match FindingIndex(findings[1..], key, digest)
      case None => None
      case Some(i) => Some(i + 1)
  }

  function FindFinding(findings: seq<AppliedFinding>, key: Id, digest: Digest): (r: Option<AppliedFinding>)
    ensures r.Some? ==> r.value in findings && SameFinding(r.value, key, digest)
  {
    match FindingIndex(findings, key, digest)
    case None => None
    case Some(i) => Some(findings[i])
  }

  /** Replaces the finding for the same key and digest, or appends, dropping the oldest at the bound. */
  function UpsertFinding(findings: seq<AppliedFinding>, f: AppliedFinding): (r: seq<AppliedFinding>)
    ensures f in r
    ensures forall x :: x in r ==> x == f || x in findings
    ensures |findings| <= MAX_FINDINGS ==> |r| <= MAX_FINDINGS
  {
    match FindingIndex(findings, f.key, f.digest)
    case Some(i) =>
      var replaced := findings[i := f];
      assert replaced[i] == f;
      replaced
    case None => if |findings| >= MAX_FINDINGS then findings[1..] + [f] else findings + [f]
  }

  function Apply(s: AgentState, r: Record): AgentState {
    match r
    case AgentIdentity(i) => s.(identity := i)
    case AgentControllerFence(f) => s.(fence := if f.node == UNSET then f.(node := s.fence.node) else f)
    case AgentTargetCommit(p) =>
      s.(committed := if p.artifact == UNSET then p.(artifact := s.committed.artifact) else p)
    case AgentTransferUpsert(t) => s.(transfers := s.transfers[t.deployment := t])
    case AgentTransferRemove(d) => s.(transfers := s.transfers - {d})
    case AgentFindingUpsert(f) => s.(findings := UpsertFinding(s.findings, f))
    case AgentApplyPrepared(d, g, h) => s.(window := Window(true, d, g, h))
    case AgentApplyResolved(n) => s.(window := CLOSED, counters := s.counters.(activations := n))
    case AgentRollbackNote(rollbacks, duplicates, stale, rejections) =>
      s.(counters := Counters(s.counters.activations, duplicates, stale, rejections, rollbacks))
    case Note => s
  }
}
