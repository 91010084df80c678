/** What every operation of the artifact store does to its files and to its index (class ArtifactStore,
    src/artifact.cpp): each operation is a list of file effects, so a crash may fall between any two of them. */
module ArtifactModel {
  import opened Prelude
  import opened AgentState
  import opened ArtifactIndex

  const MAX_MEDIA_TYPE: nat := 64
  const MAX_PRODUCER: nat := 128

  /** The bounds a store is opened with; `hash` stands for SHA-256. */
  datatype Limits = Limits(hash: Bytes -> Digest, maxArtifactBytes: u64, maxTotalBytes: u64, maxArtifacts: nat, readChunkBytes: nat)

  datatype Disk = Disk(
    staging: map<Id, Bytes>, payload: map<Digest, Bytes>, meta: map<Digest, Metadata>, corrupt: map<Digest, Bytes>)

  const EMPTY: Disk := Disk(map[], map[], map[], map[])

  datatype Effect =
    | WriteStaging(name: Id, content: Bytes)
    | RemoveStaging(name: Id)
    | PublishPayload(name: Id, digest: Digest)
    | WriteMetadata(digest: Digest, metadata: Metadata)
    | RemoveMetadata(digest: Digest)
    | RemovePayload(digest: Digest)
    | RemoveCorrupt(digest: Digest)
    | SetAside(digest: Digest)

  function Do(k: Disk, e: Effect): Disk {
    match e
    case WriteStaging(n, c) => k.(staging := k.staging[n := c])
    case RemoveStaging(n) => k.(staging := k.staging - {n})
    case PublishPayload(n, d) =>
      if n in k.staging then k.(payload := k.payload[d := k.staging[n]], staging := k.staging - {n}) else k
    case WriteMetadata(d, m) => k.(meta := k.meta[d := m])
    case RemoveMetadata(d) => k.(meta := k.meta - {d})
    case RemovePayload(d) => k.(payload := k.payload - {d})
    case RemoveCorrupt(d) => k.(corrupt := k.corrupt - {d})
    case SetAside(d) =>
      if d in k.payload then k.(corrupt := k.corrupt[d := k.payload[d]], payload := k.payload - {d}) else k
  }

  function DoAll(k: Disk, es: seq<Effect>): Disk
    decreases |es|
  {
    if es == [] then k else DoAll(Do(k, es[0]), es[1..])
  }

  lemma {:induction false} DoConcat(k: Disk, a: seq<Effect>, b: seq<Effect>)
    ensures DoAll(k, a + b) == DoAll(DoAll(k, a), b)
    decreases |a|
  {
    if a == [] {
      assert a + b == b;
    } else {
      assert (a + b)[1..] == a[1..] + b;
      DoConcat(Do(k, a[0]), a[1..], b);
    }
  }

  // ---- The index in memory ----

  datatype Store = Store(index: seq<Metadata>, used: u64)

  datatype Failure =
    | OversizePayload | SizeMismatch | DigestMismatch | IntegrityFailure | InvalidArgument | NotFound
    | ArtifactUnavailable | CountExhausted | BytesExhausted | LimitExceeded

  datatype Outcome = Accepted | Failed(failure: Failure)

  datatype Plan = Plan(effects: seq<Effect>, store: Store, outcome: Outcome)

  datatype Operation =
    | Ingest(name: Id, content: Bytes, declared: Metadata)
    | Verify(digest: Digest)
    | Collect(live: seq<Digest>)

  /** Erasing subtracts the recorded size and never goes below zero. */
  function Erase(s: Store, d: Digest): Store {
    match Find(s.index, d)
    case None => s
    case Some(m) => Store(Replace(s.index, d, None), if s.used > m.sizeBytes then s.used - m.sizeBytes else 0)
  }

  /** What reading the payload back in order says, whatever the chunk size. */
  function Check(lim: Limits, k: Disk, s: Store, d: Digest): Outcome {
    if d == NO_DIGEST then Failed(InvalidArgument)
    else
      match Find(s.index, d)
      case None => Failed(NotFound)
      case Some(m) =>
        if d !in k.payload then Failed(ArtifactUnavailable)
        else if |k.payload[d]| < m.sizeBytes then Failed(IntegrityFailure)
        else if m.sizeBytes == 0 || lim.hash(k.payload[d][..m.sizeBytes]) != d then Failed(DigestMismatch)
        else Accepted
  }

  predicate IsCorrupt(o: Outcome) {
    o == Failed(IntegrityFailure) || o == Failed(DigestMismatch)
  }

  function VerifyPlan(lim: Limits, k: Disk, s: Store, d: Digest): Plan {
    var o := Check(lim, k, s, d);
    if IsCorrupt(o) then Plan([RemoveCorrupt(d), SetAside(d)], Erase(s, d), o) else Plan([], s, o)
  }

  predicate Encodable(m: Metadata) {
    |m.mediaType| <= MAX_MEDIA_TYPE && |m.producer| <= MAX_PRODUCER
  }

  function Stored(declared: Metadata, d: Digest, size: u64): Metadata {
    declared.(digest := d, sizeBytes := size)
  }

  /** `publish`, with the staged file in place. */
  function PublishPlan(lim: Limits, k: Disk, s: Store, name: Id, declared: Metadata, d: Digest, size: u64): Plan {
    var m := Stored(declared, d, size);
    var present := Find(s.index, d).Some?;
    if !present && |s.index| >= lim.maxArtifacts then Plan([RemoveStaging(name)], s, Failed(CountExhausted))
    else if !present && (size > lim.maxTotalBytes || s.used > lim.maxTotalBytes - size) then
      Plan([RemoveStaging(name)], s, Failed(BytesExhausted))
    else if !Encodable(m) then Plan([RemoveStaging(name)], s, Failed(LimitExceeded))
    else if present then
      var v := VerifyPlan(lim, k, s, d);
      if v.outcome == Accepted && d !in k.meta then Plan([RemoveStaging(name), WriteMetadata(d, m)], s, Accepted)
      else Plan([RemoveStaging(name)] + v.effects, v.store, v.outcome)
    else
      Plan([PublishPayload(name, d), WriteMetadata(d, m)], Store(Replace(s.index, d, Some(m)), s.used + size), Accepted)
  }

  function IngestPlan(lim: Limits, k: Disk, s: Store, name: Id, content: Bytes, declared: Metadata): Plan {
    if |content| > lim.maxArtifactBytes then Plan([], s, Failed(OversizePayload))
    else if |content| != declared.sizeBytes then Plan([], s, Failed(SizeMismatch))
    else if lim.hash(content) != declared.digest then Plan([], s, Failed(DigestMismatch))
    else
      var staged := WriteStaging(name, content);
      var p := PublishPlan(lim, Do(k, staged), s, name, declared, declared.digest, |content|);
      p.(effects := [staged] + p.effects)
  }

  /** The indexed artifacts no one keeps, in index order. */
  function Doomed(index: seq<Metadata>, live: seq<Digest>): seq<Digest> {
    if index == [] then []
    else (if index[0].digest in live then [] else [index[0].digest]) + Doomed(index[1..], live)
  }

  function Removals(ds: seq<Digest>): seq<Effect> {
    if ds == [] then [] else [RemovePayload(ds[0]), RemoveMetadata(ds[0])] + Removals(ds[1..])
  }

  function EraseEach(s: Store, ds: seq<Digest>): Store
    decreases |ds|
  {
    if ds == [] then s else EraseEach(Erase(s, ds[0]), ds[1..])
  }

  function PlanOf(lim: Limits, k: Disk, s: Store, op: Operation): Plan {
    match op
    case Ingest(n, c, m) => IngestPlan(lim, k, s, n, c, m)
    case Verify(d) => VerifyPlan(lim, k, s, d)
    case Collect(live) => Plan(Removals(Doomed(s.index, live)), EraseEach(s, Doomed(s.index, live)), Accepted)
  }

  // ---- What reopening rebuilds ----

  /** An artifact is found again when both its files are there. */
  function Entry(k: Disk, d: Digest): Option<Metadata> {
    if d in k.meta && d in k.payload then Some(k.meta[d]) else None
  }

  /** Every metadata file carries the digest it is named after. */
  ghost predicate Named(k: Disk) {
    forall d :: d in k.meta ==> k.meta[d].digest == d
  }

  ghost predicate IsIndexOf(index: seq<Metadata>, k: Disk) {
    Sorted(index) && forall m :: m in index <==> Entry(k, m.digest) == Some(m)
  }

  ghost function Rebuilt(k: Disk, ds: set<Digest>): (index: seq<Metadata>)
    requires Named(k) && ds <= k.meta.Keys
    ensures Sorted(index) && forall m :: m in index <==> m.digest in ds && Entry(k, m.digest) == Some(m)
  {
    if ds == {} then []
    else
      var d :| d in ds;
      var rest := Rebuilt(k, ds - {d});
      ReplaceSound(rest, d, Entry(k, d));
      Replace(rest, d, Entry(k, d))
  }

  /** The index a store opened on this disk starts with. */
  ghost function IndexOf(k: Disk): (index: seq<Metadata>)
    requires Named(k)
    ensures IsIndexOf(index, k)
  {
    Rebuilt(k, k.meta.Keys)
  }

  /** There is exactly one such index, so it does not matter in which order the directory is read. */
  lemma IndexIsUnique(a: seq<Metadata>, k: Disk)
    requires Named(k) && IsIndexOf(a, k)
    ensures a == IndexOf(k)
  {
    SortedIsUnique(a, IndexOf(k));
  }
}
