/** The agent's durable state as bytes (AgentStateCodec, src/state.cpp): journal record payloads, the snapshot, and what
    the durable store relies on. */
module AgentCodec {
  import opened Prelude
  import opened LittleEndian
  import opened AgentState
  import opened AgentModel
  import opened Fields
  import opened MessageCodec
  import opened Tables
  import JournalFormat
  import StoreModel
  import StoreRuns

  const MAX_TRANSFERS: nat := 100000
  const MAX_NOTE: nat := 256

  predicate MaybeId(s: Id) {
    s == UNSET || IsIdentifier(s)
  }

  // ---- Well-formed parts ----

  predicate IdentityOk(i: Identity) {
    MaybeId(i.target) && |i.incarnation| == 16
  }

  predicate FenceOk(f: ControllerFence) {
    MaybeId(f.node) && |f.incarnation| == 16
  }

  predicate PointerOk(p: Pointer) {
    MaybeId(p.artifact) && |p.digest| == 32
  }

  predicate WindowFits(w: Window) {
    MaybeId(w.deployment) && |w.digest| == 32
  }

  const TRANSFER: seq<Shape> :=
    [AN_ID, A_U64, AN_ID, AN_OPTIONAL_ID, A_U64, A_DIGEST, A_U64, A_U64, AFlag, AFlag, ASigned]

  function TransferFields(t: TransferRecord): seq<Field> {
    [Text(t.deployment), Num(t.stream), Text(t.key), Text(t.artifact), Num(t.generation), Raw(t.digest),
     Num(t.totalBytes), Num(t.bytesReceived), Flag(t.verified), Flag(t.staged), Signed(t.updatedAt)]
  }

  function TransferRecordOf(fs: seq<Field>): TransferRecord
    requires AllFit(fs, TRANSFER)
  {
    TransferRecord(TextOf(fs[0]), U64Of(fs[1]), TextOf(fs[2]), TextOf(fs[3]), U64Of(fs[4]), BytesOf(fs[5]), U64Of(fs[6]),
                   U64Of(fs[7]), SetOf(fs[8]), SetOf(fs[9]), I64Of(fs[10]))
  }

  predicate TransferOk(t: TransferRecord) {
    AllFit(TransferFields(t), TRANSFER) && t.bytesReceived <= t.totalBytes
  }

  const FINDING: seq<Shape> := [AN_ID, A_U64, A_DIGEST, AN_OPTIONAL_ID, AN_ID, A_STATE, ASigned]

  function StoredFinding(fs: seq<Field>): AppliedFinding
    requires AllFit(fs, FINDING)
  {
    AppliedFinding(TextOf(fs[0]), U64Of(fs[1]), BytesOf(fs[2]), TextOf(fs[3]), TextOf(fs[4]), StateOf(NumberOf(fs[5])), I64Of(fs[6]))
  }

  predicate FindingOk(f: AppliedFinding) {
    AllFit(FindingRow(f), FINDING)
  }

  lemma TransferInverse(t: TransferRecord)
    requires TransferOk(t)
    ensures TransferRecordOf(TransferFields(t)) == t
  {
  }

  lemma FindingInverse(f: AppliedFinding)
    requires FindingOk(f)
    ensures StoredFinding(FindingRow(f)) == f
  {
    Codes();
  }

  /** Every state that records can build. */
  predicate WellFormed(s: AgentState) {
    && IdentityOk(s.identity) && FenceOk(s.fence) && PointerOk(s.committed) && WindowFits(s.window)
    && (forall d :: d in s.transfers ==> s.transfers[d].deployment == d && TransferOk(s.transfers[d]))
    && (forall f :: f in s.findings ==> FindingOk(f))
  }

  // ---- Journal records ----

  predicate RecordOk(r: Record) {
    match r
    case AgentIdentity(i) => IsIdentifier(i.target) && |i.incarnation| == 16 && i.term != 0
    case AgentControllerFence(f) => FenceOk(f)
    case AgentTargetCommit(p) => PointerOk(p)
    case AgentTransferUpsert(t) => TransferOk(t)
    case AgentTransferRemove(d) => IsIdentifier(d)
    case AgentFindingUpsert(f) => FindingOk(f)
    case AgentApplyPrepared(d, _, h) => IsIdentifier(d) && |h| == 32
    case _ => true
  }

  lemma ApplyKeepsWellFormed(s: AgentState, r: Record)
    requires WellFormed(s) && RecordOk(r)
    ensures WellFormed(Apply(s, r))
  {
    hide TransferOk, FindingOk, IsIdentifier;
    var t := Apply(s, r);
    forall f | f in t.findings ensures FindingOk(f) {}
  }

  const IDENTITY: seq<Shape> := [AN_ID, A_CLASS, A_GUARANTEE, A_SET_U64, AN_OPAQUE, A_U32]
  const FENCE: seq<Shape> := [A_U64, AN_OPAQUE, AN_OPTIONAL_ID]
  const COMMIT: seq<Shape> := [A_U64, A_DIGEST, AN_OPTIONAL_ID]
  const REMOVE: seq<Shape> := [AN_ID]
  const PREPARED: seq<Shape> := [AN_ID, A_U64, A_DIGEST]
  const RESOLVED: seq<Shape> := [A_U64]
  const ROLLBACK: seq<Shape> := [A_U64, A_U64, A_U64, A_U64]

  function Kind(r: Record): u32 {
    match r
    case AgentIdentity(_) => 60
    case AgentTargetCommit(_) => 61
    case AgentTransferUpsert(_) => 62
    case AgentTransferRemove(_) => 63
    case AgentFindingUpsert(_) => 64
    case AgentApplyPrepared(_, _, _) => 65
    case AgentApplyResolved(_) => 66
    case AgentControllerFence(_) => 67
    case AgentRollbackNote(_, _, _, _) => 68
    case Note => 90
  }

  function Shapes(kind: u32): seq<Shape> {
    if kind == 60 then IDENTITY
    else if kind == 61 then COMMIT
    else if kind == 62 then TRANSFER
    else if kind == 63 then REMOVE
    else if kind == 64 then FINDING
    else if kind == 65 then PREPARED
    else if kind == 66 then RESOLVED
    else if kind == 67 then FENCE
    else if kind == 68 then ROLLBACK
    else []
  }

  function RecordFields(r: Record): seq<Field> {
    match r
    case AgentIdentity(i) =>
      [Text(i.target), Num(ClassCode(i.klass)), Num(GuaranteeCode(i.guarantee)), Num(i.term), Raw(i.incarnation), Num(i.restartCount)]
    case AgentControllerFence(f) => [Num(f.epoch), Raw(f.incarnation), Text(f.node)]
    case AgentTargetCommit(p) => [Num(p.generation), Raw(p.digest), Text(p.artifact)]
    case AgentTransferUpsert(t) => TransferFields(t)
    case AgentTransferRemove(d) => [Text(d)]
    case AgentFindingUpsert(f) => FindingRow(f)
    case AgentApplyPrepared(d, g, h) => [Text(d), Num(g), Raw(h)]
    case AgentApplyResolved(n) => [Num(n)]
    case AgentRollbackNote(a, b, c, d) => [Num(a), Num(b), Num(c), Num(d)]
    case Note => []
  }

  function RecordOfFields(kind: u32, fs: seq<Field>): Record
    requires AllFit(fs, Shapes(kind)) && 60 <= kind <= 68
  {
    if kind == 60 then
      assert Fits(fs[0], AN_ID) && Fits(fs[1], A_CLASS) && Fits(fs[2], A_GUARANTEE) && Fits(fs[3], A_SET_U64) && Fits(fs[4], AN_OPAQUE) && Fits(fs[5], A_U32);
      AgentIdentity(Identity(fs[0].text, ClassOf(fs[1].value), GuaranteeOf(fs[2].value), fs[3].value, fs[4].bytes, fs[5].value))
    else if kind == 61 then
      assert Fits(fs[0], A_U64) && Fits(fs[1], A_DIGEST) && Fits(fs[2], AN_OPTIONAL_ID);
      AgentTargetCommit(Pointer(fs[0].value, fs[1].bytes, fs[2].text))
    else if kind == 62 then AgentTransferUpsert(TransferRecordOf(fs))
    else if kind == 63 then
      assert Fits(fs[0], AN_ID);
      AgentTransferRemove(fs[0].text)
    else if kind == 64 then AgentFindingUpsert(StoredFinding(fs))
    else if kind == 65 then
      assert Fits(fs[0], AN_ID) && Fits(fs[1], A_U64) && Fits(fs[2], A_DIGEST);
      AgentApplyPrepared(fs[0].text, fs[1].value, fs[2].bytes)
    else if kind == 66 then
      assert Fits(fs[0], A_U64);
      AgentApplyResolved(fs[0].value)
    else if kind == 67 then
      assert Fits(fs[0], A_U64) && Fits(fs[1], AN_OPAQUE) && Fits(fs[2], AN_OPTIONAL_ID);
      AgentControllerFence(ControllerFence(fs[0].value, fs[1].bytes, fs[2].text))
    else
      assert Fits(fs[0], A_U64) && Fits(fs[1], A_U64) && Fits(fs[2], A_U64) && Fits(fs[3], A_U64);
      AgentRollbackNote(fs[0].value, fs[1].value, fs[2].value, fs[3].value)
  }

  /** The decoding half of `apply`: the record a payload stands for, refused on anything malformed or left over. */
  function RecordOf(kind: u32, payload: Bytes): Option<Record> {
    if kind == 90 then
      if |payload| >= 4 && Load32(payload[..4]) <= MAX_NOTE && |payload| == 4 + Load32(payload[..4]) then Some(Note) else None
    else if !(60 <= kind <= 68) then None
    else
      match DecodeAll(Shapes(kind), payload)
      case RefusedAll => None
      case Fields(fs, n) =>
        if n != |payload| || !Plausible(RecordOfFields(kind, fs)) then None else Some(RecordOfFields(kind, fs))
  }

  /** The one check that spans two fields. */
  predicate Plausible(r: Record) {
    r.AgentTransferUpsert? ==> r.transfer.bytesReceived <= r.transfer.totalBytes
  }

  lemma FieldsGiveRecords(kind: u32, fs: seq<Field>)
    requires AllFit(fs, Shapes(kind)) && 60 <= kind <= 68 && Plausible(RecordOfFields(kind, fs))
    ensures RecordOk(RecordOfFields(kind, fs)) && Kind(RecordOfFields(kind, fs)) == kind
  {
    if kind == 62 { AgainTransfer(fs); }
    if kind == 64 { AgainFinding(fs); }
    if kind == 60 { assert Fits(fs[0], AN_ID) && Fits(fs[3], A_SET_U64) && Fits(fs[4], AN_OPAQUE); }
    if kind == 61 { assert Fits(fs[1], A_DIGEST) && Fits(fs[2], AN_OPTIONAL_ID); }
    if kind == 63 { assert Fits(fs[0], AN_ID); }
    if kind == 65 { assert Fits(fs[0], AN_ID) && Fits(fs[2], A_DIGEST); }
    if kind == 67 { assert Fits(fs[1], AN_OPAQUE) && Fits(fs[2], AN_OPTIONAL_ID); }
  }

  lemma AgainTransfer(fs: seq<Field>)
    requires AllFit(fs, TRANSFER)
    ensures TransferFields(TransferRecordOf(fs)) == fs
  {
  }

  lemma AgainFinding(fs: seq<Field>)
    requires AllFit(fs, FINDING)
    ensures FindingRow(StoredFinding(fs)) == fs
  {
    Codes();
    assert Fits(fs[5], A_STATE);
  }

  lemma RecordsFit(r: Record)
    requires RecordOk(r) && r != Note
    ensures AllFit(RecordFields(r), Shapes(Kind(r))) && RecordOfFields(Kind(r), RecordFields(r)) == r
  {
    hide IsIdentifier;
    Codes();
    Wide();
    if r.AgentTransferUpsert? { TransferInverse(r.transfer); }
    if r.AgentFindingUpsert? { FindingInverse(r.finding); }
  }

  /** What a commit appends to the journal is exactly what replay applies. */
  lemma RecordRoundTrip(r: Record)
    requires RecordOk(r) && r != Note
    ensures AllFit(RecordFields(r), Shapes(Kind(r)))
    ensures RecordOf(Kind(r), EncodeAll(RecordFields(r), Shapes(Kind(r)))) == Some(r)
  {
    hide EncodeAll, DecodeAll, Fits, RecordOfFields, RecordFields, AllFit;
    RecordsFit(r);
    RowIff(RecordFields(r), Shapes(Kind(r)), EncodeAll(RecordFields(r), Shapes(Kind(r))));
    TransferPlausible(r);
  }

  lemma TransferPlausible(r: Record)
    requires RecordOk(r)
    ensures Plausible(r)
  {
  }

  lemma DecodedRecordsAreOk(kind: u32, payload: Bytes)
    requires RecordOf(kind, payload).Some?
    ensures RecordOk(RecordOf(kind, payload).value) && Kind(RecordOf(kind, payload).value) == kind
  {
    hide DecodeAll, RecordOfFields, Shapes, AllFit;
    if kind != 90 {
      FieldsGiveRecords(kind, DecodeAll(Shapes(kind), payload).fields);
    }
  }

  // ---- The snapshot ----

  const SNAPSHOT_HEAD: seq<Shape> :=
    [ANum(2, 1, 1), AN_OPTIONAL_ID, A_CLASS, A_GUARANTEE, A_U64, AN_OPAQUE, A_U32, A_U64, AN_OPAQUE, AN_OPTIONAL_ID,
     A_U64, A_DIGEST, AN_OPTIONAL_ID, AFlag, AN_OPTIONAL_ID, A_U64, A_DIGEST, A_U64, A_U64, A_U64, A_U64, A_U64]

  const SNAPSHOT: Layout := Layout(SNAPSHOT_HEAD, TRANSFER, MAX_TRANSFERS, FINDING, MAX_FINDINGS)

  function SnapshotHead(s: AgentState): seq<Field> {
    [Num(1), Text(s.identity.target), Num(ClassCode(s.identity.klass)), Num(GuaranteeCode(s.identity.guarantee)),
     Num(s.identity.term), Raw(s.identity.incarnation), Num(s.identity.restartCount),
     Num(s.fence.epoch), Raw(s.fence.incarnation), Text(s.fence.node),
     Num(s.committed.generation), Raw(s.committed.digest), Text(s.committed.artifact),
     Flag(s.window.applyPrepared), Text(s.window.deployment), Num(s.window.generation), Raw(s.window.digest),
     Num(s.counters.activations), Num(s.counters.duplicatesSuppressed), Num(s.counters.staleOffersRefused),
     Num(s.counters.digestRejections), Num(s.counters.applyRollbacks)]
  }

  function HeadIdentity(fs: seq<Field>): Identity
    requires |fs| == |SNAPSHOT_HEAD|
  {
    Identity(TextOf(fs[1]), ClassOf(NumberOf(fs[2])), GuaranteeOf(NumberOf(fs[3])), U64Of(fs[4]), BytesOf(fs[5]), U32Of(fs[6]))
  }

  function HeadFence(fs: seq<Field>): ControllerFence
    requires |fs| == |SNAPSHOT_HEAD|
  {
    ControllerFence(U64Of(fs[7]), BytesOf(fs[8]), TextOf(fs[9]))
  }

  function HeadCommitted(fs: seq<Field>): Pointer
    requires |fs| == |SNAPSHOT_HEAD|
  {
    Pointer(U64Of(fs[10]), BytesOf(fs[11]), TextOf(fs[12]))
  }

  function HeadWindow(fs: seq<Field>): Window
    requires |fs| == |SNAPSHOT_HEAD|
  {
    Window(SetOf(fs[13]), TextOf(fs[14]), U64Of(fs[15]), BytesOf(fs[16]))
  }

  function HeadCounters(fs: seq<Field>): Counters
    requires |fs| == |SNAPSHOT_HEAD|
  {
    Counters(U64Of(fs[17]), U64Of(fs[18]), U64Of(fs[19]), U64Of(fs[20]), U64Of(fs[21]))
  }

  function HeadState(fs: seq<Field>): AgentState
    requires |fs| == |SNAPSHOT_HEAD|
  {
    AgentState(HeadIdentity(fs), HeadFence(fs), HeadCommitted(fs), HeadWindow(fs), map[], [], HeadCounters(fs))
  }

  predicate FitFrom(fs: seq<Field>, ss: seq<Shape>, low: nat, high: nat) {
    |fs| == |ss| && high <= |ss| && forall i :: low <= i < high ==> Fits(fs[i], ss[i])
  }

  lemma HeadFits(s: AgentState)
    requires IdentityOk(s.identity) && FenceOk(s.fence) && PointerOk(s.committed) && WindowFits(s.window)
    ensures AllFit(SnapshotHead(s), SNAPSHOT_HEAD)
  {
    AuthoritiesFit(s);
    CommitFits(s);
    CountersFit(s);
    hide Fits, SnapshotHead;
  }

  lemma AuthoritiesFit(s: AgentState)
    requires IdentityOk(s.identity) && FenceOk(s.fence)
    ensures FitFrom(SnapshotHead(s), SNAPSHOT_HEAD, 0, 10)
  {
    hide IsIdentifier;
    Codes();
    Wide();
    assert Pow256(2) == 65536;
  }

  lemma CommitFits(s: AgentState)
    requires PointerOk(s.committed) && WindowFits(s.window)
    ensures FitFrom(SnapshotHead(s), SNAPSHOT_HEAD, 10, 17)
  {
    hide IsIdentifier;
    Wide();
  }

  lemma CountersFit(s: AgentState)
    ensures FitFrom(SnapshotHead(s), SNAPSHOT_HEAD, 17, 22)
  {
    Wide();
  }

  lemma HeadDecodes(s: AgentState)
    ensures HeadState(SnapshotHead(s)) == s.(transfers := map[], findings := [])
  {
    hide Fits, AllFit;
    Codes();
  }

  function DeploymentOf(t: TransferRecord): Id {
    t.deployment
  }

  ghost function SnapshotDocument(s: AgentState): Document
    requires WellFormed(s)
  {
    var order := InIdOrder(s.transfers.Keys);
    Document(SnapshotHead(s),
             seq(|order|, i requires 0 <= i < |order| => TransferFields(s.transfers[order[i]])),
             seq(|s.findings|, i requires 0 <= i < |s.findings| => FindingRow(s.findings[i])))
  }

  /** `encodeSnapshot`: refused beyond the bounds. */
  ghost function EncodeSnapshot(s: AgentState): Option<Bytes> {
    if !WellFormed(s) || |s.findings| > MAX_FINDINGS || |s.transfers| > MAX_TRANSFERS then None
    else
      SnapshotFits(s);
      Some(EncodeDocument(SnapshotDocument(s), SNAPSHOT))
  }

  lemma SnapshotFits(s: AgentState)
    requires WellFormed(s) && |s.findings| <= MAX_FINDINGS && |s.transfers| <= MAX_TRANSFERS
    ensures DocumentFits(SnapshotDocument(s), SNAPSHOT)
  {
    hide AllFit, SnapshotHead, FindingRow, TransferFields;
    HeadFits(s);
    var d := SnapshotDocument(s);
    var order := InIdOrder(s.transfers.Keys);
    assert |s.transfers.Keys| == |s.transfers|;
    forall i | 0 <= i < |d.first| ensures AllFit(d.first[i], TRANSFER) { assert TransferOk(s.transfers[order[i]]); }
    forall i | 0 <= i < |d.second| ensures AllFit(d.second[i], FINDING) { assert FindingOk(s.findings[i]); }
  }

  /** `decodeSnapshot`. */
  function DecodeSnapshot(b: Bytes): Option<AgentState> {
    match DecodeDocument(SNAPSHOT, b)
    case None => None
    case Some(d) =>
      var rows := seq(|d.first|, i requires 0 <= i < |d.first| => TransferRecordOf(d.first[i]));
      if exists i :: 0 <= i < |rows| && rows[i].bytesReceived > rows[i].totalBytes then None
      else
        Some(HeadState(d.head).(transfers := Collected(DeploymentOf, rows),
                                findings := seq(|d.second|, i requires 0 <= i < |d.second| => StoredFinding(d.second[i]))))
  }

  /** The snapshot of every well-formed state within the bounds decodes to that state. */
  lemma SnapshotRoundTrip(s: AgentState)
    requires WellFormed(s) && EncodeSnapshot(s).Some?
    ensures DecodeSnapshot(EncodeSnapshot(s).value) == Some(s)
  {
    hide DecodeDocument, EncodeDocument, AllFit, SnapshotHead, HeadState, FindingRow, TransferFields, TransferRecordOf, StoredFinding, Collected;
    SnapshotFits(s);
    HeadDecodes(s);
    var d := SnapshotDocument(s);
    DocumentRoundTrip(d, SNAPSHOT);
    var order := InIdOrder(s.transfers.Keys);
    var rows := seq(|d.first|, i requires 0 <= i < |d.first| => TransferRecordOf(d.first[i]));
    forall i | 0 <= i < |rows| ensures rows[i] == s.transfers[order[i]] {
      assert TransferOk(s.transfers[order[i]]);
      TransferInverse(s.transfers[order[i]]);
    }
    CollectedAll(DeploymentOf, order, s.transfers, rows);
    var findings := seq(|d.second|, i requires 0 <= i < |d.second| => StoredFinding(d.second[i]));
    forall i | 0 <= i < |findings| ensures findings[i] == s.findings[i] {
      assert FindingOk(s.findings[i]);
      FindingInverse(s.findings[i]);
    }
    assert findings == s.findings;
  }

  // ---- What the durable store relies on ----

  function ApplyPayload(s: AgentState, kind: u32, payload: Bytes): Option<AgentState> {
    match RecordOf(kind, payload)
    case None => None
    case Some(r) => Some(Apply(s, r))
  }

  ghost function Codec(): StoreModel.Codec<AgentState> {
    StoreModel.Codec(INITIAL, ApplyPayload, s => EncodeSnapshot(s), DecodeSnapshot, WellFormed)
  }

  /** The agent's codec is one the store's crash theorem holds for. */
  lemma CodecIsLawful()
    ensures StoreModel.Lawful(Codec())
  {
    hide WellFormed, EncodeSnapshot, DecodeSnapshot, RecordOf, Apply;
    InitialIsWellFormed();
    forall s, k, p | WellFormed(s) && ApplyPayload(s, k, p).Some?
      ensures WellFormed(ApplyPayload(s, k, p).value) && k in JournalFormat.KNOWN_KINDS && k != JournalFormat.SEGMENT_START
    {
      DecodedRecordsAreOk(k, p);
      ApplyKeepsWellFormed(s, RecordOf(k, p).value);
      KindsAreKnown(RecordOf(k, p).value);
    }
    forall s | WellFormed(s) && EncodeSnapshot(s).Some? ensures DecodeSnapshot(EncodeSnapshot(s).value) == Some(s) {
      SnapshotRoundTrip(s);
    }
  }

  lemma InitialIsWellFormed()
    ensures WellFormed(INITIAL)
  {
  }

  lemma KindsAreKnown(r: Record)
    ensures Kind(r) in JournalFormat.KNOWN_KINDS && Kind(r) != JournalFormat.SEGMENT_START
  {
  }

  /** Fixed-width fields and identifiers take at most 132 bytes. */
  predicate Small(s: Shape) {
    match s
    case ANum(width, _, _) => width <= 8
    case ARaw(n) => n <= 132
    case AString(bound) => bound <= 128
    case _ => true
  }

  lemma OneIsShort(f: Field, s: Shape)
    requires Fits(f, s) && Small(s)
    ensures |EncodeOne(f, s)| <= 132
  {
  }

  lemma ShapesAreShort(r: Record)
    ensures |Shapes(Kind(r))| <= 11 && forall s :: s in Shapes(Kind(r)) ==> Small(s)
  {
  }

  lemma {:induction false} RowsAreShort(fs: seq<Field>, ss: seq<Shape>)
    requires AllFit(fs, ss) && forall s :: s in ss ==> Small(s)
    ensures |EncodeAll(fs, ss)| <= 132 * |ss|
    decreases |ss|
  {
    if ss != [] {
      OneIsShort(fs[0], ss[0]);
      RowsAreShort(fs[1..], ss[1..]);
    }
  }

  /** Every record the agent writes is accepted by its store, and leaves the store in the state the record makes. */
  lemma RecordIsAccepted(p: StoreModel.Proc<AgentState>, r: Record)
    requires WellFormed(p.state) && RecordOk(r) && r != Note && p.last + 1 < U64_LIMIT
    ensures AllFit(RecordFields(r), Shapes(Kind(r)))
    ensures var o := StoreModel.CommitOf(Codec(), p, Kind(r), EncodeAll(RecordFields(r), Shapes(Kind(r))));
            o.ok && o.proc == StoreModel.Proc(Apply(p.state, r), p.last + 1)
  {
    hide EncodeAll, RecordOf, Apply, WellFormed, RecordFields, RecordOk, AllFit, Shapes, Kind, Small, StoreModel.CommitOf, StoreModel.Lawful, EncodeSnapshot, DecodeSnapshot;
    CodecIsLawful();
    RecordRoundTrip(r);
    ShapesAreShort(r);
    RowsAreShort(RecordFields(r), Shapes(Kind(r)));
    StoreModel.CommitIff(Codec(), p, Kind(r), EncodeAll(RecordFields(r), Shapes(Kind(r))));
  }

  /** The agent's durable state survives: in every run of its store, whatever is cut and whichever snapshots are lost,
      the store opens with the fold of every committed record, or it does not open. */
  lemma AgentStateSurvives(ss: seq<StoreRuns.System<AgentState>>, es: seq<StoreRuns.Event>, i: nat)
    requires StoreRuns.Trace(Codec(), ss, es) && i < |ss|
    ensures var o := StoreModel.OpenOf(Codec(), ss[i].disk);
            o.result.Ok? ==> StoreRuns.FoldChanges(Codec(), INITIAL, StoreRuns.Committed(Codec(), ss, es, i)) == Some(o.result.value.state)
  {
    hide StoreRuns.Trace, StoreModel.OpenOf, StoreRuns.FoldChanges, StoreRuns.Committed;
    CodecIsLawful();
    StoreRuns.StoreRefinesFold(Codec(), ss, es, i);
  }
}
