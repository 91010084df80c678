/** How the controller's durable values are laid out in bytes (the record writers and readers of src/state.cpp, and
    the artifact metadata record of src/artifact.cpp). */
module ControllerFormats {
  import opened Prelude
  import opened LittleEndian
  import opened Lifecycle
  import opened AgentState
  import opened Fields
  import opened Formats
  import opened MessageCodec
  import opened ArtifactIndex
  import Plan

  const MAX_EVENTS: nat := 64
  const METADATA_MAGIC: nat := 0x4D41_4643

  /** The numbers of the error enumeration, which has gaps. */
  predicate KnownCode(n: nat) {
    || n == 0 || 100 <= n <= 106 || 200 <= n <= 203 || 300 <= n <= 314 || 400 <= n <= 405 || 500 <= n <= 505
    || 600 <= n <= 603 || 700 <= n <= 705 || 800 <= n <= 803
  }

  const A_U16: Shape := ANum(2, 0, 65535)
  const A_DIRECTIVE: Shape := ANum(1, 0, 5)

  // ---- Lifecycle events ----

  datatype LifecycleEvent = LifecycleEvent(
    kind: nat, before: DeliveryState, after: DeliveryState, generation: u64, digest: Digest, code: nat, directive: nat,
    epoch: u64, authority: Bytes, term: u64, incarnation: Bytes, reconciled: bool, at: i64, detail: string)

  const EVENT: seq<Shape> :=
    [ANum(1, 1, 13), A_STATE, A_STATE, A_U64, A_DIGEST, A_U16, A_DIRECTIVE, A_U64, AN_OPAQUE, A_U64, AN_OPAQUE, AFlag,
     ASigned, AString(256)]

  function EventRow(e: LifecycleEvent): seq<Field> {
    [Num(e.kind), Num(StateCode(e.before)), Num(StateCode(e.after)), Num(e.generation), Raw(e.digest), Num(e.code),
     Num(e.directive), Num(e.epoch), Raw(e.authority), Num(e.term), Raw(e.incarnation), Flag(e.reconciled), Signed(e.at),
     Text(e.detail)]
  }

  function At(fs: seq<Field>, i: nat): Field {
    if i < |fs| then fs[i] else Flag(false)
  }

  function EventOf(fs: seq<Field>): LifecycleEvent {
    LifecycleEvent(NumberOf(At(fs, 0)), StateOf(NumberOf(At(fs, 1))), StateOf(NumberOf(At(fs, 2))), U64Of(At(fs, 3)), BytesOf(At(fs, 4)),
                   NumberOf(At(fs, 5)), NumberOf(At(fs, 6)), U64Of(At(fs, 7)), BytesOf(At(fs, 8)), U64Of(At(fs, 9)),
                   BytesOf(At(fs, 10)), SetOf(At(fs, 11)), I64Of(At(fs, 12)), TextOf(At(fs, 13)))
  }

  predicate EventOk(e: LifecycleEvent) {
    KnownCode(e.code)
  }

  function EventFormat(): Format<LifecycleEvent> {
    As(Row(EVENT), EventRow, EventOf, EventOk)
  }

  lemma EventAgain(fs: seq<Field>)
    requires AllFit(fs, EVENT)
    ensures EventRow(EventOf(fs)) == fs
  {
    hide IsIdentifier, Narrow;
    Codes();
    assert forall i :: 0 <= i < |EVENT| ==> Fits(fs[i], EVENT[i]);
  }

  lemma EventExact()
    ensures Exact(EventFormat())
  {
    hide Exact, AllFit, EventRow, EventOf;
    RowExact(EVENT);
    forall fs | Row(EVENT).fits(fs) ensures EventRow(EventOf(fs)) == fs { EventAgain(fs); }
    AsExact(Row(EVENT), EventRow, EventOf, EventOk);
  }

  // ---- Targets ----

  datatype Target = Target(
    id: Id, klass: TargetClass, guarantee: Guarantee, term: u64, incarnation: Bytes, committed: Pointer, lastContact: i64,
    contactCurrent: bool, sessions: u64, restarts: u64, window: Window, endpoint: string)

  const TARGET: seq<Shape> :=
    [AN_ID, A_CLASS, A_GUARANTEE, A_U64, AN_OPAQUE, A_U64, A_DIGEST, AN_OPTIONAL_ID, ASigned, A_U64, A_U64, AFlag,
     AN_OPTIONAL_ID, A_U64, A_DIGEST, AString(128)]

  /** Everything but the contact evidence of the running process. */
  function TargetRow(t: Target): seq<Field> {
    [Text(t.id), Num(ClassCode(t.klass)), Num(GuaranteeCode(t.guarantee)), Num(t.term), Raw(t.incarnation),
     Num(t.committed.generation), Raw(t.committed.digest), Text(t.committed.artifact), Signed(t.lastContact), Num(t.sessions),
     Num(t.restarts), Flag(t.window.applyPrepared), Text(t.window.deployment), Num(t.window.generation), Raw(t.window.digest),
     Text(t.endpoint)]
  }

  /** Contact evidence read from storage is never current. */
  function TargetOf(fs: seq<Field>): Target {
    Target(TextOf(At(fs, 0)), ClassOf(NumberOf(At(fs, 1))), GuaranteeOf(NumberOf(At(fs, 2))), U64Of(At(fs, 3)), BytesOf(At(fs, 4)),
           Pointer(U64Of(At(fs, 5)), BytesOf(At(fs, 6)), TextOf(At(fs, 7))), I64Of(At(fs, 8)), false, U64Of(At(fs, 9)), U64Of(At(fs, 10)),
           Window(SetOf(At(fs, 11)), TextOf(At(fs, 12)), U64Of(At(fs, 13)), BytesOf(At(fs, 14))), TextOf(At(fs, 15)))
  }

  function TargetFormat(dial: Plan.Dialing): Format<Target> {
    As(Row(TARGET), TargetRow, TargetOf, (t: Target) => t.endpoint == "" || dial.dialable(t.endpoint))
  }

  lemma TargetFront(fs: seq<Field>)
    requires AllFit(fs, TARGET)
    ensures forall i :: 0 <= i < 8 ==> TargetRow(TargetOf(fs))[i] == fs[i]
  {
    hide IsIdentifier, Narrow;
    Codes();
    assert forall i :: 0 <= i < 8 ==> Fits(fs[i], TARGET[i]);
  }

  lemma TargetBack(fs: seq<Field>)
    requires AllFit(fs, TARGET)
    ensures forall i :: 8 <= i < 16 ==> TargetRow(TargetOf(fs))[i] == fs[i]
  {
    hide IsIdentifier, Narrow;
    assert forall i :: 8 <= i < 16 ==> Fits(fs[i], TARGET[i]);
  }

  lemma TargetAgain(fs: seq<Field>)
    requires AllFit(fs, TARGET)
    ensures TargetRow(TargetOf(fs)) == fs
  {
    TargetFront(fs);
    TargetBack(fs);
    hide Fits, TargetOf;
    assert |TargetRow(TargetOf(fs))| == 16;
  }

  lemma TargetExact(dial: Plan.Dialing)
    ensures Exact(TargetFormat(dial))
  {
    hide Exact, AllFit, TargetRow, TargetOf;
    RowExact(TARGET);
    forall fs | Row(TARGET).fits(fs) ensures TargetRow(TargetOf(fs)) == fs { TargetAgain(fs); }
    AsExact(Row(TARGET), TargetRow, TargetOf, (t: Target) => t.endpoint == "" || dial.dialable(t.endpoint));
  }

  // ---- Deliveries ----

  datatype Order = Order(
    id: Id, setId: Id, rolloutSet: Id, target: Id, key: Id, artifact: Id, revision: u64, generation: u64, digest: Digest,
    schema: Id, schemaVersion: u32, sizeBytes: u64)

  datatype Progress = Progress(
    requirement: Requirement, guarantee: Guarantee, state: DeliveryState, attempt: u64, failures: u32, lastError: nat,
    lastDirective: nat, lastDetail: string)

  datatype Evidence = Evidence(
    epoch: u64, authority: Bytes, term: u64, incarnation: Bytes, acknowledgedFromReconcile: bool, superseded: bool,
    createdAt: i64, updatedAt: i64)

  datatype Delivery = Delivery(order: Order, progress: Progress, events: seq<LifecycleEvent>, evidence: Evidence)

  const ORDER: seq<Shape> :=
    [AN_ID, AN_ID, AN_OPTIONAL_ID, AN_ID, AN_ID, AN_ID, A_U64, A_SET_U64, A_DIGEST, AN_ID, A_U32, A_U64]

  const PROGRESS: seq<Shape> := [ANum(1, 1, 2), A_GUARANTEE, A_STATE, A_U64, A_U32, A_U16, A_DIRECTIVE, AString(192)]

  const EVIDENCE: seq<Shape> := [A_U64, AN_OPAQUE, A_U64, AN_OPAQUE, AFlag, AFlag, ASigned, ASigned]

  function OrderRow(o: Order): seq<Field> {
    [Text(o.id), Text(o.setId), Text(o.rolloutSet), Text(o.target), Text(o.key), Text(o.artifact), Num(o.revision),
     Num(o.generation), Raw(o.digest), Text(o.schema), Num(o.schemaVersion), Num(o.sizeBytes)]
  }

  function OrderOf(fs: seq<Field>): Order {
    Order(TextOf(At(fs, 0)), TextOf(At(fs, 1)), TextOf(At(fs, 2)), TextOf(At(fs, 3)), TextOf(At(fs, 4)), TextOf(At(fs, 5)), U64Of(At(fs, 6)),
          U64Of(At(fs, 7)), BytesOf(At(fs, 8)), TextOf(At(fs, 9)), U32Of(At(fs, 10)), U64Of(At(fs, 11)))
  }

  function ProgressRow(p: Progress): seq<Field> {
    [Num(RequirementCode(p.requirement)), Num(GuaranteeCode(p.guarantee)), Num(StateCode(p.state)), Num(p.attempt),
     Num(p.failures), Num(p.lastError), Num(p.lastDirective), Text(p.lastDetail)]
  }

  function ProgressOf(fs: seq<Field>): Progress {
    Progress(RequirementOf(NumberOf(At(fs, 0))), GuaranteeOf(NumberOf(At(fs, 1))), StateOf(NumberOf(At(fs, 2))), U64Of(At(fs, 3)),
             U32Of(At(fs, 4)), NumberOf(At(fs, 5)), NumberOf(At(fs, 6)), TextOf(At(fs, 7)))
  }

  function EvidenceRow(e: Evidence): seq<Field> {
    [Num(e.epoch), Raw(e.authority), Num(e.term), Raw(e.incarnation), Flag(e.acknowledgedFromReconcile), Flag(e.superseded),
     Signed(e.createdAt), Signed(e.updatedAt)]
  }

  function EvidenceOf(fs: seq<Field>): Evidence {
    Evidence(U64Of(At(fs, 0)), BytesOf(At(fs, 1)), U64Of(At(fs, 2)), BytesOf(At(fs, 3)), SetOf(At(fs, 4)), SetOf(At(fs, 5)), I64Of(At(fs, 6)),
             I64Of(At(fs, 7)))
  }

  type DeliveryParts = (seq<Field>, (seq<Field>, (seq<LifecycleEvent>, seq<Field>)))

  function PartsOf(d: Delivery): DeliveryParts {
    (OrderRow(d.order), (ProgressRow(d.progress), (d.events, EvidenceRow(d.evidence))))
  }

  function DeliveryOf(p: DeliveryParts): Delivery {
    Delivery(OrderOf(p.0), ProgressOf(p.1.0), p.1.1.0, EvidenceOf(p.1.1.1))
  }

  predicate DeliveryOk(d: Delivery) {
    KnownCode(d.progress.lastError)
  }

  function DeliveryPartsFormat(): Format<DeliveryParts> {
    Both(Row(ORDER), Both(Row(PROGRESS), Both(Many(MAX_EVENTS, EventFormat()), Row(EVIDENCE))))
  }

  function DeliveryFormat(): Format<Delivery> {
    As(DeliveryPartsFormat(), PartsOf, DeliveryOf, DeliveryOk)
  }

  lemma OrderAgain(fs: seq<Field>)
    requires AllFit(fs, ORDER)
    ensures OrderRow(OrderOf(fs)) == fs
  {
    hide IsIdentifier, Narrow;
    assert forall i :: 0 <= i < |ORDER| ==> Fits(fs[i], ORDER[i]);
  }

  lemma ProgressAgain(fs: seq<Field>)
    requires AllFit(fs, PROGRESS)
    ensures ProgressRow(ProgressOf(fs)) == fs
  {
    hide IsIdentifier, Narrow;
    Codes();
    assert forall i :: 0 <= i < |PROGRESS| ==> Fits(fs[i], PROGRESS[i]);
  }

  lemma EvidenceAgain(fs: seq<Field>)
    requires AllFit(fs, EVIDENCE)
    ensures EvidenceRow(EvidenceOf(fs)) == fs
  {
    hide IsIdentifier, Narrow;
    assert forall i :: 0 <= i < |EVIDENCE| ==> Fits(fs[i], EVIDENCE[i]);
  }

  lemma DeliveryExact()
    ensures Exact(DeliveryFormat())
  {
    hide Exact, AllFit, OrderRow, OrderOf, ProgressRow, ProgressOf, EvidenceRow, EvidenceOf, EventFormat;
    RowExact(ORDER);
    RowExact(PROGRESS);
    RowExact(EVIDENCE);
    EventExact();
    ManyExact(MAX_EVENTS, EventFormat());
    BothExact(Many(MAX_EVENTS, EventFormat()), Row(EVIDENCE));
    BothExact(Row(PROGRESS), Both(Many(MAX_EVENTS, EventFormat()), Row(EVIDENCE)));
    BothExact(Row(ORDER), Both(Row(PROGRESS), Both(Many(MAX_EVENTS, EventFormat()), Row(EVIDENCE))));
    forall p: DeliveryParts | DeliveryPartsFormat().fits(p) ensures PartsOf(DeliveryOf(p)) == p {
      OrderAgain(p.0);
      ProgressAgain(p.1.0);
      EvidenceAgain(p.1.1.1);
    }
    AsExact(DeliveryPartsFormat(), PartsOf, DeliveryOf, DeliveryOk);
  }

  // ---- Artifact metadata ----

  const METADATA: seq<Shape> :=
    [ANum(4, METADATA_MAGIC, METADATA_MAGIC), ANum(2, 1, 1), AN_ID, A_U64, AN_ID, A_U32, A_DIGEST, A_U64, AString(64), AString(128),
     ASigned, ASigned]

  function MetadataRow(m: Metadata): seq<Field> {
    [Num(METADATA_MAGIC), Num(1), Text(m.id), Num(m.revision), Text(m.schema), Num(m.schemaVersion), Raw(m.digest),
     Num(m.sizeBytes), Text(m.mediaType), Text(m.producer), Signed(m.producedAt), Signed(m.storedAt)]
  }

  function MetadataOf(fs: seq<Field>): Metadata {
    Metadata(TextOf(At(fs, 2)), U64Of(At(fs, 3)), TextOf(At(fs, 4)), U32Of(At(fs, 5)), BytesOf(At(fs, 6)), U64Of(At(fs, 7)), TextOf(At(fs, 8)),
             TextOf(At(fs, 9)), I64Of(At(fs, 10)), I64Of(At(fs, 11)))
  }

  function MetadataFormat(): Format<Metadata> {
    As(Row(METADATA), MetadataRow, MetadataOf, (m: Metadata) => true)
  }

  /** The record of one metadata file: the fields and their CRC32C. */
  function MetadataFile(): Whole<Metadata> {
    Sealed(Ended(MetadataFormat()))
  }

  lemma MetadataAgain(fs: seq<Field>)
    requires AllFit(fs, METADATA)
    ensures MetadataRow(MetadataOf(fs)) == fs
  {
    hide IsIdentifier, Narrow;
    assert forall i :: 0 <= i < |METADATA| ==> Fits(fs[i], METADATA[i]);
  }

  lemma MetadataExact()
    ensures Exact(MetadataFormat())
  {
    hide Exact, AllFit, MetadataRow, MetadataOf;
    RowExact(METADATA);
    forall fs | Row(METADATA).fits(fs) ensures MetadataRow(MetadataOf(fs)) == fs { MetadataAgain(fs); }
    AsExact(Row(METADATA), MetadataRow, MetadataOf, (m: Metadata) => true);
  }

  /** A metadata file is read as `m` exactly when it is the encoding of `m`. */
  lemma MetadataIff(b: Bytes, m: Metadata)
    ensures MetadataFile().decode(b) == Some(m) <==> MetadataFile().fits(m) && b == MetadataFile().encode(m)
  {
    hide Exact, MetadataFormat;
    MetadataExact();
    EndedInverse(MetadataFormat());
    SealedInverse(Ended(MetadataFormat()));
  }

  /** One changed byte makes a metadata file unreadable, never plausible-looking nonsense. */
  lemma DamagedMetadataIsRefused(m: Metadata, k: nat, v: byte)
    requires k < |MetadataFile().encode(m)| && v != MetadataFile().encode(m)[k]
    ensures MetadataFile().decode(MetadataFile().encode(m)[k := v]) == None
  {
    DamageIsRefused(Ended(MetadataFormat()), m, k, v);
  }
}
