/** The prepare, delivery-ack and reconcile-report messages as bytes (src/protocol.cpp). For each, a byte string is
    decoded to a message if and only if the message is well formed and the byte string is its encoding. */
module MessageCodec {
  import opened Prelude
  import opened LittleEndian
  import opened Lifecycle
  import opened AgentState
  import opened Messages
  import opened Fields
  import opened ByteStreams

  // ---- Enumerations ----

  function ClassCode(c: TargetClass): nat {
    match c
    case Unspecified => 0
    case NetworkDevice => 1
    case ControlPlaneParticipant => 2
  }

  function ClassOf(n: nat): TargetClass {
    if n == 0 then Unspecified else if n == 1 then NetworkDevice else ControlPlaneParticipant
  }

  function GuaranteeCode(g: Guarantee): nat {
    if g == AtomicActivate then 1 else 2
  }

  function GuaranteeOf(n: nat): Guarantee {
    if n == 1 then AtomicActivate else PrepareCommitAbort
  }

  function RequirementCode(r: Requirement): nat {
    if r == RequireAtomic then 1 else 2
  }

  function RequirementOf(n: nat): Requirement {
    if n == 1 then RequireAtomic else AllowPrepareCommit
  }

  function StateCode(s: DeliveryState): nat {
    Index(s) + 1
  }

  function StateOf(n: nat): DeliveryState {
    match n
    case 1 => Prepared
    case 2 => Offered
    case 3 => Transferred
    case 4 => Verified
    case 5 => Staged
    case 6 => Applied
    case 7 => Acknowledged
    case 8 => Failed
    case 9 => Rejected
    case _ => Retired
  }

  lemma Codes()
    ensures forall c :: ClassOf(ClassCode(c)) == c && ClassCode(c) <= 2
    ensures forall n: nat :: n <= 2 ==> ClassCode(ClassOf(n)) == n
    ensures forall g :: GuaranteeOf(GuaranteeCode(g)) == g && 1 <= GuaranteeCode(g) <= 2
    ensures forall n: nat :: 1 <= n <= 2 ==> GuaranteeCode(GuaranteeOf(n)) == n
    ensures forall r :: RequirementOf(RequirementCode(r)) == r && 1 <= RequirementCode(r) <= 2
    ensures forall n: nat :: 1 <= n <= 2 ==> RequirementCode(RequirementOf(n)) == n
    ensures forall s :: StateOf(StateCode(s)) == s && 1 <= StateCode(s) <= 10
    ensures forall n: nat :: 1 <= n <= 10 ==> StateCode(StateOf(n)) == n
  {
  }

  const U8: nat := 255
  const U32: nat := U32_LIMIT - 1
  const U64: nat := U64_LIMIT - 1

  const A_U64: Shape := ANum(8, 0, U64)
  const A_SET_U64: Shape := ANum(8, 1, U64)
  const A_U32: Shape := ANum(4, 0, U32)
  const AN_ID: Shape := AText(false)
  const AN_OPTIONAL_ID: Shape := AText(true)
  const A_DIGEST: Shape := ARaw(32)
  const AN_OPAQUE: Shape := ARaw(16)
  const A_CLASS: Shape := ANum(1, 0, 2)
  const A_GUARANTEE: Shape := ANum(1, 1, 2)
  const A_STATE: Shape := ANum(1, 1, 10)

  lemma Wide()
    ensures Pow256(1) == 256 && Pow256(4) == U32_LIMIT && Pow256(8) == U64_LIMIT
  {
    Widths();
  }

  // ---- Prepare ----

  const PREPARE: seq<Shape> :=
    [AN_ID, AN_ID, AN_ID, A_SET_U64, A_DIGEST, A_SET_U64, AN_ID, A_U32, ANum(1, 1, 2), A_GUARANTEE,
     A_SET_U64, A_U64, A_SET_U64, ANum(4, 1, MAX_CHUNK_BYTES), A_U64]

  function PrepareFields(m: PrepareMessage): seq<Field> {
    [Text(m.deployment), Text(m.key), Text(m.artifact), Num(m.generation), Raw(m.digest), Num(m.sizeBytes),
     Text(m.schema), Num(m.schemaVersion), Num(RequirementCode(m.requirement)), Num(GuaranteeCode(m.guarantee)),
     Num(m.authorityEpoch), Num(m.attempt), Num(m.stream), Num(m.chunkBytes), Num(m.resumeFromOffset)]
  }

  function PrepareOf(fs: seq<Field>): PrepareMessage
    requires AllFit(fs, PREPARE)
  {
    assert Fits(fs[0], AN_ID) && Fits(fs[1], AN_ID) && Fits(fs[2], AN_ID) && Fits(fs[3], A_SET_U64) && Fits(fs[4], A_DIGEST);
    assert Fits(fs[5], A_SET_U64) && Fits(fs[6], AN_ID) && Fits(fs[7], A_U32) && Fits(fs[8], PREPARE[8]) && Fits(fs[9], A_GUARANTEE);
    assert Fits(fs[10], A_SET_U64) && Fits(fs[11], A_U64) && Fits(fs[12], A_SET_U64) && Fits(fs[13], PREPARE[13]) && Fits(fs[14], A_U64);
    PrepareMessage(fs[0].text, fs[1].text, fs[2].text, fs[3].value, fs[4].bytes, fs[5].value, fs[6].text, fs[7].value,
                   RequirementOf(fs[8].value), GuaranteeOf(fs[9].value), fs[10].value, fs[11].value, fs[12].value,
                   fs[13].value, fs[14].value)
  }

  /** What the decoder demands of an offer. */
  predicate PrepareOk(m: PrepareMessage) {
    AllFit(PrepareFields(m), PREPARE) && m.digest != NO_DIGEST
  }

  function EncodePrepare(m: PrepareMessage): Bytes
    requires PrepareOk(m)
  {
    EncodeAll(PrepareFields(m), PREPARE)
  }

  function DecodePrepare(b: Bytes): Option<PrepareMessage> {
    match DecodeAll(PREPARE, b)
    case RefusedAll => None
    case Fields(fs, n) => if n == |b| && PrepareOf(fs).digest != NO_DIGEST then Some(PrepareOf(fs)) else None
  }

  lemma PrepareInverse(m: PrepareMessage)
    requires AllFit(PrepareFields(m), PREPARE)
    ensures PrepareOf(PrepareFields(m)) == m
  {
    Codes();
  }

  lemma PrepareInverse2(fs: seq<Field>)
    requires AllFit(fs, PREPARE)
    ensures PrepareFields(PrepareOf(fs)) == fs
  {
    Codes();
    assert Fits(fs[8], PREPARE[8]) && Fits(fs[9], PREPARE[9]);
  }

  /** The decoder accepts exactly the encodings of well-formed offers, and returns that offer. */
  lemma PrepareIff(b: Bytes, m: PrepareMessage)
    ensures DecodePrepare(b) == Some(m) <==> PrepareOk(m) && b == EncodePrepare(m)
  {
    hide EncodeAll, DecodeAll, Fits;
    if PrepareOk(m) {
      RowIff(PrepareFields(m), PREPARE, b);
      PrepareInverse(m);
    }
    if DecodePrepare(b) == Some(m) {
      var fs := DecodeAll(PREPARE, b).fields;
      RowIff(fs, PREPARE, b);
      PrepareInverse2(fs);
    }
  }

  method WritePrepare(m: PrepareMessage) returns (b: Bytes)
    requires PrepareOk(m)
    ensures b == EncodePrepare(m)
  {
    var writer := new ByteWriter();
    writer.PutRow(PrepareFields(m), PREPARE);
    b := writer.buffer;
  }

  /** However the bytes came about: a message is returned if and only if they encode it. */
  method ReadPrepare(b: Bytes) returns (m: Option<PrepareMessage>)
    ensures m.Some? ==> PrepareOk(m.value) && b == EncodePrepare(m.value)
    ensures m.None? ==> forall x :: PrepareOk(x) ==> b != EncodePrepare(x)
  {
    hide DecodeAll, EncodeAll, AllFit;
    var reader := new ByteReader(b);
    assert b[0..] == b;
    var fs := reader.GetRow(PREPARE);
    m := if fs.Some? && reader.offset == |b| && PrepareOf(fs.value).digest != NO_DIGEST then Some(PrepareOf(fs.value)) else None;
    assert m == DecodePrepare(b);
    forall x ensures PrepareOk(x) && b == EncodePrepare(x) <==> m == Some(x) { PrepareIff(b, x); }
  }

  // ---- Delivery acknowledgement ----

  const ACK: seq<Shape> :=
    [AN_ID, AN_ID, A_SET_U64, A_DIGEST, AN_OPTIONAL_ID, ANum(1, 6, 7), A_SET_U64, AN_OPAQUE, A_U64, A_GUARANTEE, A_U64, ASigned, AFlag]

  function AckFields(a: DeliveryAckMessage): seq<Field> {
    [Text(a.deployment), Text(a.key), Num(a.generation), Raw(a.digest), Text(a.artifact), Num(StateCode(a.state)), Num(a.term),
     Raw(a.incarnation), Num(a.authorityEpoch), Num(GuaranteeCode(a.guarantee)), Num(a.bytesTransferred),
     Signed(a.targetTimestamp), Flag(a.evidenceFromReconcile)]
  }

  function AckOf(fs: seq<Field>): DeliveryAckMessage
    requires AllFit(fs, ACK)
  {
    assert Fits(fs[0], AN_ID) && Fits(fs[1], AN_ID) && Fits(fs[2], A_SET_U64) && Fits(fs[3], A_DIGEST) && Fits(fs[4], AN_OPTIONAL_ID);
    assert Fits(fs[5], ACK[5]) && Fits(fs[6], A_SET_U64) && Fits(fs[7], AN_OPAQUE) && Fits(fs[8], A_U64) && Fits(fs[9], A_GUARANTEE);
    assert Fits(fs[10], A_U64) && Fits(fs[11], ASigned) && Fits(fs[12], AFlag);
    DeliveryAckMessage(fs[0].text, fs[1].text, fs[2].value, fs[3].bytes, fs[4].text, StateOf(fs[5].value), fs[6].value,
                       fs[7].bytes, fs[8].value, GuaranteeOf(fs[9].value), fs[10].value, fs[11].number, fs[12].set_)
  }

  predicate AckOk(a: DeliveryAckMessage) {
    AllFit(AckFields(a), ACK) && a.incarnation != Zeros(16)
  }

  function EncodeAck(a: DeliveryAckMessage): Bytes
    requires AckOk(a)
  {
    EncodeAll(AckFields(a), ACK)
  }

  function DecodeAck(b: Bytes): Option<DeliveryAckMessage> {
    match DecodeAll(ACK, b)
    case RefusedAll => None
    case Fields(fs, n) => if n == |b| && AckOf(fs).incarnation != Zeros(16) then Some(AckOf(fs)) else None
  }

  lemma AckInverse(a: DeliveryAckMessage)
    requires AllFit(AckFields(a), ACK)
    ensures AckOf(AckFields(a)) == a
  {
    Codes();
  }

  lemma AckInverse2(fs: seq<Field>)
    requires AllFit(fs, ACK)
    ensures AckFields(AckOf(fs)) == fs
  {
    Codes();
    assert Fits(fs[5], ACK[5]) && Fits(fs[9], ACK[9]);
  }

  /** The decoder accepts exactly the encodings of well-formed acknowledgements. */
  lemma AckIff(b: Bytes, a: DeliveryAckMessage)
    ensures DecodeAck(b) == Some(a) <==> AckOk(a) && b == EncodeAck(a)
  {
    hide EncodeAll, DecodeAll, Fits;
    if AckOk(a) {
      RowIff(AckFields(a), ACK, b);
      AckInverse(a);
    }
    if DecodeAck(b) == Some(a) {
      var fs := DecodeAll(ACK, b).fields;
      RowIff(fs, ACK, b);
      AckInverse2(fs);
    }
  }

  /** An acknowledgement without a configuration key, as two branches of the commit handler send it, is never
      well formed, so it is lost on the way. */
  lemma KeylessAckIsLost(a: DeliveryAckMessage)
    requires a.key == UNSET
    ensures !AckOk(a) && forall b :: DecodeAck(b) != Some(a)
  {
    assert !Fits(AckFields(a)[1], ACK[1]);
    forall b ensures DecodeAck(b) != Some(a) { AckIff(b, a); }
  }

  method WriteAck(a: DeliveryAckMessage) returns (b: Bytes)
    requires AckOk(a)
    ensures b == EncodeAck(a)
  {
    var writer := new ByteWriter();
    writer.PutRow(AckFields(a), ACK);
    b := writer.buffer;
  }

  method ReadAck(b: Bytes) returns (a: Option<DeliveryAckMessage>)
    ensures a.Some? ==> AckOk(a.value) && b == EncodeAck(a.value)
    ensures a.None? ==> forall x :: AckOk(x) ==> b != EncodeAck(x)
  {
    hide DecodeAll, EncodeAll, AllFit;
    var reader := new ByteReader(b);
    assert b[0..] == b;
    var fs := reader.GetRow(ACK);
    a := if fs.Some? && reader.offset == |b| && AckOf(fs.value).incarnation != Zeros(16) then Some(AckOf(fs.value)) else None;
    assert a == DecodeAck(b);
    forall x ensures AckOk(x) && b == EncodeAck(x) <==> a == Some(x) { AckIff(b, x); }
  }

  // ---- Reconcile report ----

  const REPORT_HEAD: seq<Shape> :=
    [AN_ID, A_CLASS, A_GUARANTEE, A_SET_U64, AN_OPAQUE, A_U64, A_DIGEST, AN_OPTIONAL_ID, AFlag, AN_OPTIONAL_ID, A_U64, A_DIGEST,
     A_U32, A_U32]

  const REPORT_TRANSFER: seq<Shape> := [AN_ID, A_U64, AN_ID, A_SET_U64, A_DIGEST, A_U64, A_U64, AFlag, AFlag]

  const REPORT_FINDING: seq<Shape> := [AN_ID, A_SET_U64, A_DIGEST, AN_OPTIONAL_ID, AN_ID, A_STATE, ASigned]

  const REPORT: Layout :=
    Layout(REPORT_HEAD, REPORT_TRANSFER, MAX_TRANSFERS_IN_REPORT, REPORT_FINDING, MAX_FINDINGS_IN_REPORT)

  function ReportHead(r: ReconcileReport): seq<Field> {
    [Text(r.target), Num(ClassCode(r.klass)), Num(GuaranteeCode(r.guarantee)), Num(r.term), Raw(r.incarnation),
     Num(r.committed.generation), Raw(r.committed.digest), Text(r.committed.artifact), Flag(r.window.applyPrepared),
     Text(r.window.deployment), Num(r.window.generation), Raw(r.window.digest), Num(r.restartCount), Num(r.applyRollbacks)]
  }

  function TransferRow(t: TransferStatus): seq<Field> {
    [Text(t.deployment), Num(t.stream), Text(t.key), Num(t.generation), Raw(t.digest), Num(t.bytesReceived),
     Num(t.totalBytes), Flag(t.verified), Flag(t.staged)]
  }

  function TransferOf(fs: seq<Field>): TransferStatus
    requires AllFit(fs, REPORT_TRANSFER)
  {
    assert Fits(fs[0], AN_ID) && Fits(fs[1], A_U64) && Fits(fs[2], AN_ID) && Fits(fs[3], A_SET_U64) && Fits(fs[4], A_DIGEST);
    assert Fits(fs[5], A_U64) && Fits(fs[6], A_U64) && Fits(fs[7], AFlag) && Fits(fs[8], AFlag);
    TransferStatus(fs[0].text, fs[1].value, fs[2].text, fs[3].value, fs[4].bytes, fs[5].value, fs[6].value, fs[7].set_, fs[8].set_)
  }

  function FindingRow(f: AppliedFinding): seq<Field> {
    [Text(f.key), Num(f.generation), Raw(f.digest), Text(f.artifact), Text(f.deployment), Num(StateCode(f.state)), Signed(f.recordedAt)]
  }

  function FindingOf(fs: seq<Field>): AppliedFinding
    requires AllFit(fs, REPORT_FINDING)
  {
    assert Fits(fs[0], AN_ID) && Fits(fs[1], A_SET_U64) && Fits(fs[2], A_DIGEST) && Fits(fs[3], AN_OPTIONAL_ID);
    assert Fits(fs[4], AN_ID) && Fits(fs[5], A_STATE) && Fits(fs[6], ASigned);
    AppliedFinding(fs[0].text, fs[1].value, fs[2].bytes, fs[3].text, fs[4].text, StateOf(fs[5].value), fs[6].number)
  }

  function ReportDocument(r: ReconcileReport): Document {
    Document(ReportHead(r), seq(|r.transfers|, i requires 0 <= i < |r.transfers| => TransferRow(r.transfers[i])),
             seq(|r.findings|, i requires 0 <= i < |r.findings| => FindingRow(r.findings[i])))
  }

  function ReportOf(d: Document): ReconcileReport
    requires DocumentFits(d, REPORT)
  {
    var fs := d.head;
    assert Fits(fs[0], AN_ID) && Fits(fs[1], A_CLASS) && Fits(fs[2], A_GUARANTEE) && Fits(fs[3], A_SET_U64) && Fits(fs[4], AN_OPAQUE);
    assert Fits(fs[5], A_U64) && Fits(fs[6], A_DIGEST) && Fits(fs[7], AN_OPTIONAL_ID) && Fits(fs[8], AFlag) && Fits(fs[9], AN_OPTIONAL_ID);
    assert Fits(fs[10], A_U64) && Fits(fs[11], A_DIGEST) && Fits(fs[12], A_U32) && Fits(fs[13], A_U32);
    ReconcileReport(fs[0].text, ClassOf(fs[1].value), GuaranteeOf(fs[2].value), fs[3].value, fs[4].bytes,
                    Pointer(fs[5].value, fs[6].bytes, fs[7].text),
                    Window(fs[8].set_, fs[9].text, fs[10].value, fs[11].bytes), fs[12].value, fs[13].value,
                    seq(|d.first|, i requires 0 <= i < |d.first| => TransferOf(d.first[i])),
                    seq(|d.second|, i requires 0 <= i < |d.second| => FindingOf(d.second[i])))
  }

  predicate Consistent(r: ReconcileReport) {
    r.incarnation != Zeros(16) && forall i :: 0 <= i < |r.transfers| ==> r.transfers[i].bytesReceived <= r.transfers[i].totalBytes
  }

  predicate ReportOk(r: ReconcileReport) {
    DocumentFits(ReportDocument(r), REPORT) && Consistent(r)
  }

  function EncodeReport(r: ReconcileReport): Bytes
    requires ReportOk(r)
  {
    EncodeDocument(ReportDocument(r), REPORT)
  }

  function DecodeReport(b: Bytes): Option<ReconcileReport> {
    match DecodeDocument(REPORT, b)
    case None => None
    case Some(d) => if Consistent(ReportOf(d)) then Some(ReportOf(d)) else None
  }

  lemma TransferInverse(t: TransferStatus)
    ensures AllFit(TransferRow(t), REPORT_TRANSFER) ==> TransferOf(TransferRow(t)) == t
  {
  }

  lemma TransferInverse2(fs: seq<Field>)
    requires AllFit(fs, REPORT_TRANSFER)
    ensures TransferRow(TransferOf(fs)) == fs
  {
  }

  lemma FindingInverse(f: AppliedFinding)
    ensures AllFit(FindingRow(f), REPORT_FINDING) ==> FindingOf(FindingRow(f)) == f
  {
    Codes();
  }

  lemma FindingInverse2(fs: seq<Field>)
    requires AllFit(fs, REPORT_FINDING)
    ensures FindingRow(FindingOf(fs)) == fs
  {
    Codes();
    assert Fits(fs[5], A_STATE);
  }

  lemma HeadInverse(r: ReconcileReport)
    requires DocumentFits(ReportDocument(r), REPORT)
    ensures var s := ReportOf(ReportDocument(r)); s.(transfers := r.transfers, findings := r.findings) == r
  {
    hide TransferOf, FindingOf, TransferRow, FindingRow;
    Codes();
  }

  lemma HeadInverse2(d: Document)
    requires DocumentFits(d, REPORT)
    ensures ReportHead(ReportOf(d)) == d.head
  {
    hide TransferOf, FindingOf;
    Codes();
    assert Fits(d.head[1], A_CLASS) && Fits(d.head[2], A_GUARANTEE);
  }

  lemma ReportInverse(r: ReconcileReport)
    requires DocumentFits(ReportDocument(r), REPORT)
    ensures ReportOf(ReportDocument(r)) == r
  {
    hide ReportHead, TransferOf, FindingOf, TransferRow, FindingRow, AllFit;
    HeadInverse(r);
    var s := ReportOf(ReportDocument(r));
    forall i | 0 <= i < |r.transfers| ensures s.transfers[i] == r.transfers[i] {
      assert AllFit(ReportDocument(r).first[i], REPORT_TRANSFER);
      TransferInverse(r.transfers[i]);
    }
    forall i | 0 <= i < |r.findings| ensures s.findings[i] == r.findings[i] {
      assert AllFit(ReportDocument(r).second[i], REPORT_FINDING);
      FindingInverse(r.findings[i]);
    }
  }

  lemma ReportInverse2(d: Document)
    requires DocumentFits(d, REPORT)
    ensures ReportDocument(ReportOf(d)) == d
  {
    hide ReportHead, TransferOf, FindingOf, TransferRow, FindingRow, AllFit;
    HeadInverse2(d);
    var e := ReportDocument(ReportOf(d));
    forall i | 0 <= i < |d.first| ensures e.first[i] == d.first[i] { TransferInverse2(d.first[i]); }
    forall i | 0 <= i < |d.second| ensures e.second[i] == d.second[i] { FindingInverse2(d.second[i]); }
  }

  /** The decoder accepts exactly the encodings of well-formed reports, nested lists included. */
  lemma ReportIff(b: Bytes, r: ReconcileReport)
    ensures DecodeReport(b) == Some(r) <==> ReportOk(r) && b == EncodeReport(r)
  {
    hide DecodeDocument, EncodeDocument, DocumentFits, ReportDocument, ReportOf, Consistent;
    if ReportOk(r) {
      DocumentIff(ReportDocument(r), REPORT, b);
      ReportInverse(r);
    }
    if DecodeReport(b) == Some(r) {
      var d := DecodeDocument(REPORT, b).value;
      DocumentIff(d, REPORT, b);
      ReportInverse2(d);
    }
  }

  method WriteReport(r: ReconcileReport) returns (b: Bytes)
    requires ReportOk(r)
    ensures b == EncodeReport(r)
  {
    hide DocumentFits, EncodeDocument;
    var writer := new ByteWriter();
    writer.PutDocument(ReportDocument(r), REPORT);
    b := writer.buffer;
  }

  method ReadReport(b: Bytes) returns (r: Option<ReconcileReport>)
    ensures r.Some? ==> ReportOk(r.value) && b == EncodeReport(r.value)
    ensures r.None? ==> forall x :: ReportOk(x) ==> b != EncodeReport(x)
  {
    hide DecodeDocument, EncodeDocument, DocumentFits, ReportDocument, ReportOf, Consistent;
    var reader := new ByteReader(b);
    var d := reader.GetDocument(REPORT);
    r := if d.Some? && Consistent(ReportOf(d.value)) then Some(ReportOf(d.value)) else None;
    assert r == DecodeReport(b);
    forall x ensures ReportOk(x) && b == EncodeReport(x) <==> r == Some(x) { ReportIff(b, x); }
  }
}
