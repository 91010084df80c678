/** The controller's durable state as bytes (ControllerStateCodec, src/state.cpp). */
module ControllerCodec {
  import opened Prelude
  import opened LittleEndian
  import opened AgentState
  import opened Fields
  import opened Formats
  import opened MessageCodec
  import opened ArtifactIndex
  import opened Tables
  import opened ControllerFormats
  import Plan
  import JournalFormat
  import StoreModel
  import StoreRuns

  const MAX_ENTRIES: nat := 100000
  const MAX_NOTE: nat := 256

  datatype ControllerState = ControllerState(
    node: Id, epoch: u64, incarnation: Bytes, startedAt: i64, targets: map<Id, Target>, deliveries: map<Id, Delivery>,
    artifacts: map<Digest, Metadata>)

  const INITIAL_CONTROLLER: ControllerState := ControllerState(UNSET, 0, Zeros(16), 0, map[], map[], map[])

  /** The state a restart inherits: no contact evidence is current. */
  function Forget(t: Target): Target {
    t.(contactCurrent := false)
  }

  function Cleared(s: ControllerState): ControllerState {
    s.(targets := map t | t in s.targets :: Forget(s.targets[t]))
  }

  function TargetKey(t: Target): Id { t.id }

  function DeliveryKey(d: Delivery): Id { d.order.id }

  function ArtifactKey(m: Metadata): Digest { m.digest }

  function ArtifactFormat(): Format<Metadata> {
    Framed(MAX_FIELD, MetadataFile())
  }

  ghost predicate TargetsOk(dial: Plan.Dialing, targets: map<Id, Target>) {
    forall t :: t in targets ==> TargetKey(targets[t]) == t && TargetFormat(dial).fits(Forget(targets[t]))
  }

  ghost predicate DeliveriesOk(deliveries: map<Id, Delivery>) {
    forall d :: d in deliveries ==> DeliveryKey(deliveries[d]) == d && DeliveryFormat().fits(deliveries[d])
  }

  ghost predicate ArtifactsOk(artifacts: map<Digest, Metadata>) {
    forall d :: d in artifacts ==> ArtifactKey(artifacts[d]) == d && ArtifactFormat().fits(artifacts[d])
  }

  ghost predicate WellFormed(dial: Plan.Dialing, s: ControllerState) {
    && (s.node == UNSET || IsIdentifier(s.node)) && |s.incarnation| == 16
    && TargetsOk(dial, s.targets) && DeliveriesOk(s.deliveries) && ArtifactsOk(s.artifacts)
  }

  // ---- Snapshot ----

  const HEAD: seq<Shape> := [ANum(2, 1, 1), AN_OPTIONAL_ID, A_U64, AN_OPAQUE, ASigned]

  type Tabled = (seq<Field>, (seq<Target>, (seq<Delivery>, seq<Metadata>)))

  function SnapshotFormat(dial: Plan.Dialing): Whole<Tabled> {
    Ended(Both(Row(HEAD), Both(Many(MAX_ENTRIES, TargetFormat(dial)), Both(Many(MAX_ENTRIES, DeliveryFormat()), Many(MAX_ENTRIES, ArtifactFormat())))))
  }

  function HeadRow(s: ControllerState): seq<Field> {
    [Num(1), Text(s.node), Num(s.epoch), Raw(s.incarnation), Signed(s.startedAt)]
  }

  ghost function RowsOf<K(!new), V(!new)>(table: map<K, V>, order: seq<K>): (rows: seq<V>)
    requires forall k :: k in order ==> k in table
    ensures |rows| == |order| && forall i :: 0 <= i < |rows| ==> rows[i] == table[order[i]]
  {
    seq(|order|, i requires 0 <= i < |order| => table[order[i]])
  }

  /** The tables in key order. */
  ghost function Tabulate(s: ControllerState): Tabled {
    (HeadRow(s), (RowsOf(s.targets, InIdOrder(s.targets.Keys)),
                  (RowsOf(s.deliveries, InIdOrder(s.deliveries.Keys)), RowsOf(s.artifacts, InDigestOrder(s.artifacts.Keys)))))
  }

  /** `encodeSnapshot`: refused for too many targets or deliveries, and for metadata that does not encode; the number
      of artifacts is not looked at. */
  ghost function EncodeSnapshot(dial: Plan.Dialing, s: ControllerState): Option<Bytes> {
    if |s.targets| > MAX_ENTRIES || |s.deliveries| > MAX_ENTRIES || |s.artifacts| >= U32_LIMIT || !WellFormed(dial, s) then None
    else Some(SnapshotFormat(dial).encode(Tabulate(s)))
  }

  function StateOfTables(t: Tabled): ControllerState {
    ControllerState(TextOf(At(t.0, 1)), U64Of(At(t.0, 2)), BytesOf(At(t.0, 3)), I64Of(At(t.0, 4)), Collected(TargetKey, t.1.0),
                    Collected(DeliveryKey, t.1.1.0), Collected(ArtifactKey, t.1.1.1))
  }

  /** `decodeSnapshot`. */
  function DecodeSnapshot(dial: Plan.Dialing, b: Bytes): Option<ControllerState> {
    match SnapshotFormat(dial).decode(b)
    case None => None
    case Some(t) => Some(StateOfTables(t))
  }

  // ---- Snapshots forget contact evidence and nothing else ----

  lemma {:induction false} SameEncodings<A(!new)>(f: Format<A>, xs: seq<A>, ys: seq<A>)
    requires |xs| == |ys| && forall i :: 0 <= i < |xs| ==> f.encode(xs[i]) == f.encode(ys[i])
    ensures EncodeEach(f, xs) == EncodeEach(f, ys)
    decreases |xs|
  {
    if xs != [] { SameEncodings(f, xs[1..], ys[1..]); }
  }

  lemma RowForgets(t: Target)
    ensures TargetRow(Forget(t)) == TargetRow(t) && TargetKey(Forget(t)) == TargetKey(t) && Forget(Forget(t)) == Forget(t)
  {
  }

  lemma ClearedIsWellFormed(dial: Plan.Dialing, s: ControllerState)
    ensures WellFormed(dial, Cleared(s)) <==> WellFormed(dial, s)
    ensures Cleared(s).targets.Keys == s.targets.Keys && |Cleared(s).targets| == |s.targets|
  {
    hide IsIdentifier, DeliveriesOk, ArtifactsOk, TargetFormat;
    assert Cleared(s).targets.Keys == s.targets.Keys;
    assert |Cleared(s).targets.Keys| == |Cleared(s).targets| && |s.targets.Keys| == |s.targets|;
    forall t | t in s.targets ensures Forget(Cleared(s).targets[t]) == Forget(s.targets[t]) && TargetKey(Cleared(s).targets[t]) == TargetKey(s.targets[t]) {
      RowForgets(s.targets[t]);
    }
    if TargetsOk(dial, s.targets) { assert TargetsOk(dial, Cleared(s).targets); }
    if TargetsOk(dial, Cleared(s).targets) {
      forall t | t in s.targets ensures TargetKey(s.targets[t]) == t && TargetFormat(dial).fits(Forget(s.targets[t])) {
        assert t in Cleared(s).targets;
      }
    }
  }

  /** What is written does not depend on the contact evidence of the running process. */
  lemma EncodeForgetsContact(dial: Plan.Dialing, s: ControllerState)
    ensures EncodeSnapshot(dial, Cleared(s)) == EncodeSnapshot(dial, s)
  {
    hide WellFormed, SnapshotFormat, Tabulate, Cleared;
    ClearedIsWellFormed(dial, s);
    KeptByClearing(s);
    SameBytes(dial, s);
  }

  lemma SameBytes(dial: Plan.Dialing, s: ControllerState)
    ensures SnapshotFormat(dial).encode(Tabulate(Cleared(s))) == SnapshotFormat(dial).encode(Tabulate(s))
  {
    ClearedIsWellFormed(dial, s);
    SameTargetBytes(dial, s);
    TabulateCleared(s);
    hide SnapshotFormat, Tabulate, TargetsBytes, Cleared, WellFormed;
    SameSnapshotBytes(dial, Tabulate(s), Tabulate(Cleared(s)));
  }

  lemma KeptByClearing(s: ControllerState)
    ensures Cleared(s).deliveries == s.deliveries && Cleared(s).artifacts == s.artifacts
  {
  }

  lemma TabulateCleared(s: ControllerState)
    requires Cleared(s).targets.Keys == s.targets.Keys
    ensures var t, u := Tabulate(s), Tabulate(Cleared(s));
            && t.0 == u.0 && t.1.1 == u.1.1
            && t.1.0 == RowsOf(s.targets, InIdOrder(s.targets.Keys)) && u.1.0 == RowsOf(Cleared(s).targets, InIdOrder(s.targets.Keys))
  {
    hide RowsOf, InIdOrder, InDigestOrder;
  }

  lemma SameTargetBytes(dial: Plan.Dialing, s: ControllerState)
    ensures var order := InIdOrder(s.targets.Keys);
            TargetsBytes(dial, RowsOf(s.targets, order)) == TargetsBytes(dial, RowsOf(Cleared(s).targets, order))
  {
    hide TargetRow, Store32, EncodeEach, RowsOf, InIdOrder, Row;
    var order := InIdOrder(s.targets.Keys);
    var xs, ys := RowsOf(s.targets, order), RowsOf(Cleared(s).targets, order);
    forall i | 0 <= i < |xs| ensures TargetFormat(dial).encode(xs[i]) == TargetFormat(dial).encode(ys[i]) {
      RowForgets(s.targets[order[i]]);
    }
    SameEncodings(TargetFormat(dial), xs, ys);
  }

  function TargetsBytes(dial: Plan.Dialing, xs: seq<Target>): Bytes {
    Many(MAX_ENTRIES, TargetFormat(dial)).encode(xs)
  }

  lemma SameSnapshotBytes(dial: Plan.Dialing, t: Tabled, u: Tabled)
    requires t.0 == u.0 && t.1.1 == u.1.1 && TargetsBytes(dial, t.1.0) == TargetsBytes(dial, u.1.0)
    ensures SnapshotFormat(dial).encode(t) == SnapshotFormat(dial).encode(u)
  {
    hide Row, Many, TargetFormat, DeliveryFormat, ArtifactFormat;
  }

  // ---- Snapshots come back ----

  function TargetsFormat(dial: Plan.Dialing): Format<seq<Target>> { Many(MAX_ENTRIES, TargetFormat(dial)) }

  function DeliveriesFormat(): Format<seq<Delivery>> { Many(MAX_ENTRIES, DeliveryFormat()) }

  function ArtifactsFormat(): Format<seq<Metadata>> { Many(MAX_ENTRIES, ArtifactFormat()) }

  lemma PartsExact(dial: Plan.Dialing)
    ensures Exact(Row(HEAD)) && Exact(TargetsFormat(dial)) && Exact(DeliveriesFormat()) && Exact(ArtifactFormat()) && Exact(ArtifactsFormat())
  {
    hide Exact, Inverse, Row, TargetFormat, DeliveryFormat, MetadataFormat, Many, Framed, Ended, Sealed;
    RowExact(HEAD);
    TargetExact(dial);
    ManyExact(MAX_ENTRIES, TargetFormat(dial));
    DeliveryExact();
    ManyExact(MAX_ENTRIES, DeliveryFormat());
    MetadataExact();
    EndedInverse(MetadataFormat());
    SealedInverse(Ended(MetadataFormat()));
    FramedExact(MAX_FIELD, MetadataFile());
    ManyExact(MAX_ENTRIES, ArtifactFormat());
  }

  lemma SnapshotInverse(dial: Plan.Dialing)
    ensures Inverse(SnapshotFormat(dial))
  {
    hide Exact, Row, TargetFormat, DeliveryFormat, ArtifactFormat, Many, Both, Ended, Inverse;
    PartsExact(dial);
    BothExact(DeliveriesFormat(), ArtifactsFormat());
    BothExact(TargetsFormat(dial), Both(DeliveriesFormat(), ArtifactsFormat()));
    BothExact(Row(HEAD), Both(TargetsFormat(dial), Both(DeliveriesFormat(), ArtifactsFormat())));
    EndedInverse(Both(Row(HEAD), Both(TargetsFormat(dial), Both(DeliveriesFormat(), ArtifactsFormat()))));
  }

  lemma HeadFits(dial: Plan.Dialing, s: ControllerState)
    requires WellFormed(dial, s)
    ensures Row(HEAD).fits(HeadRow(s))
  {
    hide IsIdentifier, TargetsOk, DeliveriesOk, ArtifactsOk;
    Wide();
    assert Pow256(2) == 65536;
  }

  predicate Uncontacted(s: ControllerState) {
    forall t :: t in s.targets ==> !s.targets[t].contactCurrent
  }

  ghost predicate AllTablesFit(dial: Plan.Dialing, t: Tabled) {
    && Row(HEAD).fits(t.0) && TargetsFormat(dial).fits(t.1.0) && DeliveriesFormat().fits(t.1.1.0)
    && forall i :: 0 <= i < |t.1.1.1| ==> ArtifactFormat().fits(t.1.1.1[i])
  }

  lemma TargetRowsFit(dial: Plan.Dialing, s: ControllerState)
    requires TargetsOk(dial, s.targets) && Uncontacted(s) && |s.targets| <= MAX_ENTRIES
    ensures TargetsFormat(dial).fits(RowsOf(s.targets, InIdOrder(s.targets.Keys)))
  {
    hide TargetFormat, EncodeEach;
    assert |s.targets.Keys| == |s.targets|;
    var rows := RowsOf(s.targets, InIdOrder(s.targets.Keys));
    forall i | 0 <= i < |rows| ensures TargetFormat(dial).fits(rows[i]) {
      var k := InIdOrder(s.targets.Keys)[i];
      assert k in s.targets && Forget(s.targets[k]) == s.targets[k];
    }
  }

  lemma DeliveryRowsFit(s: ControllerState)
    requires DeliveriesOk(s.deliveries) && |s.deliveries| <= MAX_ENTRIES
    ensures DeliveriesFormat().fits(RowsOf(s.deliveries, InIdOrder(s.deliveries.Keys)))
  {
    hide DeliveryFormat, EncodeEach;
    assert |s.deliveries.Keys| == |s.deliveries|;
    var rows := RowsOf(s.deliveries, InIdOrder(s.deliveries.Keys));
    forall i | 0 <= i < |rows| ensures DeliveryFormat().fits(rows[i]) {
      assert InIdOrder(s.deliveries.Keys)[i] in s.deliveries;
    }
  }

  lemma ArtifactRowsFit(s: ControllerState)
    requires ArtifactsOk(s.artifacts)
    ensures var rows := RowsOf(s.artifacts, InDigestOrder(s.artifacts.Keys));
            |rows| == |s.artifacts| && forall i :: 0 <= i < |rows| ==> ArtifactFormat().fits(rows[i])
  {
    hide ArtifactFormat;
    assert |s.artifacts.Keys| == |s.artifacts|;
    var rows := RowsOf(s.artifacts, InDigestOrder(s.artifacts.Keys));
    forall i | 0 <= i < |rows| ensures ArtifactFormat().fits(rows[i]) {
      assert InDigestOrder(s.artifacts.Keys)[i] in s.artifacts;
    }
  }

  lemma TablesFit(dial: Plan.Dialing, s: ControllerState)
    requires WellFormed(dial, s) && Uncontacted(s) && |s.targets| <= MAX_ENTRIES && |s.deliveries| <= MAX_ENTRIES
    ensures AllTablesFit(dial, Tabulate(s)) && |Tabulate(s).1.1.1| == |s.artifacts|
  {
    hide Row, HeadRow, TargetsFormat, DeliveriesFormat, ArtifactFormat, RowsOf, InIdOrder, InDigestOrder, Uncontacted;
    hide TargetsOk, DeliveriesOk, ArtifactsOk, IsIdentifier;
    HeadFits(dial, s);
    TargetRowsFit(dial, s);
    DeliveryRowsFit(s);
    ArtifactRowsFit(s);
  }

  lemma TablesCollected(dial: Plan.Dialing, s: ControllerState)
    requires WellFormed(dial, s)
    ensures Collected(TargetKey, RowsOf(s.targets, InIdOrder(s.targets.Keys))) == s.targets
    ensures Collected(DeliveryKey, RowsOf(s.deliveries, InIdOrder(s.deliveries.Keys))) == s.deliveries
    ensures Collected(ArtifactKey, RowsOf(s.artifacts, InDigestOrder(s.artifacts.Keys))) == s.artifacts
  {
    hide IsIdentifier, TargetFormat, DeliveryFormat, ArtifactFormat, Collected, InIdOrder, InDigestOrder;
    IdOrderEnumerates(s.targets.Keys);
    IdOrderEnumerates(s.deliveries.Keys);
    CollectedAll(TargetKey, InIdOrder(s.targets.Keys), s.targets, RowsOf(s.targets, InIdOrder(s.targets.Keys)));
    CollectedAll(DeliveryKey, InIdOrder(s.deliveries.Keys), s.deliveries, RowsOf(s.deliveries, InIdOrder(s.deliveries.Keys)));
    CollectedAll(ArtifactKey, InDigestOrder(s.artifacts.Keys), s.artifacts, RowsOf(s.artifacts, InDigestOrder(s.artifacts.Keys)));
  }

  lemma TablesComeBack(dial: Plan.Dialing, s: ControllerState)
    requires WellFormed(dial, s)
    ensures StateOfTables(Tabulate(s)) == s
  {
    TablesCollected(dial, s);
    hide WellFormed, Collected, InIdOrder, InDigestOrder, RowsOf;
  }

  lemma IdOrderEnumerates(keys: set<Id>)
    ensures Enumerates(InIdOrder(keys), keys)
  {
  }

  /** A snapshot comes back as the state that was written without its contact evidence, exactly when it holds no more
      than 100000 artifacts: the writer does not look at their number and the reader does. */
  lemma SnapshotIff(dial: Plan.Dialing, s: ControllerState)
    requires EncodeSnapshot(dial, s).Some?
    ensures DecodeSnapshot(dial, EncodeSnapshot(dial, s).value) ==
            if |s.artifacts| <= MAX_ENTRIES then Some(Cleared(s)) else None
  {
    hide WellFormed, SnapshotFormat, Tabulate, StateOfTables;
    EncodeForgetsContact(dial, s);
    ClearedIsWellFormed(dial, s);
    KeptByClearing(s);
    var c := Cleared(s);
    ClearedIsUncontacted(s);
    hide Cleared, Uncontacted, AllTablesFit;
    TablesComeBack(dial, c);
    TablesFit(dial, c);
    if |s.artifacts| <= MAX_ENTRIES {
      SnapshotReads(dial, Tabulate(c));
    } else {
      SnapshotRefused(dial, Tabulate(c));
    }
  }

  lemma ClearedIsUncontacted(s: ControllerState)
    ensures Uncontacted(Cleared(s)) && Cleared(Cleared(s)) == Cleared(s) && (Uncontacted(s) ==> Cleared(s) == s)
  {
    assert Cleared(Cleared(s)).targets == Cleared(s).targets;
    if Uncontacted(s) { assert Cleared(s).targets == s.targets; }
  }

  lemma SnapshotReads(dial: Plan.Dialing, t: Tabled)
    requires AllTablesFit(dial, t) && |t.1.1.1| <= MAX_ENTRIES
    ensures SnapshotFormat(dial).decode(SnapshotFormat(dial).encode(t)) == Some(t)
  {
    SnapshotInverse(dial);
    hide Row, TargetFormat, DeliveryFormat, ArtifactFormat, EncodeEach, DecodeEach;
    assert SnapshotFormat(dial).fits(t);
  }

  lemma SnapshotRefused(dial: Plan.Dialing, t: Tabled)
    requires AllTablesFit(dial, t) && MAX_ENTRIES < |t.1.1.1| < U32_LIMIT
    ensures SnapshotFormat(dial).decode(SnapshotFormat(dial).encode(t)) == None
  {
    PartsExact(dial);
    hide Row, Many, TargetFormat, DeliveryFormat, ArtifactFormat, Exact;
    var d, g, h := DeliveriesFormat(), TargetsFormat(dial), ArtifactsFormat();
    var last := h.encode(t.1.1.1);
    TooMany(MAX_ENTRIES, ArtifactFormat(), t.1.1.1, []);
    assert last + [] == last;
    SecondRefused(d, h, t.1.1.0, last);
    SecondRefused(g, Both(d, h), t.1.0, d.encode(t.1.1.0) + last);
    SecondRefused(Row(HEAD), Both(g, Both(d, h)), t.0, g.encode(t.1.0) + (d.encode(t.1.1.0) + last));
  }

  // ---- Journal records ----

  const IDENTITY_RECORD: seq<Shape> := [AN_ID, A_U64, AN_OPAQUE, ASigned]

  function RecordRow(ss: seq<Shape>, payload: Bytes): Option<seq<Field>> {
    Ended(Row(ss)).decode(payload)
  }

  /** A target record never changes the contact evidence the running process has. */
  function WithTarget(s: ControllerState, t: Target): ControllerState {
    var current := t.id in s.targets && s.targets[t.id].contactCurrent;
    s.(targets := s.targets[t.id := t.(contactCurrent := current)])
  }

  /** `ControllerStateCodec::apply`, first the records of the controller itself and of its targets. */
  function ApplyRecord(dial: Plan.Dialing, s: ControllerState, kind: u32, payload: Bytes): Option<ControllerState> {
    if kind < 30 then ApplyTargetRecord(dial, s, kind, payload) else ApplyTableRecord(s, kind, payload)
  }

  function ApplyTargetRecord(dial: Plan.Dialing, s: ControllerState, kind: u32, payload: Bytes): Option<ControllerState> {
    if kind == 10 then
      match RecordRow(IDENTITY_RECORD, payload)
      case None => None
      case Some(fs) => Some(s.(node := TextOf(At(fs, 0)), epoch := U64Of(At(fs, 1)), incarnation := BytesOf(At(fs, 2)), startedAt := I64Of(At(fs, 3))))
    else if kind == 11 then
      match RecordRow([A_SET_U64], payload)
      case None => None
      case Some(fs) => Some(s.(epoch := U64Of(At(fs, 0))))
    else if kind == 20 then
      match Ended(TargetFormat(dial)).decode(payload)
      case None => None
      case Some(t) => Some(WithTarget(s, t))
    else if kind == 21 then
      match RecordRow([AN_ID], payload)
      case None => None
      case Some(fs) => Some(s.(targets := s.targets - {TextOf(At(fs, 0))}))
    else None
  }

  function ApplyTableRecord(s: ControllerState, kind: u32, payload: Bytes): Option<ControllerState> {
    if kind == 30 then
      match Ended(DeliveryFormat()).decode(payload)
      case None => None
      case Some(d) => Some(s.(deliveries := s.deliveries[d.order.id := d]))
    else if kind == 31 then
      match RecordRow([AN_ID], payload)
      case None => None
      case Some(fs) => Some(s.(deliveries := s.deliveries - {TextOf(At(fs, 0))}))
    else if kind == 40 then
      match Ended(ArtifactFormat()).decode(payload)
      case None => None
      case Some(m) => Some(s.(artifacts := s.artifacts[m.digest := m]))
    else if kind == 41 then
      match RecordRow([A_DIGEST], payload)
      case None => None
      case Some(fs) => Some(s.(artifacts := s.artifacts - {BytesOf(At(fs, 0))}))
    else if kind == 90 then
      match RecordRow([AString(MAX_NOTE)], payload)
      case None => None
      case Some(_) => Some(s)
    else None
  }

  lemma DecodedFits<T(!new)>(f: Format<T>, payload: Bytes)
    requires Exact(f) && Ended(f).decode(payload).Some?
    ensures f.fits(Ended(f).decode(payload).value)
  {
  }

  /** Applying a record and forgetting contact evidence commute. */
  lemma ApplyForgetsContact(dial: Plan.Dialing, s: ControllerState, kind: u32, payload: Bytes)
    ensures ApplyRecord(dial, Cleared(s), kind, payload) ==
            match ApplyRecord(dial, s, kind, payload)
            case None => None
            case Some(t) => Some(Cleared(t))
  {
    hide RecordRow, Ended, TargetFormat, DeliveryFormat, ArtifactFormat;
    if kind == 20 {
      match Ended(TargetFormat(dial)).decode(payload)
      case None =>
      case Some(t) => WithTargetForgets(s, t);
    } else if kind == 21 && RecordRow([AN_ID], payload).Some? {
      var id := TextOf(At(RecordRow([AN_ID], payload).value, 0));
      assert Cleared(s.(targets := s.targets - {id})).targets == Cleared(s).targets - {id};
    }
  }

  lemma WithTargetForgets(s: ControllerState, t: Target)
    ensures WithTarget(Cleared(s), t) == Cleared(WithTarget(s, t))
  {
    assert WithTarget(Cleared(s), t).targets == Cleared(WithTarget(s, t)).targets;
  }

  /** What each record means: its own entry is put in or taken out, and nothing else changes. A record of a target keeps the
      contact this process has with it. */
  lemma RecordsTakeEffect(dial: Plan.Dialing, s: ControllerState, t: Target, d: Delivery, m: Metadata)
    ensures TargetFormat(dial).fits(t) ==>
              ApplyRecord(dial, s, 20, TargetFormat(dial).encode(t)) ==
              Some(s.(targets := s.targets[t.id := t.(contactCurrent := t.id in s.targets && s.targets[t.id].contactCurrent)]))
    ensures DeliveryFormat().fits(d) ==>
              ApplyRecord(dial, s, 30, DeliveryFormat().encode(d)) == Some(s.(deliveries := s.deliveries[d.order.id := d]))
    ensures ArtifactFormat().fits(m) ==>
              ApplyRecord(dial, s, 40, ArtifactFormat().encode(m)) == Some(s.(artifacts := s.artifacts[m.digest := m]))
  {
    hide Exact, Inverse, TargetFormat, DeliveryFormat, ArtifactFormat;
    TargetExact(dial);
    DeliveryExact();
    ArtifactExact(dial);
    EndedInverse(TargetFormat(dial));
    EndedInverse(DeliveryFormat());
    EndedInverse(ArtifactFormat());
    ReadBack(TargetFormat(dial), t);
    ReadBack(DeliveryFormat(), d);
    ReadBack(ArtifactFormat(), m);
  }

  lemma ReadBack<A(!new)>(f: Format<A>, x: A)
    requires Inverse(Ended(f))
    ensures f.fits(x) ==> Ended(f).decode(f.encode(x)) == Some(x)
  {
    assert Ended(f).fits(x) ==> Ended(f).decode(Ended(f).encode(x)) == Some(x);
  }

  /** And those that take an entry out. */
  lemma RemovalsTakeEffect(dial: Plan.Dialing, s: ControllerState, id: Id, digest: Digest)
    requires AllFit([Text(id)], [AN_ID]) && AllFit([Raw(digest)], [A_DIGEST])
    ensures ApplyRecord(dial, s, 21, EncodeAll([Text(id)], [AN_ID])) == Some(s.(targets := s.targets - {id}))
    ensures ApplyRecord(dial, s, 31, EncodeAll([Text(id)], [AN_ID])) == Some(s.(deliveries := s.deliveries - {id}))
    ensures ApplyRecord(dial, s, 41, EncodeAll([Raw(digest)], [A_DIGEST])) == Some(s.(artifacts := s.artifacts - {digest}))
  {
    hide AllFit, EncodeAll, RecordRow, TargetFormat, DeliveryFormat, ArtifactFormat;
    RowReadBack([Text(id)], [AN_ID]);
    RowReadBack([Raw(digest)], [A_DIGEST]);
  }

  /** And those that say who the controller is: a new epoch alone must not be zero. */
  lemma AuthorityTakesEffect(dial: Plan.Dialing, s: ControllerState, node: Id, epoch: u64, incarnation: Bytes, at: i64)
    requires AllFit([Text(node), Num(epoch), Raw(incarnation), Signed(at)], IDENTITY_RECORD)
    ensures ApplyRecord(dial, s, 10, EncodeAll([Text(node), Num(epoch), Raw(incarnation), Signed(at)], IDENTITY_RECORD)) ==
            Some(s.(node := node, epoch := epoch, incarnation := incarnation, startedAt := at))
    ensures epoch != 0 ==>
              && AllFit([Num(epoch)], [A_SET_U64])
              && ApplyRecord(dial, s, 11, EncodeAll([Num(epoch)], [A_SET_U64])) == Some(s.(epoch := epoch))
  {
    assert epoch != 0 ==> AllFit([Num(epoch)], [A_SET_U64]);
    hide AllFit, EncodeAll, RecordRow, TargetFormat, DeliveryFormat, ArtifactFormat;
    RowReadBack([Text(node), Num(epoch), Raw(incarnation), Signed(at)], IDENTITY_RECORD);
    if epoch != 0 { RowReadBack([Num(epoch)], [A_SET_U64]); }
  }

  lemma RowReadBack(fs: seq<Field>, ss: seq<Shape>)
    requires AllFit(fs, ss)
    ensures RecordRow(ss, EncodeAll(fs, ss)) == Some(fs)
  {
    RowExact(ss);
    EndedInverse(Row(ss));
    ReadBack(Row(ss), fs);
  }

  lemma TargetAdded(dial: Plan.Dialing, s: ControllerState, payload: Bytes)
    requires TargetsOk(dial, s.targets) && Ended(TargetFormat(dial)).decode(payload).Some?
    ensures TargetsOk(dial, WithTarget(s, Ended(TargetFormat(dial)).decode(payload).value).targets)
  {
    TargetExact(dial);
    DecodedUncontacted(dial, payload);
    hide TargetFormat, Exact;
    DecodedFits(TargetFormat(dial), payload);
    var t := Ended(TargetFormat(dial)).decode(payload).value;
    assert Forget(t) == t && forall c :: Forget(t.(contactCurrent := c)) == t;
  }

  lemma DeliveryAdded(s: ControllerState, payload: Bytes)
    requires DeliveriesOk(s.deliveries) && Ended(DeliveryFormat()).decode(payload).Some?
    ensures var d := Ended(DeliveryFormat()).decode(payload).value; DeliveriesOk(s.deliveries[d.order.id := d])
  {
    DeliveryExact();
    hide DeliveryFormat, Exact;
    DecodedFits(DeliveryFormat(), payload);
  }

  lemma ArtifactExact(dial: Plan.Dialing)
    ensures Exact(ArtifactFormat())
  {
    hide Exact, ArtifactFormat, Row, TargetFormat, DeliveryFormat, Many;
    PartsExact(dial);
  }

  lemma ArtifactAdded(dial: Plan.Dialing, s: ControllerState, payload: Bytes)
    requires ArtifactsOk(s.artifacts) && Ended(ArtifactFormat()).decode(payload).Some?
    ensures var m := Ended(ArtifactFormat()).decode(payload).value; ArtifactsOk(s.artifacts[m.digest := m])
  {
    hide ArtifactFormat, Exact;
    ArtifactExact(dial);
    DecodedFits(ArtifactFormat(), payload);
  }

  lemma Removed(dial: Plan.Dialing, s: ControllerState, id: Id, digest: Digest)
    ensures TargetsOk(dial, s.targets) ==> TargetsOk(dial, s.targets - {id})
    ensures DeliveriesOk(s.deliveries) ==> DeliveriesOk(s.deliveries - {id})
    ensures ArtifactsOk(s.artifacts) ==> ArtifactsOk(s.artifacts - {digest})
  {
    hide TargetFormat, DeliveryFormat, ArtifactFormat;
  }

  lemma ApplyKeepsTargets(dial: Plan.Dialing, s: ControllerState, kind: u32, payload: Bytes)
    requires WellFormed(dial, s) && ApplyTargetRecord(dial, s, kind, payload).Some?
    ensures WellFormed(dial, ApplyTargetRecord(dial, s, kind, payload).value)
  {
    hide RecordRow, Ended, TargetsOk, DeliveriesOk, ArtifactsOk, IsIdentifier, TargetFormat, DeliveryFormat, ArtifactFormat;
    if kind == 10 {
      IdentityRecord(payload);
    } else if kind == 20 {
      TargetAdded(dial, s, payload);
    } else if kind == 21 {
      Removed(dial, s, TextOf(At(RecordRow([AN_ID], payload).value, 0)), NO_DIGEST);
    }
  }

  lemma ApplyKeepsTables(dial: Plan.Dialing, s: ControllerState, kind: u32, payload: Bytes)
    requires WellFormed(dial, s) && ApplyTableRecord(s, kind, payload).Some?
    ensures WellFormed(dial, ApplyTableRecord(s, kind, payload).value)
  {
    hide RecordRow, Ended, TargetsOk, DeliveriesOk, ArtifactsOk, IsIdentifier, TargetFormat, DeliveryFormat, ArtifactFormat;
    if kind == 30 {
      DeliveryAdded(s, payload);
    } else if kind == 31 {
      Removed(dial, s, TextOf(At(RecordRow([AN_ID], payload).value, 0)), NO_DIGEST);
    } else if kind == 40 {
      ArtifactAdded(dial, s, payload);
    } else if kind == 41 {
      Removed(dial, s, UNSET, BytesOf(At(RecordRow([A_DIGEST], payload).value, 0)));
    }
  }

  lemma ApplyKeepsWellFormed(dial: Plan.Dialing, s: ControllerState, kind: u32, payload: Bytes)
    requires WellFormed(dial, s) && ApplyRecord(dial, s, kind, payload).Some?
    ensures WellFormed(dial, ApplyRecord(dial, s, kind, payload).value)
  {
    hide ApplyTargetRecord, ApplyTableRecord, WellFormed;
    if kind < 30 { ApplyKeepsTargets(dial, s, kind, payload); } else { ApplyKeepsTables(dial, s, kind, payload); }
  }

  lemma IdentityRecord(payload: Bytes)
    ensures var fs := RecordRow(IDENTITY_RECORD, payload);
            fs.Some? ==> IsIdentifier(TextOf(At(fs.value, 0))) && |BytesOf(At(fs.value, 2))| == 16
  {
    hide IsIdentifier, DecodeAll, EncodeAll;
    var fs := RecordRow(IDENTITY_RECORD, payload);
    if fs.Some? {
      assert Fits(fs.value[0], AN_ID) && Fits(fs.value[2], AN_OPAQUE);
    }
  }

  lemma DecodedUncontacted(dial: Plan.Dialing, payload: Bytes)
    ensures Ended(TargetFormat(dial)).decode(payload).Some? ==> !Ended(TargetFormat(dial)).decode(payload).value.contactCurrent
  {
    hide DecodeAll, EncodeAll;
  }

  // ---- What the durable store relies on ----

  ghost predicate Durable(dial: Plan.Dialing, s: ControllerState) {
    WellFormed(dial, s) && Uncontacted(s)
  }

  /** The controller's codec, for a store that is never asked for a snapshot of more artifacts than a reader takes. */
  ghost function Codec(dial: Plan.Dialing): StoreModel.Codec<ControllerState> {
    StoreModel.Codec(INITIAL_CONTROLLER, (s: ControllerState, k: u32, p: Bytes) => ApplyRecord(dial, s, k, p),
                     (s: ControllerState) => if |s.artifacts| <= MAX_ENTRIES then EncodeSnapshot(dial, s) else None,
                     (b: Bytes) => DecodeSnapshot(dial, b), (s: ControllerState) => Durable(dial, s))
  }

  lemma CodecIsLawful(dial: Plan.Dialing)
    ensures StoreModel.Lawful(Codec(dial))
  {
    hide WellFormed, EncodeSnapshot, DecodeSnapshot, ApplyRecord, Cleared, Uncontacted;
    InitialIsDurable(dial);
    forall s: ControllerState, k: u32, p: Bytes | Durable(dial, s) && ApplyRecord(dial, s, k, p).Some?
      ensures Durable(dial, ApplyRecord(dial, s, k, p).value) && k in JournalFormat.KNOWN_KINDS && k != JournalFormat.SEGMENT_START
    {
      ApplyKeepsWellFormed(dial, s, k, p);
      ApplyKeepsUncontacted(dial, s, k, p);
      KindIsKnown(dial, s, k, p);
    }
    forall s: ControllerState | Durable(dial, s) && EncodeSnapshot(dial, s).Some? && |s.artifacts| <= MAX_ENTRIES
      ensures DecodeSnapshot(dial, EncodeSnapshot(dial, s).value) == Some(s)
    {
      SnapshotIff(dial, s);
      ClearedIsUncontacted(s);
    }
  }

  lemma InitialIsDurable(dial: Plan.Dialing)
    ensures Durable(dial, INITIAL_CONTROLLER)
  {
  }

  lemma ApplyKeepsUncontacted(dial: Plan.Dialing, s: ControllerState, kind: u32, payload: Bytes)
    requires Uncontacted(s) && ApplyRecord(dial, s, kind, payload).Some?
    ensures Uncontacted(ApplyRecord(dial, s, kind, payload).value)
  {
    hide ApplyRecord;
    ClearedIsUncontacted(s);
    ApplyForgetsContact(dial, s, kind, payload);
    ClearedIsUncontacted(ApplyRecord(dial, s, kind, payload).value);
  }

  lemma KindIsKnown(dial: Plan.Dialing, s: ControllerState, kind: u32, payload: Bytes)
    requires ApplyRecord(dial, s, kind, payload).Some?
    ensures kind in JournalFormat.KNOWN_KINDS && kind != JournalFormat.SEGMENT_START
  {
    hide RecordRow, Ended, WithTarget, TargetFormat, DeliveryFormat, ArtifactFormat;
  }

  /** The controller's durable state survives: whatever is cut and whichever snapshots are lost, its store opens with the
      fold of every committed record, or it does not open. */
  lemma ControllerStateSurvives(dial: Plan.Dialing, ss: seq<StoreRuns.System<ControllerState>>, es: seq<StoreRuns.Event>, i: nat)
    requires StoreRuns.Trace(Codec(dial), ss, es) && i < |ss|
    ensures var o := StoreModel.OpenOf(Codec(dial), ss[i].disk);
            o.result.Ok? ==> StoreRuns.FoldChanges(Codec(dial), INITIAL_CONTROLLER, StoreRuns.Committed(Codec(dial), ss, es, i)) == Some(o.result.value.state)
  {
    hide StoreRuns.Trace, StoreModel.OpenOf, StoreRuns.FoldChanges, StoreRuns.Committed;
    CodecIsLawful(dial);
    StoreRuns.StoreRefinesFold(Codec(dial), ss, es, i);
  }

  // ---- A running controller ----

  /** What happens to the state in memory: a committed record, or contact with a target gained or lost. */
  datatype Live = Record(kind: u32, payload: Bytes) | Contact(target: Id, current: bool)

  function LiveRun(dial: Plan.Dialing, s: ControllerState, es: seq<Live>): Option<ControllerState>
    decreases |es|
  {
    if es == [] then Some(s)
    else
      match es[0]
      case Record(k, p) =>
        (match ApplyRecord(dial, s, k, p)
         case None => None
         case Some(t) => LiveRun(dial, t, es[1..]))
      case Contact(id, now) =>
        LiveRun(dial, if id in s.targets then s.(targets := s.targets[id := s.targets[id].(contactCurrent := now)]) else s, es[1..])
  }

  function Records(es: seq<Live>): seq<Live> {
    if es == [] then [] else (if es[0].Record? then [es[0]] else []) + Records(es[1..])
  }

  /** However contact came and went, what a restart inherits is what the records alone make of it: contact evidence never
      becomes durable, and applying records never loses it. */
  lemma {:induction false} ContactIsNeverDurable(dial: Plan.Dialing, s: ControllerState, es: seq<Live>)
    ensures LiveRun(dial, Cleared(s), Records(es)) ==
            match LiveRun(dial, s, es)
            case None => None
            case Some(t) => Some(Cleared(t))
    decreases |es|
  {
    hide ApplyRecord, Cleared;
    if es != [] {
      match es[0]
      case Record(k, p) =>
        ApplyForgetsContact(dial, s, k, p);
        assert Records(es) == [es[0]] + Records(es[1..]);
        assert Records(es)[1..] == Records(es[1..]);
        if ApplyRecord(dial, s, k, p).Some? { ContactIsNeverDurable(dial, ApplyRecord(dial, s, k, p).value, es[1..]); }
      case Contact(id, now) =>
        assert Records(es) == Records(es[1..]);
        if id in s.targets {
          var t := s.(targets := s.targets[id := s.targets[id].(contactCurrent := now)]);
          ContactForgotten(s, id, now);
          ContactIsNeverDurable(dial, t, es[1..]);
        } else {
          ContactIsNeverDurable(dial, s, es[1..]);
        }
    }
  }

  lemma ContactForgotten(s: ControllerState, id: Id, now: bool)
    requires id in s.targets
    ensures Cleared(s.(targets := s.targets[id := s.targets[id].(contactCurrent := now)])) == Cleared(s)
  {
    assert Cleared(s.(targets := s.targets[id := s.targets[id].(contactCurrent := now)])).targets == Cleared(s).targets;
  }
}
