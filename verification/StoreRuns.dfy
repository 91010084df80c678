/** Crash refinement of the durable store: every run, whatever is cut and whichever snapshots become unreadable,
    opens with the fold of everything committed, or refuses to open. */
module StoreRuns {
  import opened Prelude
  import opened LittleEndian
  import opened JournalFormat
  import opened Journal
  import SnapshotFile
  import opened StoreModel

  // ---- What the disk holds ----

  /** The records of every segment so far, and where the current segment starts; `None` means no segment is usable. */
  datatype Log = Log(records: seq<JournalRecord>, start: Option<nat>)

  /** The file holds exactly `rs`, give or take a torn append. */
  predicate LiveFile(f: Bytes, rs: seq<JournalRecord>) {
    && FileHeader() <= f
    && Scan(f[FILE_HEADER..], MAX, None).records == rs
    && Scan(f[FILE_HEADER..], MAX, None).outcome != Corrupted
    && f[..|f| - Scan(f[FILE_HEADER..], MAX, None).discarded] == FileOf(rs)
  }

  /** No record can be read from the file. */
  predicate Dead(f: Bytes) {
    FileHeader() <= f ==> Scan(f[FILE_HEADER..], MAX, None).records == []
  }

  predicate SlotOk<S(==)>(c: Codec<S>, slot: Option<Bytes>, h: seq<JournalRecord>) {
    var l := SnapshotFile.ReadSlot(slot, MAX_SNAPSHOT);
    l.Some? && l.value.covered < U64_LIMIT - 1 ==>
      l.value.covered <= |h| && Fold(c, h[..l.value.covered]).Some? && c.decode(l.value.payload) == Fold(c, h[..l.value.covered])
  }

  predicate HistoryOk<S>(c: Codec<S>, h: seq<JournalRecord>) {
    Numbered(h) && AllWritable(h, MAX) && Fold(c, h).Some?
  }

  predicate JournalOk(d: Disk, log: Log) {
    match log.start
    case None => if d.journal.Some? then Dead(d.journal.value) else log.records == [] && SnapshotFile.Load(d.slots, MAX_SNAPSHOT).None?
    case Some(b) =>
      b < |log.records| < U64_LIMIT && log.records[b] == SegmentStart(b + 1) && d.journal.Some? && LiveFile(d.journal.value, log.records[b..])
  }

  predicate Inv<S(==)>(c: Codec<S>, d: Disk, log: Log) {
    && HistoryOk(c, log.records) && JournalOk(d, log)
    && SlotOk(c, d.slots.a, log.records) && SlotOk(c, d.slots.b, log.records)
  }

  /** A running store is where its journal ends. Once the sequence numbers are used up its state may be ahead. */
  predicate ProcOk<S(==)>(c: Codec<S>, d: Disk, log: Log, p: Proc<S>) {
    && log.start.Some? && log.start.value < |log.records|
    && d.journal == Some(FileOf(log.records[log.start.value..]))
    && p.last == |log.records|
    && c.good(p.state) && (p.last < U64_LIMIT - 1 ==> Fold(c, log.records) == Some(p.state))
  }

  // ---- Runs ----

  datatype System<S> = System(disk: Disk, proc: Option<Proc<S>>)

  datatype Event =
    | Commit(kind: u32, payload: Bytes)
    | CommitCut(kind: u32, payload: Bytes, cut: Cut)
    | Compact
    | CompactCut(cut: Cut)
    | Kill
    | Open
    | OpenCut(cut: Cut)
    | Rot(which: SnapshotFile.Which, content: Bytes)

  ghost predicate Enabled<S>(c: Codec<S>, sys: System<S>, e: Event) {
    match e
    case Commit(_, _) => sys.proc.Some?
    case CommitCut(k, b, cut) => sys.proc.Some? && ValidCut(CommitOf(c, sys.proc.value, k, b).effects, cut)
    case Compact => sys.proc.Some?
    case CompactCut(cut) => sys.proc.Some? && ValidCut(CompactOf(c, sys.disk, sys.proc.value).effects, cut)
    case Kill => true
    case Open => sys.proc.None?
    case OpenCut(cut) => sys.proc.None? && ValidCut(OpenOf(c, sys.disk).effects, cut)
    case Rot(_, content) => SnapshotFile.Read(content, MAX_SNAPSHOT).None?
  }

  ghost function Next<S>(c: Codec<S>, sys: System<S>, e: Event): System<S>
    requires Enabled(c, sys, e)
  {
    match e
    case Commit(k, b) =>
      var o := CommitOf(c, sys.proc.value, k, b);
      System(Run(sys.disk, o.effects), Some(o.proc))
    case CommitCut(k, b, cut) => System(Crashed(sys.disk, CommitOf(c, sys.proc.value, k, b).effects, cut), None)
    case Compact =>
      var o := CompactOf(c, sys.disk, sys.proc.value);
      System(Run(sys.disk, o.effects), Some(o.proc))
    case CompactCut(cut) => System(Crashed(sys.disk, CompactOf(c, sys.disk, sys.proc.value).effects, cut), None)
    case Kill => sys.(proc := None)
    case Open =>
      var o := OpenOf(c, sys.disk);
      System(Run(sys.disk, o.effects), match o.result case Ok(p) => Some(p) case Err(_) => None)
    case OpenCut(cut) => System(Crashed(sys.disk, OpenOf(c, sys.disk).effects, cut), None)
    case Rot(w, content) => sys.(disk := Do(sys.disk, WriteSlot(w, content)))
  }

  // ---- Facts about the file ----

  lemma ScanTorn(rs: seq<JournalRecord>, r: JournalRecord, n: nat)
    requires Writes(rs, MAX) && Writable(r, MAX) && n < |Encode(r)|
    ensures LiveFile(FileOf(rs) + Encode(r)[..n], rs)
  {
    hide Encode, EncodeAll, FileHeader, ReadRecord;
    var torn := Encode(r)[..n];
    var f := FileOf(rs) + torn;
    assert f == FileHeader() + (EncodeAll(rs) + torn);
    HeaderLength();
    assert f[FILE_HEADER..] == EncodeAll(rs) + torn;
    ScanAfter(rs, torn, MAX, None);
    if n > 0 { ReadCut(r, n, MAX); } else { EmptyReads([], MAX); }
    assert rs + [] == rs;
    assert f[..|f| - n] == FileOf(rs);
  }

  lemma HeaderLength()
    ensures |FileHeader()| == FILE_HEADER
  {
  }

  lemma WholeLive(rs: seq<JournalRecord>)
    requires Writes(rs, MAX)
    ensures LiveFile(FileOf(rs), rs)
  {
    hide EncodeAll, FileHeader;
    HeaderLength();
    assert FileOf(rs)[FILE_HEADER..] == EncodeAll(rs);
    WholeRecovery(rs, MAX, None);
    assert FileOf(rs)[..|FileOf(rs)| - 0] == FileOf(rs);
  }

  /** A bare header, or one followed by a piece of a record, holds nothing. */
  lemma BareHeaderIsDead(r: JournalRecord, n: nat)
    requires Writable(r, MAX) && n < |Encode(r)|
    ensures Dead(FileHeader() + Encode(r)[..n])
  {
    hide Encode, FileHeader, Scan;
    ScanTorn([], r, n);
    EncodeNone();
    assert FileOf([]) == FileHeader();
  }

  lemma NumberedTail(h: seq<JournalRecord>, b: nat)
    requires Numbered(h) && AllWritable(h, MAX) && b <= |h|
    ensures Writes(h[b..], MAX)
    ensures b < |h| ==> LastSequence(h[b..]) == |h|
  {
    forall r | r in h[b..] ensures Writable(r, MAX) { assert r in h; }
  }

  lemma OneEffect(d: Disk, e: Effect)
    ensures Run(d, [e]) == Do(d, e)
  {
    assert [e][1..] == [];
  }

  lemma NoEffects(d: Disk)
    ensures Run(d, []) == d
  {
  }

  lemma ThreeEffects(d: Disk, e: Effect, f: Effect, g: Effect)
    ensures Run(d, [e, f, g]) == Do(Do(Do(d, e), f), g)
    ensures Run(d, [e, f, g][..0]) == d && Run(d, [e, f, g][..1]) == Do(d, e) && Run(d, [e, f, g][..2]) == Do(Do(d, e), f)
    ensures Run(d, [e, f, g][..3]) == Do(Do(Do(d, e), f), g)
  {
    assert [e, f, g][1..] == [f, g] && [f, g][1..] == [g];
    assert [e, f, g][..1] == [e] && [e, f, g][..2] == [e, f] && [e, f][1..] == [f];
    OneEffect(d, e);
    OneEffect(Do(d, e), f);
    OneEffect(Do(Do(d, e), f), g);
    assert [e, f, g][..3] == [e, f, g];
  }

  // ---- Commit ----

  function Extended(log: Log, r: JournalRecord): Log {
    log.(records := log.records + [r])
  }

  lemma HistoryExtends<S(!new)>(c: Codec<S>, h: seq<JournalRecord>, r: JournalRecord, s: S, t: S)
    requires HistoryOk(c, h) && Fold(c, h) == Some(s) && Writable(r, MAX) && r.sequence == |h| + 1
    requires if r.kind == SEGMENT_START then t == s else c.apply(s, r.kind, r.payload) == Some(t)
    ensures HistoryOk(c, h + [r]) && Fold(c, h + [r]) == Some(t)
  {
    ReplayConcat(c, c.initial, h, [r], 0);
    assert [r][1..] == [];
    forall x | x in h + [r] ensures Writable(x, MAX) {}
  }

  lemma SlotExtends<S>(c: Codec<S>, slot: Option<Bytes>, h: seq<JournalRecord>, r: JournalRecord)
    requires SlotOk(c, slot, h)
    ensures SlotOk(c, slot, h + [r])
  {
    hide SnapshotFile.ReadSlot, Fold;
    var l := SnapshotFile.ReadSlot(slot, MAX_SNAPSHOT);
    if l.Some? && l.value.covered < U64_LIMIT - 1 {
      assert (h + [r])[..l.value.covered] == h[..l.value.covered];
    }
  }

  /** A torn append leaves the records as they were. */
  lemma TornAppend<S(!new)>(c: Codec<S>, d: Disk, log: Log, p: Proc<S>, r: JournalRecord, n: nat)
    requires Inv(c, d, log) && ProcOk(c, d, log, p) && Writable(r, MAX) && n < |Encode(r)|
    ensures Inv(c, Do(d, AppendJournal(Encode(r)[..n])), log)
  {
    hide Encode, FileOf, LiveFile, SlotOk, Fold, Scan, ReadRecord;
    NumberedTail(log.records, log.start.value);
    ScanTorn(log.records[log.start.value..], r, n);
  }

  /** A whole append adds its record. */
  lemma AppendStep<S(!new)>(c: Codec<S>, d: Disk, log: Log, p: Proc<S>, r: JournalRecord, t: S)
    requires Inv(c, d, log) && ProcOk(c, d, log, p) && p.last < U64_LIMIT - 1
    requires Writable(r, MAX) && r.sequence == p.last + 1 && r.kind != SEGMENT_START && c.apply(p.state, r.kind, r.payload) == Some(t)
    requires c.good(t)
    ensures Inv(c, Do(d, AppendJournal(Encode(r))), Extended(log, r))
    ensures ProcOk(c, Do(d, AppendJournal(Encode(r))), Extended(log, r), Proc(t, p.last + 1))
  {
    hide Encode, FileOf, LiveFile, SlotOk, Fold, Scan;
    var b := log.start.value;
    var rs := log.records[b..];
    HistoryExtends(c, log.records, r, p.state, t);
    SlotExtends(c, d.slots.a, log.records, r);
    SlotExtends(c, d.slots.b, log.records, r);
    EncodeSnoc(rs, r);
    assert (log.records + [r])[b..] == rs + [r];
    NumberedTail(log.records + [r], b);
    WholeLive(rs + [r]);
  }

  // ---- Compaction ----

  lemma SlotWritten<S(!new)>(c: Codec<S>, d: Disk, log: Log, p: Proc<S>, b: Bytes)
    requires Lawful(c) && Inv(c, d, log) && ProcOk(c, d, log, p)
    requires c.encode(p.state) == Some(b) && |b| <= MAX_SNAPSHOT
    ensures Inv(c, Do(d, WriteSlot(SnapshotFile.Target(d.slots, MAX_SNAPSHOT), SnapshotFile.Encode(p.last, b))), log)
  {
    hide Fold, LiveFile, FileOf, SnapshotFile.Read, SnapshotFile.Encode;
    SnapshotFile.ReadEncoded(p.last, b, MAX_SNAPSHOT);
    assert log.records[..|log.records|] == log.records;
    assert SlotOk(c, Some(SnapshotFile.Encode(p.last, b)), log.records);
  }

  /** The journal starts again behind a snapshot of everything. */
  lemma Restarted<S(!new)>(c: Codec<S>, d: Disk, log: Log, p: Proc<S>, n: nat)
    requires Inv(c, d, log) && ProcOk(c, d, log, p) && p.last < U64_LIMIT - 1
    requires n < |Encode(SegmentStart(p.last + 1))|
    ensures var seg := SegmentStart(p.last + 1);
            var bare := Do(d, TruncateJournal(FILE_HEADER));
            var whole := Do(bare, AppendJournal(Encode(seg)));
            && Inv(c, bare, Log(log.records, None))
            && Inv(c, Do(bare, AppendJournal(Encode(seg)[..n])), Log(log.records, None))
            && Inv(c, whole, Log(log.records + [seg], Some(|log.records|)))
            && ProcOk(c, whole, Log(log.records + [seg], Some(|log.records|)), Proc(p.state, p.last + 1))
  {
    hide Encode, LiveFile, SlotOk, Fold, FileHeader, EncodeAll, Dead;
    var seg := SegmentStart(p.last + 1);
    HeaderLength();
    assert FileOf(log.records[log.start.value..])[..FILE_HEADER] == FileHeader();
    BareHeaderIsDead(seg, 0);
    BareHeaderIsDead(seg, n);
    assert FileHeader() + Encode(seg)[..0] == FileHeader();
    Started(p.last + 1, MAX);
    WholeLive([seg]);
    HistoryExtends(c, log.records, seg, p.state, p.state);
    SlotExtends(c, d.slots.a, log.records, seg);
    SlotExtends(c, d.slots.b, log.records, seg);
    assert (log.records + [seg])[|log.records|..] == [seg];
  }

  /** Losing a snapshot breaks nothing. */
  lemma RotStep<S>(c: Codec<S>, d: Disk, log: Log, w: SnapshotFile.Which, content: Bytes)
    requires Inv(c, d, log) && SnapshotFile.Read(content, MAX_SNAPSHOT).None?
    ensures Inv(c, Do(d, WriteSlot(w, content)), log)
  {
    hide Fold, LiveFile, SnapshotFile.Read;
    assert SlotOk(c, Some(content), log.records);
  }

  // ---- Opening ----

  /** When the gap check passes: the best readable snapshot reaches the segment's start. */
  predicate Covers(d: Disk, start: nat) {
    var best := SnapshotFile.Load(d.slots, MAX_SNAPSHOT);
    if best.None? then start == 0 else start <= best.value.1.covered < U64_LIMIT - 1
  }

  lemma {:induction false} OnlyTornTailsDiscard(b: Bytes, max: nat, expected: Option<nat>)
    ensures var s := Scan(b, max, expected);
            && (s.outcome != TruncatedTail ==> s.discarded == 0)
            && (s.records == [] && s.outcome == TruncatedTail ==> s.discarded == |b|)
    decreases |b|
  {
    hide ReadRecord;
    ReadLength(b, max);
    match ReadRecord(b, max)
    case Read(r) =>
      if RECORD_HEADER + |r.payload| <= |b| {
        OnlyTornTailsDiscard(b[RECORD_HEADER + |r.payload|..], max, Some(r.sequence + 1));
      }
    case _ =>
  }

  lemma JournalEffectsOf(d: Disk)
    requires d.journal.Some? && FileHeader() <= d.journal.value && |d.journal.value| >= FILE_HEADER
    ensures var s := Scan(d.journal.value[FILE_HEADER..], MAX, None);
            && s.discarded <= |d.journal.value|
            && JournalEffects(d) == if s.outcome == TruncatedTail then [TruncateJournal(|d.journal.value| - s.discarded)] else []
    ensures Run(d, []) == d
  {
    hide FileHeader, Scan, Creation;
  }

  /** Opening leaves exactly the live records in the file. */
  lemma JournalTrimmed(d: Disk, rs: seq<JournalRecord>)
    requires d.journal.Some? && LiveFile(d.journal.value, rs)
    ensures Run(d, JournalEffects(d)) == d.(journal := Some(FileOf(rs)))
    ensures JournalEffects(d) == [] || exists n :: JournalEffects(d) == [TruncateJournal(n)]
  {
    hide FileOf, FileHeader, Scan, JournalEffects, Run;
    HeaderLength();
    var f := d.journal.value;
    JournalEffectsOf(d);
    OnlyTornTailsDiscard(f[FILE_HEADER..], MAX, None);
    var s := Scan(f[FILE_HEADER..], MAX, None);
    if s.outcome == TruncatedTail {
      OneEffect(d, TruncateJournal(|f| - s.discarded));
    } else {
      assert f[..|f| - 0] == f;
    }
  }

  lemma FirstStartOf(rs: seq<JournalRecord>, start: nat)
    requires rs != [] && start < U64_LIMIT - 1 && rs[0] == SegmentStart(start + 1)
    ensures ReadBase(rs) == Ok(start + 1)
  {
    hide Store64, Load64;
    RoundTrip64(start + 1);
  }

  lemma AssembleLive<S(!new)>(c: Codec<S>, h: seq<JournalRecord>, start: nat, s: S, covered: u64)
    requires HistoryOk(c, h) && start < |h| && h[start] == SegmentStart(start + 1)
    requires covered < U64_LIMIT - 1 ==> covered <= |h| && Fold(c, h[..covered]) == Some(s)
    ensures Assemble(c, s, covered, h[start..]) ==
            if start <= covered < U64_LIMIT - 1 then Ok(Proc(Fold(c, h).value, |h|)) else Err(Gap)
  {
    hide Fold, Replay, ReadBase;
    FirstStartOf(h[start..], start);
    NumberedTail(h, start);
    if start <= covered < U64_LIMIT - 1 {
      ReplayIsFold(c, h, start, covered, s);
    }
  }

  lemma BestSnapshot<S(!new)>(c: Codec<S>, d: Disk, h: seq<JournalRecord>)
    requires SlotOk(c, d.slots.a, h) && SlotOk(c, d.slots.b, h) && Lawful(c)
    ensures match SnapshotFile.Load(d.slots, MAX_SNAPSHOT)
            case None => Snapshot(c, d.slots) == Ok((c.initial, 0)) && Fold(c, h[..0]) == Some(c.initial)
            case Some((_, l)) =>
              l.covered < U64_LIMIT - 1 ==>
                && l.covered <= |h| && Fold(c, h[..l.covered]).Some?
                && Snapshot(c, d.slots) == Ok((Fold(c, h[..l.covered]).value, l.covered))
  {
    hide SnapshotFile.Read;
  }

  /** A live journal opens exactly when the snapshots leave no gap, and then with the fold of the whole history. */
  lemma OpenLive<S(!new)>(c: Codec<S>, d: Disk, log: Log)
    requires Lawful(c) && Inv(c, d, log) && log.start.Some?
    ensures OpenOf(c, d).result ==
            (if Covers(d, log.start.value) then Ok(Proc(Fold(c, log.records).value, |log.records|)) else OpenOf(c, d).result)
    ensures OpenOf(c, d).result.Ok? <==> Covers(d, log.start.value)
    ensures OpenOf(c, d).effects == [] || OpenOf(c, d).effects == JournalEffects(d)
  {
    hide Fold, LiveFile, SlotOk, Assemble, Snapshot, JournalEffects, FileHeader, Scan, Creation, FileOf, Encode, SegmentStart, SnapshotFile.Load, Numbered, AllWritable;
    LiveRecords(d.journal.value, log.records[log.start.value..]);
    BestSnapshot(c, d, log.records);
    if Snapshot(c, d.slots).Ok? {
      var (s, covered) := Snapshot(c, d.slots).value;
      SnapshotCovers(c, d);
      AssembleLive(c, log.records, log.start.value, s, covered);
    } else {
      SnapshotCovers(c, d);
    }
  }

  lemma SnapshotCovers<S>(c: Codec<S>, d: Disk)
    ensures SnapshotFile.Load(d.slots, MAX_SNAPSHOT).Some? && Snapshot(c, d.slots).Ok? ==>
              Snapshot(c, d.slots).value.1 == SnapshotFile.Load(d.slots, MAX_SNAPSHOT).value.1.covered
    ensures SnapshotFile.Load(d.slots, MAX_SNAPSHOT).None? ==> Snapshot(c, d.slots) == Ok((c.initial, 0))
  {
  }

  lemma LiveRecords(f: Bytes, rs: seq<JournalRecord>)
    requires LiveFile(f, rs)
    ensures FileHeader() <= f && |f| >= FILE_HEADER
    ensures Scan(f[FILE_HEADER..], MAX, None).records == rs && Scan(f[FILE_HEADER..], MAX, None).outcome != Corrupted
  {
  }

  /** A disk without a usable segment never opens, unless it is empty. */
  lemma OpenDead<S>(c: Codec<S>, d: Disk)
    requires d.journal.Some? && Dead(d.journal.value)
    ensures OpenOf(c, d).result.Err?
    ensures OpenOf(c, d).effects == [] || OpenOf(c, d).effects == JournalEffects(d)
    ensures Run(d, JournalEffects(d)).journal.Some? && Dead(Run(d, JournalEffects(d)).journal.value)
    ensures Run(d, JournalEffects(d)).slots == d.slots
    ensures JournalEffects(d) == [] || exists n :: JournalEffects(d) == [TruncateJournal(n)]
  {
    hide FileHeader, Scan, Snapshot, Replay, Creation, JournalEffects, Run;
    var f := d.journal.value;
    HeaderLength();
    NoHeaderNoEffects(d);
    if FileHeader() <= f {
      JournalEffectsOf(d);
      OnlyTornTailsDiscard(f[FILE_HEADER..], MAX, None);
      var s := Scan(f[FILE_HEADER..], MAX, None);
      if s.outcome == TruncatedTail {
        OneEffect(d, TruncateJournal(|f| - s.discarded));
        HeaderAloneIsDead();
        assert f[..FILE_HEADER] == FileHeader();
      }
    }
  }

  lemma NoHeaderNoEffects(d: Disk)
    requires d.journal.Some?
    ensures !(FileHeader() <= d.journal.value) ==> JournalEffects(d) == []
    ensures Run(d, []) == d
  {
    hide FileHeader, Scan, Creation;
  }

  lemma HeaderAloneIsDead()
    ensures Dead(FileHeader())
  {
    hide FileHeader;
    HeaderLength();
    assert FileHeader()[FILE_HEADER..] == [];
    EmptyReads([], MAX);
  }

  // ---- The history, event by event ----

  /** `k` effects of the operation were completed. */
  function CommitLog<S>(c: Codec<S>, p: Proc<S>, kind: u32, payload: Bytes, log: Log, k: nat): Log {
    if k >= 1 && CommitOf(c, p, kind, payload).effects != [] && p.last < U64_LIMIT - 1 then
      Extended(log, JournalRecord(kind, p.last + 1, payload))
    else log
  }

  function CompactLog<S>(c: Codec<S>, d: Disk, p: Proc<S>, log: Log, k: nat): Log {
    if |CompactOf(c, d, p).effects| < 3 || k < 2 || p.last == U64_LIMIT - 1 then log
    else if k == 2 then Log(log.records, None)
    else Log(log.records + [SegmentStart(p.last + 1)], Some(|log.records|))
  }

  function OpenLog(d: Disk, log: Log, k: nat): Log {
    if d.journal.None? && k >= 4 then Log([SegmentStart(1)], Some(0)) else log
  }

  ghost function NextLog<S>(c: Codec<S>, sys: System<S>, e: Event, log: Log): Log
    requires Enabled(c, sys, e)
  {
    match e
    case Commit(k, b) => CommitLog(c, sys.proc.value, k, b, log, 1)
    case CommitCut(k, b, cut) => CommitLog(c, sys.proc.value, k, b, log, cut.k)
    case Compact => CompactLog(c, sys.disk, sys.proc.value, log, 3)
    case CompactCut(cut) => CompactLog(c, sys.disk, sys.proc.value, log, cut.k)
    case Open => OpenLog(sys.disk, log, 4)
    case OpenCut(cut) => OpenLog(sys.disk, log, cut.k)
    case _ => log
  }

  predicate SystemOk<S(==)>(c: Codec<S>, sys: System<S>, log: Log) {
    Inv(c, sys.disk, log) && (sys.proc.Some? ==> ProcOk(c, sys.disk, log, sys.proc.value))
  }

  lemma CommitKeeps<S(!new)>(c: Codec<S>, d: Disk, p: Proc<S>, log: Log, kind: u32, payload: Bytes, cut: Cut)
    requires Lawful(c) && Inv(c, d, log) && ProcOk(c, d, log, p)
    ensures var o := CommitOf(c, p, kind, payload);
            && SystemOk(c, System(Run(d, o.effects), Some(o.proc)), CommitLog(c, p, kind, payload, log, 1))
            && (ValidCut(o.effects, cut) ==>
                  SystemOk(c, System(Crashed(d, o.effects, cut), None), CommitLog(c, p, kind, payload, log, cut.k)))
  {
    hide Encode, FileOf, LiveFile, SlotOk, Fold, FileHeader;
    var o := CommitOf(c, p, kind, payload);
    if o.effects == [] {
      CommitRefused(c, d, p, log, kind, payload);
    } else {
      var r := JournalRecord(kind, p.last + 1, payload);
      var whole := AppendJournal(Encode(r));
      OneEffect(d, whole);
      AppendStep(c, d, log, p, r, o.proc.state);
      assert o.effects[..1] == o.effects;
      if ValidCut(o.effects, cut) && cut.k == 0 {
        TornAppend(c, d, log, p, r, cut.n);
        assert o.effects[..0] == [];
        assert cut.n == 0 ==> Crashed(d, o.effects, cut) == d;
      }
    }
  }

  lemma CommitRefused<S(!new)>(c: Codec<S>, d: Disk, p: Proc<S>, log: Log, kind: u32, payload: Bytes)
    requires Lawful(c) && ProcOk(c, d, log, p) && CommitOf(c, p, kind, payload).effects == []
    ensures Run(d, []) == d && ProcOk(c, d, log, CommitOf(c, p, kind, payload).proc)
  {
    hide Encode, FileOf, Fold, Inv, Numbered;
    GoodApplies(c, p.state, kind, payload);
  }

  lemma GoodApplies<S(!new)>(c: Codec<S>, s: S, kind: u32, payload: Bytes)
    requires Lawful(c) && c.good(s)
    ensures c.apply(s, kind, payload).Some? ==> c.good(c.apply(s, kind, payload).value) && kind in KNOWN_KINDS && kind != SEGMENT_START
  {
  }

  lemma CompactKeeps<S(!new)>(c: Codec<S>, d: Disk, p: Proc<S>, log: Log, cut: Cut)
    requires Lawful(c) && Inv(c, d, log) && ProcOk(c, d, log, p)
    ensures var o := CompactOf(c, d, p);
            && SystemOk(c, System(Run(d, o.effects), Some(o.proc)), CompactLog(c, d, p, log, 3))
            && (ValidCut(o.effects, cut) ==>
                  SystemOk(c, System(Crashed(d, o.effects, cut), None), CompactLog(c, d, p, log, cut.k)))
  {
    hide Encode, FileOf, Inv, Fold, SnapshotFile.Encode, SnapshotFile.Target, FileHeader;
    var o := CompactOf(c, d, p);
    if o.effects == [] {
      assert Run(d, []) == d;
    } else {
      var b := c.encode(p.state).value;
      SlotWritten(c, d, log, p, b);
      var e := o.effects[0];
      var d1 := Do(d, e);
      OneEffect(d, e);
      assert ProcOk(c, d1, log, p);
      if |o.effects| == 1 {
        assert o.effects[..0] == [] && o.effects[..1] == [e];
      } else {
        CompactRestarts(c, d, d1, p, log, e, cut);
      }
    }
  }

  lemma CompactRestarts<S(!new)>(c: Codec<S>, d: Disk, d1: Disk, p: Proc<S>, log: Log, e: Effect, cut: Cut)
    requires Inv(c, d, log) && Inv(c, d1, log) && ProcOk(c, d1, log, p) && p.last < U64_LIMIT - 1
    requires d1 == Do(d, e) && !e.AppendJournal?
    ensures var seg := SegmentStart(p.last + 1);
            var es := [e, TruncateJournal(FILE_HEADER), AppendJournal(Encode(seg))];
            var restarted := Log(log.records + [seg], Some(|log.records|));
            && SystemOk(c, System(Run(d, es), Some(Proc(p.state, p.last + 1))), restarted)
            && (ValidCut(es, cut) ==>
                  Inv(c, Crashed(d, es, cut),
                      if cut.k < 2 then log else if cut.k == 2 then Log(log.records, None) else restarted))
  {
    hide Encode, FileOf, Inv, Fold, FileHeader;
    var seg := SegmentStart(p.last + 1);
    var f, g := TruncateJournal(FILE_HEADER), AppendJournal(Encode(seg));
    ThreeEffects(d, e, f, g);
    SomeBytes(seg);
    if ValidCut([e, f, g], cut) && cut.n > 0 {
      Restarted(c, d1, log, p, cut.n);
    } else {
      Restarted(c, d1, log, p, 0);
    }
  }

  lemma SomeBytes(r: JournalRecord)
    ensures |Encode(r)| > 0
  {
    hide RecordHeader;
  }

  lemma OpenKeeps<S(!new)>(c: Codec<S>, d: Disk, log: Log, cut: Cut)
    requires Lawful(c) && Inv(c, d, log) && d.journal.Some?
    ensures var o := OpenOf(c, d);
            && Inv(c, Run(d, o.effects), log)
            && (o.result.Ok? ==> ProcOk(c, Run(d, o.effects), log, o.result.value))
            && (o.result.Ok? ==> log.start.Some? && Fold(c, log.records) == Some(o.result.value.state))
            && (ValidCut(o.effects, cut) ==> Inv(c, Crashed(d, o.effects, cut), log))
  {
    hide Encode, FileOf, Fold, FileHeader, OpenOf, JournalEffects, LiveFile, Dead, SlotOk;
    var o := OpenOf(c, d);
    assert Run(d, []) == d;
    if log.start.Some? {
      var rs := log.records[log.start.value..];
      OpenLive(c, d, log);
      OpenTrims(c, d);
      JournalTrimmed(d, rs);
      NumberedTail(log.records, log.start.value);
      WholeLive(rs);
      FoldIsGood(c, log.records);
    } else {
      OpenDead(c, d);
    }
    if ValidCut(o.effects, cut) { CutTrim(d, o.effects, cut); }
  }

  lemma FoldIsGood<S(!new)>(c: Codec<S>, h: seq<JournalRecord>)
    requires Lawful(c) && Fold(c, h).Some?
    ensures c.good(Fold(c, h).value)
  {
    FoldGood(c, c.initial, h);
  }

  lemma CutTrim(d: Disk, es: seq<Effect>, cut: Cut)
    requires es == [] || exists n :: es == [TruncateJournal(n)]
    requires ValidCut(es, cut)
    ensures Crashed(d, es, cut) == d || Crashed(d, es, cut) == Run(d, es)
  {
    if cut.k == 0 { assert es[..0] == []; } else { assert es[..1] == es; }
  }

  /** When a live store opens, the torn tail is cut off. */
  lemma OpenTrims<S>(c: Codec<S>, d: Disk)
    ensures OpenOf(c, d).result.Ok? ==> OpenOf(c, d).effects == JournalEffects(d)
  {
    hide FileHeader, Scan, Encode, Replay;
  }

  // ---- Creation ----

  lemma ShortIsDead(f: Bytes)
    requires |f| < FILE_HEADER
    ensures Dead(f)
  {
    hide FileHeader, Scan;
    HeaderLength();
  }

  lemma CreationSteps(d: Disk)
    requires d.journal.None?
    ensures var es := Creation();
            && |es| == 4
            && Run(d, es) == Run(d, es[..4]) == d.(journal := Some(FileOf([SegmentStart(1)])))
            && Run(d, es[..0]) == d && Run(d, es[..1]) == d.(journal := Some([]))
            && Run(d, es[..2]) == Run(d, es[..3]) == d.(journal := Some(FileHeader()))
  {
    hide FileHeader, Encode, EncodeAll;
    HeaderLength();
    Started(1, MAX);
    var es := Creation();
    ThreeEffects(d, es[0], es[1], es[2]);
    assert es[..1] == [es[0], es[1], es[2]][..1] && es[..2] == [es[0], es[1], es[2]][..2] && es[..3] == [es[0], es[1], es[2]][..3];
    assert es == es[..3] + [es[3]] && es[..4] == es && es[..0] == [];
    RunConcat(d, es[..3], [es[3]]);
    OneEffect(Run(d, es[..3]), es[3]);
    assert FileHeader()[..FILE_HEADER] == FileHeader() && [] + FileHeader() == FileHeader();
  }

  lemma {:induction false} RunConcat(d: Disk, a: seq<Effect>, b: seq<Effect>)
    ensures Run(d, a + b) == Run(Run(d, a), b)
    decreases |a|
  {
    if a == [] {
      assert a + b == b;
    } else {
      assert (a + b)[0] == a[0] && (a + b)[1..] == a[1..] + b;
      RunConcat(Do(d, a[0]), a[1..], b);
    }
  }

  lemma FirstHistory<S(!new)>(c: Codec<S>)
    ensures HistoryOk(c, [SegmentStart(1)]) && Fold(c, [SegmentStart(1)]) == Some(c.initial)
    ensures HistoryOk(c, [])
    ensures Fold(c, [SegmentStart(1)][..0]) == Some(c.initial)
  {
    hide Store64;
    assert [SegmentStart(1)][1..] == [];
  }

  /** The first open creates the journal; a crash during that leaves a file that is never opened again. */
  lemma CreationKeeps<S(!new)>(c: Codec<S>, d: Disk, log: Log, cut: Cut)
    requires Lawful(c) && Inv(c, d, log) && d.journal.None?
    ensures var o := OpenOf(c, d);
            && o.effects == Creation() && o.result == Ok(Proc(c.initial, 1))
            && SystemOk(c, System(Run(d, o.effects), Some(o.result.value)), OpenLog(d, log, 4))
            && (ValidCut(o.effects, cut) ==> Inv(c, Crashed(d, o.effects, cut), OpenLog(d, log, cut.k)))
  {
    hide FileOf, FileHeader, Encode, Scan, Replay, Fold, SegmentStart, Creation, Run, LiveFile, Dead;
    CreationSteps(d);
    FirstHistory(c);
    var seg := SegmentStart(1);
    assert [seg][0..] == [seg];
    StartFields(1);
    AssembleLive(c, [seg], 0, c.initial, 0);
    Started(1, MAX);
    WholeLive([seg]);
    SomeBytes(seg);
    if ValidCut(Creation(), cut) { CreationCut(c, d, log, cut); }
  }

  lemma StartFields(base: u64)
    ensures SegmentStart(base).kind == SEGMENT_START && SegmentStart(base).sequence == base
  {
  }

  lemma CreationCut<S(!new)>(c: Codec<S>, d: Disk, log: Log, cut: Cut)
    requires Lawful(c) && Inv(c, d, log) && d.journal.None? && ValidCut(Creation(), cut) && (cut.k < 4 || cut.n == 0)
    ensures cut.k < 4 ==> Inv(c, Crashed(d, Creation(), cut), log)
    ensures cut.k == 4 ==> Crashed(d, Creation(), cut) == Run(d, Creation())
  {
    hide FileOf, FileHeader, Encode, Scan, Fold, SegmentStart, Run;
    HeaderLength();
    CreationSteps(d);
    var seg := SegmentStart(1);
    StartFields(1);
    StartWritable();
    SomeBytes(seg);
    ShortIsDead([]);
    BareHeaderIsDead(seg, 0);
    assert FileHeader() + Encode(seg)[..0] == FileHeader();
    if cut.n > 0 {
      if cut.k == 1 {
        ShortIsDead(FileHeader()[..cut.n]);
        assert [] + FileHeader()[..cut.n] == FileHeader()[..cut.n];
      } else {
        BareHeaderIsDead(seg, cut.n);
      }
    }
  }

  lemma StartWritable()
    ensures Writable(SegmentStart(1), MAX)
  {
    hide Store64;
  }

  // ---- Whole runs ----

  lemma StepKeeps<S(!new)>(c: Codec<S>, sys: System<S>, e: Event, log: Log)
    requires Lawful(c) && Enabled(c, sys, e) && SystemOk(c, sys, log)
    ensures SystemOk(c, Next(c, sys, e), NextLog(c, sys, e, log))
  {
    hide Inv, ProcOk, CommitOf, CompactOf, OpenOf, CommitLog, CompactLog, Creation, ValidCut, Run, Crashed;
    match e
    case Commit(k, b) => CommitKeeps(c, sys.disk, sys.proc.value, log, k, b, Cut(0, 0));
    case CommitCut(k, b, cut) => CommitKeeps(c, sys.disk, sys.proc.value, log, k, b, cut);
    case Compact => CompactKeeps(c, sys.disk, sys.proc.value, log, Cut(0, 0));
    case CompactCut(cut) => CompactKeeps(c, sys.disk, sys.proc.value, log, cut);
    case Kill =>
    case Open =>
      if sys.disk.journal.Some? { OpenKeeps(c, sys.disk, log, Cut(0, 0)); } else { CreationKeeps(c, sys.disk, log, Cut(0, 0)); }
    case OpenCut(cut) =>
      if sys.disk.journal.Some? { OpenKeeps(c, sys.disk, log, cut); } else { CreationKeeps(c, sys.disk, log, cut); }
    case Rot(w, content) => RotKeeps(c, sys, log, w, content);
  }

  lemma RotKeeps<S(!new)>(c: Codec<S>, sys: System<S>, log: Log, w: SnapshotFile.Which, content: Bytes)
    requires SystemOk(c, sys, log) && SnapshotFile.Read(content, MAX_SNAPSHOT).None?
    ensures SystemOk(c, System(Do(sys.disk, WriteSlot(w, content)), sys.proc), log)
  {
    hide Inv, FileOf, Fold;
    RotStep(c, sys.disk, log, w, content);
  }

  /** A run from an empty directory. */
  ghost predicate Trace<S>(c: Codec<S>, ss: seq<System<S>>, es: seq<Event>) {
    && |ss| == |es| + 1
    && ss[0] == System(EMPTY_DISK, None)
    && forall i :: 0 <= i < |es| ==> Enabled(c, ss[i], es[i]) && ss[i + 1] == Next(c, ss[i], es[i])
  }

  ghost function LogAt<S>(c: Codec<S>, ss: seq<System<S>>, es: seq<Event>, i: nat): Log
    requires Trace(c, ss, es) && i < |ss|
  {
    if i == 0 then Log([], None) else NextLog(c, ss[i - 1], es[i - 1], LogAt(c, ss, es, i - 1))
  }

  lemma EmptyDiskOk<S(!new)>(c: Codec<S>)
    ensures SystemOk(c, System(EMPTY_DISK, None), Log([], None))
  {
    hide FileHeader;
    FirstHistory(c);
  }

  lemma {:induction false} TraceKeeps<S(!new)>(c: Codec<S>, ss: seq<System<S>>, es: seq<Event>, i: nat)
    requires Lawful(c) && Trace(c, ss, es) && i < |ss|
    ensures SystemOk(c, ss[i], LogAt(c, ss, es, i))
    decreases i
  {
    hide SystemOk, Next, NextLog, Enabled;
    if i == 0 {
      EmptyDiskOk(c);
    } else {
      TraceKeeps(c, ss, es, i - 1);
      StepKeeps(c, ss[i - 1], es[i - 1], LogAt(c, ss, es, i - 1));
    }
  }

  // ---- The simple form: a list of changes ----

  datatype Change = Change(kind: u32, payload: Bytes)

  function FoldChanges<S>(c: Codec<S>, s: S, changes: seq<Change>): Option<S>
    decreases |changes|
  {
    if changes == [] then Some(s)
    else
      match c.apply(s, changes[0].kind, changes[0].payload)
      case None => None
      case Some(t) => FoldChanges(c, t, changes[1..])
  }

  /** What an event commits: an acknowledged commit, or an interrupted one whose record was completely on disk
      before the crash. Nothing else adds a change, and nothing removes one. */
  ghost function Adds<S>(c: Codec<S>, sys: System<S>, e: Event): seq<Change>
    requires Enabled(c, sys, e)
  {
    match e
    case Commit(k, b) => if CommitOf(c, sys.proc.value, k, b).ok then [Change(k, b)] else []
    case CommitCut(k, b, cut) => if cut.k == 1 then [Change(k, b)] else []
    case _ => []
  }

  ghost function Committed<S>(c: Codec<S>, ss: seq<System<S>>, es: seq<Event>, i: nat): seq<Change>
    requires Trace(c, ss, es) && i < |ss|
  {
    if i == 0 then [] else Committed(c, ss, es, i - 1) + Adds(c, ss[i - 1], es[i - 1])
  }

  function Changes(h: seq<JournalRecord>): seq<Change> {
    if h == [] then []
    else (if h[0].kind == SEGMENT_START then [] else [Change(h[0].kind, h[0].payload)]) + Changes(h[1..])
  }

  lemma {:induction false} ChangesSnoc(h: seq<JournalRecord>, r: JournalRecord)
    ensures Changes(h + [r]) == Changes(h) + if r.kind == SEGMENT_START then [] else [Change(r.kind, r.payload)]
    decreases |h|
  {
    if h == [] {
      assert h + [r] == [r] && [r][1..] == [];
    } else {
      assert (h + [r])[0] == h[0] && (h + [r])[1..] == h[1..] + [r];
      ChangesSnoc(h[1..], r);
    }
  }

  lemma {:induction false} FoldOfChanges<S>(c: Codec<S>, s: S, h: seq<JournalRecord>)
    requires forall r :: r in h ==> r.sequence > 0
    ensures Replay(c, s, h, 0) == FoldChanges(c, s, Changes(h))
    decreases |h|
  {
    if h != [] {
      assert h[0] in h;
      if h[0].kind == SEGMENT_START {
        FoldOfChanges(c, s, h[1..]);
        assert Changes(h) == Changes(h[1..]);
      } else {
        var change := Change(h[0].kind, h[0].payload);
        assert Changes(h)[0] == change && Changes(h)[1..] == Changes(h[1..]);
        if c.apply(s, h[0].kind, h[0].payload).Some? {
          FoldOfChanges(c, c.apply(s, h[0].kind, h[0].payload).value, h[1..]);
        }
      }
    }
  }

  lemma CommitChanges<S(!new)>(c: Codec<S>, p: Proc<S>, kind: u32, payload: Bytes, log: Log, k: nat)
    requires Lawful(c) && c.good(p.state) && k <= |CommitOf(c, p, kind, payload).effects|
    ensures CommitOf(c, p, kind, payload).ok <==> |CommitOf(c, p, kind, payload).effects| == 1
    ensures !CommitOf(c, p, kind, payload).ok <==> |CommitOf(c, p, kind, payload).effects| == 0
    ensures Changes(CommitLog(c, p, kind, payload, log, k).records)
         == if k == 1 then Changes(log.records) + [Change(kind, payload)] else Changes(log.records)
  {
    hide Encode, Changes;
    GoodApplies(c, p.state, kind, payload);
    if p.last < U64_LIMIT - 1 {
      ChangesSnoc(log.records, JournalRecord(kind, p.last + 1, payload));
    }
  }

  lemma CompactChanges<S>(c: Codec<S>, d: Disk, p: Proc<S>, log: Log, k: nat)
    ensures Changes(CompactLog(c, d, p, log, k).records) == Changes(log.records)
  {
    hide Encode, CompactOf;
    if p.last < U64_LIMIT - 1 {
      ChangesSnoc(log.records, SegmentStart(p.last + 1));
    }
  }

  lemma StepChanges<S(!new)>(c: Codec<S>, sys: System<S>, e: Event, log: Log)
    requires Lawful(c) && Enabled(c, sys, e) && SystemOk(c, sys, log)
    ensures Changes(NextLog(c, sys, e, log).records) == Changes(log.records) + Adds(c, sys, e)
  {
    hide CommitOf, CompactOf, OpenOf, CommitLog, CompactLog, OpenLog, Inv, Changes, Fold;
    match e
    case Commit(k, b) =>
      CommitChanges(c, sys.proc.value, k, b, log, 0);
      if CommitOf(c, sys.proc.value, k, b).ok { CommitChanges(c, sys.proc.value, k, b, log, 1); }
      else { NoCommit(c, sys.proc.value, k, b, log); }
    case CommitCut(k, b, cut) => CommitChanges(c, sys.proc.value, k, b, log, cut.k);
    case Compact => CompactChanges(c, sys.disk, sys.proc.value, log, 3);
    case CompactCut(cut) => CompactChanges(c, sys.disk, sys.proc.value, log, cut.k);
    case Open => OpenChanges(c, sys.disk, log);
    case OpenCut(cut) => OpenChanges(c, sys.disk, log);
    case _ =>
  }

  lemma NoCommit<S>(c: Codec<S>, p: Proc<S>, kind: u32, payload: Bytes, log: Log)
    requires |CommitOf(c, p, kind, payload).effects| == 0
    ensures CommitLog(c, p, kind, payload, log, 1) == log
  {
    hide CommitOf;
  }

  lemma {:induction false} LogIsCommitted<S(!new)>(c: Codec<S>, ss: seq<System<S>>, es: seq<Event>, i: nat)
    requires Lawful(c) && Trace(c, ss, es) && i < |ss|
    ensures Changes(LogAt(c, ss, es, i).records) == Committed(c, ss, es, i)
    decreases i
  {
    hide Next, NextLog, SystemOk, Adds, Changes, Enabled;
    if i == 0 {
      NoChanges();
    } else {
      LogIsCommitted(c, ss, es, i - 1);
      TraceKeeps(c, ss, es, i - 1);
      StepChanges(c, ss[i - 1], es[i - 1], LogAt(c, ss, es, i - 1));
    }
  }

  lemma NoChanges()
    ensures Changes([]) == [] && Changes([SegmentStart(1)]) == []
  {
    hide Store64;
    assert [SegmentStart(1)][1..] == [];
  }

  lemma OpenChanges<S(!new)>(c: Codec<S>, d: Disk, log: Log)
    requires Inv(c, d, log)
    ensures forall k: nat :: Changes(OpenLog(d, log, k).records) == Changes(log.records)
  {
    hide LiveFile, Dead, Fold, SlotOk;
    NoChanges();
  }

  /** Crash refinement. In every run, a running store's state is the fold of what was committed, and whenever the
      store opens, it opens with that fold: it never opens with a commit missing. */
  lemma StoreRefinesFold<S(!new)>(c: Codec<S>, ss: seq<System<S>>, es: seq<Event>, i: nat)
    requires Lawful(c) && Trace(c, ss, es) && i < |ss|
    ensures ss[i].proc.Some? && ss[i].proc.value.last < U64_LIMIT - 1 ==>
              FoldChanges(c, c.initial, Committed(c, ss, es, i)) == Some(ss[i].proc.value.state)
    ensures OpenOf(c, ss[i].disk).result.Ok? ==>
              FoldChanges(c, c.initial, Committed(c, ss, es, i)) == Some(OpenOf(c, ss[i].disk).result.value.state)
  {
    hide OpenOf, Committed, FoldChanges, Changes, LiveFile, Dead, SlotOk;
    var log := LogAt(c, ss, es, i);
    TraceKeeps(c, ss, es, i);
    LogIsCommitted(c, ss, es, i);
    FoldOfChanges(c, c.initial, log.records);
    if ss[i].disk.journal.Some? {
      OpenKeeps(c, ss[i].disk, log, Cut(0, 0));
    } else {
      CreationKeeps(c, ss[i].disk, log, Cut(0, 0));
      assert log.records == [];
      NoFold(c);
    }
  }

  lemma NoFold<S>(c: Codec<S>)
    ensures Fold(c, []) == Some(c.initial)
  {
  }

  lemma {:induction false} CommittedGrows<S>(c: Codec<S>, ss: seq<System<S>>, es: seq<Event>, i: nat, j: nat)
    requires Trace(c, ss, es) && i <= j < |ss|
    ensures Committed(c, ss, es, i) <= Committed(c, ss, es, j)
    decreases j
  {
    hide Enabled, Next, Adds;
    if i < j { CommittedGrows(c, ss, es, i, j - 1); }
  }

  /** What a commit adds: exactly its change if its payload is at most one mebibyte, the state takes it and a sequence
      number is left, and nothing otherwise. What it added is never lost: it stays in the list every later opening folds. */
  lemma CommitIsKept<S(!new)>(c: Codec<S>, ss: seq<System<S>>, es: seq<Event>, i: nat, j: nat)
    requires Lawful(c) && Trace(c, ss, es) && i < |es| && i < j < |ss| && es[i].Commit?
    ensures ss[i].proc.Some?
    ensures var p, e := ss[i].proc.value, es[i];
            var accepted := |e.payload| <= 0x10_0000 && c.apply(p.state, e.kind, e.payload).Some? && p.last + 1 < U64_LIMIT;
            Committed(c, ss, es, i + 1) == Committed(c, ss, es, i) + if accepted then [Change(e.kind, e.payload)] else []
    ensures Committed(c, ss, es, i + 1) <= Committed(c, ss, es, j)
    ensures OpenOf(c, ss[j].disk).result.Ok? ==>
              FoldChanges(c, c.initial, Committed(c, ss, es, j)) == Some(OpenOf(c, ss[j].disk).result.value.state)
  {
    hide OpenOf, FoldChanges, Inv, LogAt, CommitOf, Next, FileOf, Fold;
    TraceKeeps(c, ss, es, i);
    CommitIff(c, ss[i].proc.value, es[i].kind, es[i].payload);
    CommittedGrows(c, ss, es, i + 1, j);
    StoreRefinesFold(c, ss, es, j);
  }

  /** Exactly when a store opens: on an empty directory, or with a usable segment that the newest readable
      snapshot reaches. */
  lemma OpensExactlyWhen<S(!new)>(c: Codec<S>, ss: seq<System<S>>, es: seq<Event>, i: nat)
    requires Lawful(c) && Trace(c, ss, es) && i < |ss|
    ensures var log := LogAt(c, ss, es, i);
            OpenOf(c, ss[i].disk).result.Ok? <==>
              ss[i].disk.journal.None? || (log.start.Some? && Covers(ss[i].disk, log.start.value))
  {
    hide OpenOf, LiveFile, Dead, SlotOk, Covers;
    var log := LogAt(c, ss, es, i);
    TraceKeeps(c, ss, es, i);
    if ss[i].disk.journal.None? {
      CreationKeeps(c, ss[i].disk, log, Cut(0, 0));
    } else if log.start.Some? {
      OpenLive(c, ss[i].disk, log);
    } else {
      OpenDead(c, ss[i].disk);
    }
  }

  // ---- Availability ----

  /** The snapshots reach the current segment, and the only unusable journal is one not created yet. */
  predicate Reaches(d: Disk, log: Log) {
    match log.start
    case None => d.journal.None?
    case Some(start) => Covers(d, start)
  }

  /** No snapshot is lost and sequence numbers are left. */
  ghost predicate Sound<S>(sys: System<S>, e: Event) {
    !e.Rot? && (sys.proc.Some? ==> sys.proc.value.last < U64_LIMIT - 1)
  }

  /** The crashes that leave a journal without its first record: between truncating it for compaction and completing the
      new segment start, and between creating it and completing the first one. */
  ghost predicate Fatal<S>(c: Codec<S>, sys: System<S>, e: Event) {
    match e
    case CompactCut(cut) => sys.proc.Some? && |CompactOf(c, sys.disk, sys.proc.value).effects| == 3 && cut.k == 2
    case OpenCut(cut) => sys.disk.journal.None? && 0 < cut.k < 4
    case _ => false
  }

  lemma CompactWrites<S>(c: Codec<S>, d: Disk, p: Proc<S>)
    requires p.last < U64_LIMIT - 1 && CompactOf(c, d, p).effects != []
    ensures c.encode(p.state).Some? && |c.encode(p.state).value| <= MAX_SNAPSHOT
    ensures CompactOf(c, d, p).effects ==
            [WriteSlot(SnapshotFile.Target(d.slots, MAX_SNAPSHOT), SnapshotFile.Encode(p.last, c.encode(p.state).value)),
             TruncateJournal(FILE_HEADER), AppendJournal(Encode(SegmentStart(p.last + 1)))]
  {
    hide Encode, SnapshotFile.Encode, SnapshotFile.Target, SegmentStart;
  }

  lemma NewestWithin<S>(c: Codec<S>, d: Disk, log: Log)
    requires SlotOk(c, d.slots.a, log.records) && SlotOk(c, d.slots.b, log.records)
    ensures var best := SnapshotFile.Load(d.slots, MAX_SNAPSHOT);
            best.Some? ==> best.value.1.covered <= |log.records| || best.value.1.covered == U64_LIMIT - 1
  {
    hide Fold, SnapshotFile.Read;
  }

  /** After the snapshot is written the slots reach everything written so far, the old segment and the new one. */
  lemma SnapshotReaches<S(!new)>(c: Codec<S>, d: Disk, p: Proc<S>, log: Log)
    requires Inv(c, d, log) && ProcOk(c, d, log, p) && Reaches(d, log) && p.last < U64_LIMIT - 1
    requires CompactOf(c, d, p).effects != []
    ensures var d1 := Do(d, CompactOf(c, d, p).effects[0]);
            Covers(d1, log.start.value) && Covers(d1, |log.records|)
  {
    hide Fold, FileOf, LiveFile, Encode, SlotOk, CompactOf, SnapshotFile.Encode, SnapshotFile.Target, SnapshotFile.Load;
    CompactWrites(c, d, p);
    NewestWithin(c, d, log);
    SnapshotFile.WriteKeepsTheNewest(d.slots, p.last, c.encode(p.state).value, MAX_SNAPSHOT);
  }

  lemma CompactReaches<S(!new)>(c: Codec<S>, d: Disk, p: Proc<S>, log: Log, cut: Cut)
    requires Inv(c, d, log) && ProcOk(c, d, log, p) && Reaches(d, log) && p.last < U64_LIMIT - 1
    ensures var o := CompactOf(c, d, p);
            && Reaches(Run(d, o.effects), CompactLog(c, d, p, log, 3))
            && (ValidCut(o.effects, cut) && cut.k != 2 ==> Reaches(Crashed(d, o.effects, cut), CompactLog(c, d, p, log, cut.k)))
  {
    hide Inv, ProcOk, CompactOf, SnapshotFile.Encode, SnapshotFile.Target, Encode, Covers, SegmentStart;
    var es := CompactOf(c, d, p).effects;
    if es == [] {
      assert es[..0] == [] && Run(d, []) == d;
    } else {
      CompactWrites(c, d, p);
      SnapshotReaches(c, d, p, log);
      ThreeEffects(d, es[0], es[1], es[2]);
      CoversSlots(Do(d, es[0]), Do(Do(d, es[0]), es[1]), |log.records|);
      CoversSlots(Do(d, es[0]), Run(d, es), |log.records|);
    }
  }

  lemma CoversSlots(d: Disk, d': Disk, start: nat)
    requires Covers(d, start) && d'.slots == d.slots
    ensures Covers(d', start)
  {
  }

  lemma CommitShape<S>(c: Codec<S>, p: Proc<S>, kind: u32, payload: Bytes)
    ensures var es := CommitOf(c, p, kind, payload).effects; es == [] || (|es| == 1 && es[0].AppendJournal?)
  {
    hide Encode;
  }

  lemma CommitReaches<S(!new)>(c: Codec<S>, d: Disk, p: Proc<S>, log: Log, kind: u32, payload: Bytes, cut: Cut)
    requires d.journal.Some? && Reaches(d, log)
    ensures var o := CommitOf(c, p, kind, payload);
            && Reaches(Run(d, o.effects), CommitLog(c, p, kind, payload, log, 1))
            && (ValidCut(o.effects, cut) ==> Reaches(Crashed(d, o.effects, cut), CommitLog(c, p, kind, payload, log, cut.k)))
  {
    hide CommitOf, Covers;
    CommitShape(c, p, kind, payload);
    var es := CommitOf(c, p, kind, payload).effects;
    assert Run(d, []) == d && es[..0] == [];
    if es != [] {
      OneEffect(d, es[0]);
      assert es == [es[0]] && es[..1] == es;
    }
    if log.start.Some? {
      forall d': Disk | d'.slots == d.slots ensures Covers(d', log.start.value) { CoversSlots(d, d', log.start.value); }
    }
  }

  lemma OpenReaches<S(!new)>(c: Codec<S>, d: Disk, log: Log, cut: Cut)
    requires Lawful(c) && Inv(c, d, log) && Reaches(d, log)
    ensures var es := OpenOf(c, d).effects;
            && Reaches(Run(d, es), OpenLog(d, log, 4))
            && (ValidCut(es, cut) && (d.journal.None? ==> cut.k == 0 || cut.k == 4) ==>
                  Reaches(Crashed(d, es, cut), OpenLog(d, log, cut.k)))
  {
    hide OpenOf, LiveFile, Dead, SlotOk, JournalEffects, Creation, FileOf, Fold, Encode, FileHeader;
    var es := OpenOf(c, d).effects;
    assert Run(d, []) == d;
    if d.journal.None? {
      CreationKeeps(c, d, log, Cut(0, 0));
      CreationSteps(d);
      if cut.k == 0 && ValidCut(es, cut) { FirstIsCreate(); }
    } else {
      OpenLive(c, d, log);
      JournalTrimmed(d, log.records[log.start.value..]);
      if ValidCut(es, cut) { CutTrim(d, es, cut); }
    }
  }

  lemma FirstIsCreate()
    ensures |Creation()| == 4 && Creation()[0] == CreateJournal
  {
    hide FileHeader, Encode;
  }

  lemma StepReaches<S(!new)>(c: Codec<S>, sys: System<S>, e: Event, log: Log)
    requires Lawful(c) && Enabled(c, sys, e) && SystemOk(c, sys, log) && Sound(sys, e) && !Fatal(c, sys, e) && Reaches(sys.disk, log)
    ensures Reaches(Next(c, sys, e).disk, NextLog(c, sys, e, log))
  {
    hide Inv, CommitOf, CompactOf, OpenOf, CommitLog, CompactLog, OpenLog, Creation, ValidCut, Run, Crashed, Reaches, FileOf, Fold;
    match e
    case Commit(k, b) => CommitReaches(c, sys.disk, sys.proc.value, log, k, b, Cut(0, 0));
    case CommitCut(k, b, cut) => CommitReaches(c, sys.disk, sys.proc.value, log, k, b, cut);
    case Compact => CompactReaches(c, sys.disk, sys.proc.value, log, Cut(0, 0));
    case CompactCut(cut) =>
      CompactReaches(c, sys.disk, sys.proc.value, log, cut);
      TwoIsTheWindow(c, sys.disk, sys.proc.value, cut);
    case Open => OpenReaches(c, sys.disk, log, Cut(0, 0));
    case OpenCut(cut) =>
      OpenReaches(c, sys.disk, log, cut);
      if sys.disk.journal.None? { CreationCuts(c, sys.disk, log, cut); }
    case _ =>
  }

  lemma TwoIsTheWindow<S>(c: Codec<S>, d: Disk, p: Proc<S>, cut: Cut)
    requires ValidCut(CompactOf(c, d, p).effects, cut) && p.last < U64_LIMIT - 1
    ensures cut.k == 2 ==> |CompactOf(c, d, p).effects| == 3
  {
    hide CompactOf;
    if CompactOf(c, d, p).effects != [] { CompactWrites(c, d, p); }
  }

  lemma CreationCuts<S(!new)>(c: Codec<S>, d: Disk, log: Log, cut: Cut)
    requires Lawful(c) && Inv(c, d, log) && ValidCut(OpenOf(c, d).effects, cut) && d.journal.None?
    ensures cut.k <= 4
    ensures 0 < cut.k < 4 ==> Crashed(d, OpenOf(c, d).effects, cut).journal.Some?
    ensures log.start.None?
  {
    hide OpenOf, Creation, Crashed, Run, Fold, SlotOk;
    CreationKeeps(c, d, log, Cut(0, 0));
    FirstIsCreate();
    if 0 < cut.k < 4 { CreatedSomething(d, cut); }
  }

  lemma CreatedSomething(d: Disk, cut: Cut)
    requires d.journal.None? && ValidCut(Creation(), cut) && 0 < cut.k < 4
    ensures Crashed(d, Creation(), cut).journal.Some?
  {
    hide Creation, FileHeader, Encode, Run, FileOf;
    CreationSteps(d);
  }

  // ---- The windows ----

  /** No process, and a journal without a usable segment. */
  predicate Bricked<S>(sys: System<S>, log: Log) {
    sys.proc.None? && sys.disk.journal.Some? && log.start.None?
  }

  lemma FatalBricks<S(!new)>(c: Codec<S>, sys: System<S>, e: Event, log: Log)
    requires Lawful(c) && Enabled(c, sys, e) && SystemOk(c, sys, log) && Fatal(c, sys, e)
    ensures Bricked(Next(c, sys, e), NextLog(c, sys, e, log)) && NextLog(c, sys, e, log).records == log.records
  {
    hide Inv, CompactOf, OpenOf, ValidCut, Run, Crashed, Creation, FileOf, Fold;
    match e
    case CompactCut(cut) =>
      HasNumber(c, sys.disk, sys.proc.value);
      WindowShape(c, sys.disk, sys.proc.value, cut);
    case OpenCut(cut) => CreationCuts(c, sys.disk, log, cut);
  }

  lemma HasNumber<S>(c: Codec<S>, d: Disk, p: Proc<S>)
    requires |CompactOf(c, d, p).effects| == 3
    ensures p.last < U64_LIMIT - 1
  {
    hide SnapshotFile.Encode, SnapshotFile.Target;
  }

  lemma BrickedStays<S(!new)>(c: Codec<S>, sys: System<S>, e: Event, log: Log)
    requires Lawful(c) && Enabled(c, sys, e) && SystemOk(c, sys, log) && Bricked(sys, log)
    ensures Bricked(Next(c, sys, e), log) && NextLog(c, sys, e, log) == log
  {
    hide OpenOf, Dead, Run, Crashed, ValidCut, JournalEffects, Fold, SlotOk;
    assert Run(sys.disk, []) == sys.disk by { NoEffects(sys.disk); }
    OpenDead(c, sys.disk);
    match e
    case OpenCut(cut) => CutTrim(sys.disk, OpenOf(c, sys.disk).effects, cut);
    case _ =>
  }

  lemma {:induction false} BrickedForever<S(!new)>(c: Codec<S>, ss: seq<System<S>>, es: seq<Event>, i: nat, j: nat)
    requires Lawful(c) && Trace(c, ss, es) && i <= j < |ss| && Bricked(ss[i], LogAt(c, ss, es, i))
    ensures LogAt(c, ss, es, j) == LogAt(c, ss, es, i) && OpenOf(c, ss[j].disk).result.Err?
    ensures Bricked(ss[j], LogAt(c, ss, es, j))
    decreases j
  {
    hide OpenOf, Next, NextLog, SystemOk, Bricked, Enabled;
    if i < j {
      BrickedForever(c, ss, es, i, j - 1);
      TraceKeeps(c, ss, es, j - 1);
      BrickedStays(c, ss[j - 1], es[j - 1], LogAt(c, ss, es, j - 1));
    }
    NeverOpens(c, ss, es, j);
  }

  lemma NeverOpens<S(!new)>(c: Codec<S>, ss: seq<System<S>>, es: seq<Event>, j: nat)
    requires Lawful(c) && Trace(c, ss, es) && j < |ss| && Bricked(ss[j], LogAt(c, ss, es, j))
    ensures OpenOf(c, ss[j].disk).result.Err?
  {
    hide OpenOf, Covers;
    OpensExactlyWhen(c, ss, es, j);
  }

  /** A store killed in one of the windows never opens again, whatever happens later. */
  lemma FatalForever<S(!new)>(c: Codec<S>, ss: seq<System<S>>, es: seq<Event>, i: nat, j: nat)
    requires Lawful(c) && Trace(c, ss, es) && i < j < |ss| && Fatal(c, ss[i], es[i])
    ensures OpenOf(c, ss[j].disk).result.Err? && LogAt(c, ss, es, j).records == LogAt(c, ss, es, i).records
  {
    hide OpenOf, Next, NextLog, SystemOk, Bricked, Enabled, Fatal;
    TraceKeeps(c, ss, es, i);
    FatalBricks(c, ss[i], es[i], LogAt(c, ss, es, i));
    BrickedForever(c, ss, es, i + 1, j);
  }

  lemma {:induction false} StaysReachable<S(!new)>(c: Codec<S>, ss: seq<System<S>>, es: seq<Event>, i: nat)
    requires Lawful(c) && Trace(c, ss, es) && i < |ss|
    requires forall j :: 0 <= j < i ==> Sound(ss[j], es[j]) && !Fatal(c, ss[j], es[j])
    ensures Reaches(ss[i].disk, LogAt(c, ss, es, i)) && OpenOf(c, ss[i].disk).result.Ok?
    decreases i
  {
    hide OpenOf, Next, NextLog, SystemOk, Sound, Fatal, Enabled, Covers;
    OpensExactlyWhen(c, ss, es, i);
    if i > 0 {
      StaysReachable(c, ss, es, i - 1);
      TraceKeeps(c, ss, es, i - 1);
      StepReaches(c, ss[i - 1], es[i - 1], LogAt(c, ss, es, i - 1));
    }
  }

  /** Exactly when a store can be opened: while no snapshot is lost and sequence numbers are left, it opens if and only if
      it was never killed in one of the two windows. Commits, compaction and openings may be cut anywhere else. */
  lemma Availability<S(!new)>(c: Codec<S>, ss: seq<System<S>>, es: seq<Event>, i: nat)
    requires Lawful(c) && Trace(c, ss, es) && i < |ss|
    requires forall j :: 0 <= j < i ==> Sound(ss[j], es[j])
    ensures OpenOf(c, ss[i].disk).result.Ok? <==> forall j :: 0 <= j < i ==> !Fatal(c, ss[j], es[j])
  {
    hide OpenOf, Trace, Sound, Fatal, Reaches, LogAt;
    assert |ss| == |es| + 1 by { TraceLength(c, ss, es); }
    if forall j :: 0 <= j < i ==> !Fatal(c, ss[j], es[j]) {
      StaysReachable(c, ss, es, i);
    } else {
      var j :| 0 <= j < i && Fatal(c, ss[j], es[j]);
      FatalForever(c, ss, es, j, i);
    }
  }

  lemma TraceLength<S>(c: Codec<S>, ss: seq<System<S>>, es: seq<Event>)
    requires Trace(c, ss, es)
    ensures |ss| == |es| + 1
  {
  }

  /** The window of compaction: a store killed there holds a snapshot of everything and still never opens again. */
  lemma CompactionWindowIsFatal<S(!new)>(c: Codec<S>, ss: seq<System<S>>, es: seq<Event>, i: nat, j: nat)
    requires Lawful(c) && Trace(c, ss, es) && i < |es| && i < j < |ss| && es[i].CompactCut? && es[i].cut.k == 2
    requires ss[i].proc.value.last < U64_LIMIT - 1
    ensures OpenOf(c, ss[j].disk).result.Err?
    ensures var best := SnapshotFile.Load(ss[i + 1].disk.slots, MAX_SNAPSHOT);
            best.Some? && best.value.1.covered >= ss[i].proc.value.last
  {
    hide OpenOf, Inv, SnapshotFile.Encode, SnapshotFile.Load, CompactOf, ValidCut, Covers, FileOf, Fold;
    TraceKeeps(c, ss, es, i);
    var d, p := ss[i].disk, ss[i].proc.value;
    WindowShape(c, d, p, es[i].cut);
    NewestCovers(c, d, p, LogAt(c, ss, es, i));
    FatalForever(c, ss, es, i, j);
  }

  /** The window of creation: a store killed while its journal is created the first time never opens. */
  lemma CreationWindowIsFatal<S(!new)>(c: Codec<S>, ss: seq<System<S>>, es: seq<Event>, i: nat, j: nat)
    requires Lawful(c) && Trace(c, ss, es) && i < |es| && i < j < |ss| && es[i].OpenCut? && ss[i].disk.journal.None?
    requires 0 < es[i].cut.k < 4
    ensures OpenOf(c, ss[j].disk).result.Err? && Committed(c, ss, es, j) == []
  {
    hide OpenOf, Next, NextLog, Bricked, Enabled, Committed, Changes, Trace, LogAt, SystemOk;
    TraceLength(c, ss, es);
    TraceKeeps(c, ss, es, i);
    NothingYet(c, ss[i], LogAt(c, ss, es, i));
    FatalForever(c, ss, es, i, j);
    LogIsCommitted(c, ss, es, j);
    NoChanges();
  }

  lemma NothingYet<S>(c: Codec<S>, sys: System<S>, log: Log)
    requires SystemOk(c, sys, log) && sys.disk.journal.None?
    ensures log.records == []
  {
    hide HistoryOk, SlotOk, LiveFile, Dead, FileOf;
  }

  lemma WindowShape<S>(c: Codec<S>, d: Disk, p: Proc<S>, cut: Cut)
    requires ValidCut(CompactOf(c, d, p).effects, cut) && cut.k == 2 && p.last < U64_LIMIT - 1
    ensures CompactOf(c, d, p).effects != [] && |CompactOf(c, d, p).effects| == 3
    ensures d.journal.Some? ==> Crashed(d, CompactOf(c, d, p).effects, cut).journal.Some?
    ensures Crashed(d, CompactOf(c, d, p).effects, cut).slots == Do(d, CompactOf(c, d, p).effects[0]).slots
  {
    hide CompactOf, SnapshotFile.Encode, SnapshotFile.Target, Encode, SegmentStart;
    var es := CompactOf(c, d, p).effects;
    if es != [] {
      CompactWrites(c, d, p);
      ThreeEffects(d, es[0], es[1], es[2]);
    }
  }

  lemma NewestCovers<S(!new)>(c: Codec<S>, d: Disk, p: Proc<S>, log: Log)
    requires Inv(c, d, log) && ProcOk(c, d, log, p) && p.last < U64_LIMIT - 1 && CompactOf(c, d, p).effects != []
    ensures var best := SnapshotFile.Load(Do(d, CompactOf(c, d, p).effects[0]).slots, MAX_SNAPSHOT);
            best.Some? && (best.value.1.covered == p.last || best.value.1.covered == U64_LIMIT - 1)
  {
    hide Fold, FileOf, LiveFile, Encode, SlotOk, CompactOf, SnapshotFile.Encode, SnapshotFile.Target, SnapshotFile.Load;
    CompactWrites(c, d, p);
    NewestWithin(c, d, log);
    SnapshotFile.WriteKeepsTheNewest(d.slots, p.last, c.encode(p.state).value, MAX_SNAPSHOT);
  }
}
