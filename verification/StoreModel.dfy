/** The durable store as a state machine over its disk (include/cf/store.hpp): an append-only journal, two snapshot
    slots, commits, compaction and recovery, with a crash inside any append or between any two effects. */
module StoreModel {
  import opened Prelude
  import opened LittleEndian
  import opened JournalFormat
  import opened Journal
  import SnapshotFile

  /** What a state type brings: its initial value, `apply`, and the snapshot encoding. `good` holds of every state
      that records can build. */
  datatype Codec<!S> = Codec(
    initial: S, apply: (S, u32, Bytes) -> Option<S>, encode: S -> Option<Bytes>, decode: Bytes -> Option<S>, good: S -> bool)

  /** What the store relies on: `apply` keeps `good` and refuses segment starts and unknown types, and a snapshot
      of a good state decodes to it. */
  ghost predicate Lawful<S(!new)>(c: Codec<S>) {
    && c.good(c.initial)
    && (forall s, k, p :: c.good(s) && c.apply(s, k, p).Some? ==>
          c.good(c.apply(s, k, p).value) && k in KNOWN_KINDS && k != SEGMENT_START)
    && (forall s :: c.good(s) && c.encode(s).Some? ==> c.decode(c.encode(s).value) == Some(s))
  }

  // ---- Replay ----

  /** The replay loop: segment starts and records the snapshot already covers are skipped. */
  function Replay<S>(c: Codec<S>, s: S, rs: seq<JournalRecord>, covered: u64): Option<S>
    decreases |rs|
  {
    if rs == [] then Some(s)
    else if rs[0].kind == SEGMENT_START || rs[0].sequence <= covered then Replay(c, s, rs[1..], covered)
    else
      match c.apply(s, rs[0].kind, rs[0].payload)
      case None => None
      case Some(t) => Replay(c, t, rs[1..], covered)
  }

  lemma {:induction false} ReplayConcat<S>(c: Codec<S>, s: S, a: seq<JournalRecord>, b: seq<JournalRecord>, covered: u64)
    ensures Replay(c, s, a + b, covered) ==
            match Replay(c, s, a, covered) case None => None case Some(t) => Replay(c, t, b, covered)
    decreases |a|
  {
    if a == [] {
      assert a + b == b;
    } else {
      assert (a + b)[0] == a[0] && (a + b)[1..] == a[1..] + b;
      if a[0].kind == SEGMENT_START || a[0].sequence <= covered {
        ReplayConcat(c, s, a[1..], b, covered);
      } else if c.apply(s, a[0].kind, a[0].payload).Some? {
        ReplayConcat(c, c.apply(s, a[0].kind, a[0].payload).value, a[1..], b, covered);
      }
    }
  }

  lemma {:induction false} ReplaySkips<S>(c: Codec<S>, s: S, rs: seq<JournalRecord>, covered: u64)
    requires forall r :: r in rs ==> r.sequence <= covered
    ensures Replay(c, s, rs, covered) == Some(s)
    decreases |rs|
  {
    if rs != [] {
      assert rs[0] in rs;
      ReplaySkips(c, s, rs[1..], covered);
    }
  }

  lemma {:induction false} ReplayUncovered<S>(c: Codec<S>, s: S, rs: seq<JournalRecord>, covered: u64)
    requires forall r :: r in rs ==> r.sequence > covered
    ensures Replay(c, s, rs, covered) == Replay(c, s, rs, 0)
    decreases |rs|
  {
    if rs != [] {
      assert rs[0] in rs;
      if rs[0].kind == SEGMENT_START {
        ReplayUncovered(c, s, rs[1..], covered);
      } else if c.apply(s, rs[0].kind, rs[0].payload).Some? {
        ReplayUncovered(c, c.apply(s, rs[0].kind, rs[0].payload).value, rs[1..], covered);
      }
    }
  }

  /** The records ever written, numbered from one. */
  predicate Numbered(h: seq<JournalRecord>) {
    |h| < U64_LIMIT && forall i :: 0 <= i < |h| ==> h[i].sequence == i + 1
  }

  function Fold<S>(c: Codec<S>, h: seq<JournalRecord>): Option<S> {
    Replay(c, c.initial, h, 0)
  }

  /** A snapshot that covers the gap before a segment, plus that segment, is the whole history. */
  lemma ReplayIsFold<S>(c: Codec<S>, h: seq<JournalRecord>, base: nat, covered: u64, s: S)
    requires Numbered(h) && base <= covered <= |h| && Fold(c, h[..covered]) == Some(s)
    ensures Replay(c, s, h[base..], covered) == Fold(c, h)
  {
    assert h[base..] == h[base..covered] + h[covered..];
    assert h == h[..covered] + h[covered..];
    ReplayConcat(c, s, h[base..covered], h[covered..], covered);
    ReplaySkips(c, s, h[base..covered], covered);
    ReplayUncovered(c, s, h[covered..], covered);
    ReplayConcat(c, c.initial, h[..covered], h[covered..], 0);
  }

  lemma {:induction false} FoldGood<S(!new)>(c: Codec<S>, s: S, rs: seq<JournalRecord>)
    requires Lawful(c) && c.good(s) && Replay(c, s, rs, 0).Some?
    ensures c.good(Replay(c, s, rs, 0).value)
    decreases |rs|
  {
    if rs != [] {
      if rs[0].kind == SEGMENT_START || rs[0].sequence <= 0 {
        FoldGood(c, s, rs[1..]);
      } else {
        FoldGood(c, c.apply(s, rs[0].kind, rs[0].payload).value, rs[1..]);
      }
    }
  }

  // ---- The disk ----

  datatype Disk = Disk(journal: Option<Bytes>, slots: SnapshotFile.Slots)

  const EMPTY_DISK: Disk := Disk(None, SnapshotFile.Slots(None, None))

  datatype Effect =
    | WriteSlot(which: SnapshotFile.Which, content: Bytes)
    | CreateJournal
    | TruncateJournal(length: nat)
    | AppendJournal(bytes: Bytes)

  function Do(d: Disk, e: Effect): Disk {
    match e
    case WriteSlot(w, content) => d.(slots := SnapshotFile.Put(d.slots, w, content))
    case CreateJournal => d.(journal := Some([]))
    case TruncateJournal(n) => if d.journal.Some? && n <= |d.journal.value| then d.(journal := Some(d.journal.value[..n])) else d
    case AppendJournal(b) => if d.journal.Some? then d.(journal := Some(d.journal.value + b)) else d
  }

  function Run(d: Disk, es: seq<Effect>): Disk
    decreases |es|
  {
    if es == [] then d else Run(Do(d, es[0]), es[1..])
  }

  /** A crash after `k` effects, the next one, when it is an append, having left `n` of its bytes. */
  datatype Cut = Cut(k: nat, n: nat)

  predicate ValidCut(es: seq<Effect>, cut: Cut) {
    && cut.k <= |es|
    && (cut.n > 0 ==> cut.k < |es| && es[cut.k].AppendJournal? && cut.n < |es[cut.k].bytes|)
  }

  function Crashed(d: Disk, es: seq<Effect>, cut: Cut): Disk {
    if !ValidCut(es, cut) then d
    else
      var after := Run(d, es[..cut.k]);
      if cut.n > 0 then Do(after, AppendJournal(es[cut.k].bytes[..cut.n])) else after
  }

  // ---- The operations ----

  /** A running store: its state and the sequence number last written. */
  datatype Proc<S> = Proc(state: S, last: u64)

  datatype Refusal = SnapshotUndecodable | JournalUnreadable | NoSegmentStart | MalformedSegmentStart | Gap | ReplayFailed

  datatype Outcome<S> = Outcome(effects: seq<Effect>, proc: Proc<S>, ok: bool)

  const MAX: nat := MAX_RECORD_BYTES
  const MAX_SNAPSHOT: nat := SnapshotFile.MAX_SNAPSHOT_BYTES

  function CommitOf<S>(c: Codec<S>, p: Proc<S>, kind: u32, payload: Bytes): Outcome<S> {
    if |payload| > MAX then Outcome([], p, false)
    else
      match c.apply(p.state, kind, payload)
      case None => Outcome([], p, false)
      case Some(s) =>
        if p.last == U64_LIMIT - 1 || kind !in KNOWN_KINDS then Outcome([], Proc(s, p.last), false)
        else Outcome([AppendJournal(Encode(JournalRecord(kind, p.last + 1, payload)))], Proc(s, p.last + 1), true)
  }

  function CompactOf<S>(c: Codec<S>, d: Disk, p: Proc<S>): Outcome<S> {
    match c.encode(p.state)
    case None => Outcome([], p, false)
    case Some(b) =>
      if |b| > MAX_SNAPSHOT then Outcome([], p, false)
      else
        var write := WriteSlot(SnapshotFile.Target(d.slots, MAX_SNAPSHOT), SnapshotFile.Encode(p.last, b));
        if Next64(p.last) == 0 then Outcome([write], p, false)
        else
          Outcome([write, TruncateJournal(FILE_HEADER), AppendJournal(Encode(SegmentStart(Next64(p.last))))],
                  Proc(p.state, Next64(p.last)), true)
  }

  function Creation(): seq<Effect> {
    [CreateJournal, AppendJournal(FileHeader()), TruncateJournal(FILE_HEADER), AppendJournal(Encode(SegmentStart(1)))]
  }

  /** What opening the journal does to the file. */
  function JournalEffects(d: Disk): seq<Effect> {
    match d.journal
    case None => Creation()
    case Some(f) =>
      if !(FileHeader() <= f) then []
      else
        var s := Scan(f[FILE_HEADER..], MAX, None);
        if s.outcome == TruncatedTail then [TruncateJournal(|f| - s.discarded)] else []
  }

  /** The first segment start among the records, as the search loop finds it. */
  function FirstStart(rs: seq<JournalRecord>): (r: Option<JournalRecord>)
    ensures r.Some? ==> r.value in rs && r.value.kind == SEGMENT_START
    ensures r.None? ==> forall x :: x in rs ==> x.kind != SEGMENT_START
  {
    if rs == [] then None else if rs[0].kind == SEGMENT_START then Some(rs[0]) else FirstStart(rs[1..])
  }

  function ReadBase(rs: seq<JournalRecord>): Result<u64, Refusal> {
    match FirstStart(rs)
    case None => Err(NoSegmentStart)
    case Some(r) =>
      if |r.payload| != 8 then Err(MalformedSegmentStart)
      else if Load64(r.payload) == 0 then Err(NoSegmentStart)
      else Ok(Load64(r.payload))
  }

  /** The newest readable snapshot: the state it holds and the sequence it covers; the initial state covers nothing. */
  function Snapshot<S>(c: Codec<S>, slots: SnapshotFile.Slots): Result<(S, u64), Refusal> {
    match SnapshotFile.Load(slots, MAX_SNAPSHOT)
    case None => Ok((c.initial, 0))
    case Some((_, l)) =>
      match c.decode(l.payload)
      case None => Err(SnapshotUndecodable)
      case Some(s) => Ok((s, l.covered))
  }

  /** Snapshot plus journal records, with the gap check; `covered + 1` wraps like the source's. */
  function Assemble<S>(c: Codec<S>, s: S, covered: u64, rs: seq<JournalRecord>): Result<Proc<S>, Refusal> {
    match ReadBase(rs)
    case Err(e) => Err(e)
    case Ok(base) =>
      if base > Next64(covered) then Err(Gap)
      else
        match Replay(c, s, rs, covered)
        case None => Err(ReplayFailed)
        case Some(t) => Ok(Proc(t, LastSequence(rs)))
  }

  datatype Opened<S> = Opened(effects: seq<Effect>, result: Result<Proc<S>, Refusal>)

  function OpenOf<S>(c: Codec<S>, d: Disk): Opened<S> {
    match Snapshot(c, d.slots)
    case Err(e) => Opened([], Err(e))
    case Ok((s, covered)) =>
      match d.journal
      case None => Opened(Creation(), Assemble(c, s, covered, [SegmentStart(1)]))
      case Some(f) =>
        if !(FileHeader() <= f) then Opened([], Err(JournalUnreadable))
        else
          var scanned := Scan(f[FILE_HEADER..], MAX, None);
          if scanned.outcome == Corrupted then Opened([], Err(JournalUnreadable))
          else Opened(JournalEffects(d), Assemble(c, s, covered, scanned.records))
  }

  // ---- When an operation succeeds ----

  /** A commit is accepted exactly when its payload is at most one mebibyte, the state takes the record and a sequence
      number is left. Then its record is appended and the state moves on; otherwise the disk is not touched. */
  lemma CommitIff<S(!new)>(c: Codec<S>, p: Proc<S>, kind: u32, payload: Bytes)
    requires Lawful(c) && c.good(p.state)
    ensures var o := CommitOf(c, p, kind, payload);
            && (o.ok <==> |payload| <= 0x10_0000 && c.apply(p.state, kind, payload).Some? && p.last + 1 < U64_LIMIT)
            && (o.ok ==> o.effects == [AppendJournal(Encode(JournalRecord(kind, p.last + 1, payload)))]
                         && o.proc == Proc(c.apply(p.state, kind, payload).value, p.last + 1))
            && (!o.ok ==> o.effects == [])
  {
    hide Encode;
    assert c.apply(p.state, kind, payload).Some? ==> kind in KNOWN_KINDS;
  }

  /** A compaction succeeds exactly when the state encodes within 64 mebibytes and a sequence number is left. */
  lemma CompactIff<S>(c: Codec<S>, d: Disk, p: Proc<S>)
    ensures var o := CompactOf(c, d, p);
            && (o.ok <==> c.encode(p.state).Some? && |c.encode(p.state).value| <= 0x400_0000 && p.last + 1 < U64_LIMIT)
            && o.proc.state == p.state && (o.ok ==> o.proc.last == p.last + 1)
  {
    hide Encode, SnapshotFile.Encode, SnapshotFile.Target;
  }
}
