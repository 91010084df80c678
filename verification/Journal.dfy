/** The append-only journal, byte for byte (src/journal.cpp). */
module JournalFormat {
  import opened Prelude
  import opened LittleEndian
  import opened Crc32c

  const MAGIC: u32 := 0x314A4643
  const FORMAT_VERSION: u16 := 1
  const FILE_HEADER: nat := 12
  const RECORD_HEADER: nat := 20
  const MAX_RECORD_BYTES: nat := 0x10_0000

  /** The record types of the frozen enumeration. */
  const KNOWN_KINDS: set<u32> := {1, 10, 11, 20, 21, 30, 31, 40, 41, 42, 60, 61, 62, 63, 64, 65, 66, 67, 68, 90}
  const SEGMENT_START: u32 := 1

  datatype JournalRecord = JournalRecord(kind: u32, sequence: u64, payload: Bytes)

  // ---- Encoding ----

  function FileHeader(): (h: Bytes)
    ensures |h| == FILE_HEADER
  {
    var start := Store32(MAGIC) + Store16(FORMAT_VERSION) + Store16(0);
    start + Store32(Checksum(start))
  }

  /** What the record checksum covers. */
  function Covered(kind: u32, sequence: u64, payload: Bytes): Bytes {
    Store32(kind) + Store64(sequence) + payload
  }

  function RecordHeader(r: JournalRecord): (h: Bytes)
    ensures |h| == RECORD_HEADER
  {
    Store32(|r.payload| % U32_LIMIT) + Store32(r.kind) + Store32(RunningChecksum(Covered(r.kind, r.sequence, r.payload))) + Store64(r.sequence)
  }

  function Encode(r: JournalRecord): (e: Bytes)
    ensures |e| == RECORD_HEADER + |r.payload|
  {
    RecordHeader(r) + r.payload
  }

  predicate Writable(r: JournalRecord, maxRecordBytes: nat) {
    r.kind in KNOWN_KINDS && r.sequence > 0 && |r.payload| <= maxRecordBytes < U32_LIMIT
  }

  predicate AllWritable(rs: seq<JournalRecord>, maxRecordBytes: nat) {
    forall r :: r in rs ==> Writable(r, maxRecordBytes)
  }

  predicate Consecutive(rs: seq<JournalRecord>) {
    forall i :: 0 < i < |rs| ==> rs[i].sequence == rs[i - 1].sequence + 1
  }

  /** What the code can have written as one segment. */
  predicate Writes(rs: seq<JournalRecord>, maxRecordBytes: nat) {
    AllWritable(rs, maxRecordBytes) && Consecutive(rs)
  }

  function EncodeAll(rs: seq<JournalRecord>): Bytes {
    if rs == [] then [] else Encode(rs[0]) + EncodeAll(rs[1..])
  }

  // ---- Reading one record ----

  datatype Reading =
    | End
    | Torn
    | Damaged
    | Read(record: JournalRecord)

  /** One turn of the scan: what the bytes from here on begin with. */
  function ReadRecord(b: Bytes, maxRecordBytes: nat): (r: Reading)
    ensures r.Read? ==> RECORD_HEADER + |r.record.payload| <= |b|
    ensures r.Read? ==> r.record.kind in KNOWN_KINDS && r.record.sequence > 0 && |r.record.payload| <= maxRecordBytes
  {
    if |b| == 0 then End
    else if |b| < RECORD_HEADER then Torn
    else
      var length := Load32(b[..4]);
      var kind := Load32(b[4..8]);
      var stored := Load32(b[8..12]);
      var sequence := Load64(b[12..20]);
      if !(length <= maxRecordBytes && kind in KNOWN_KINDS && sequence > 0) then Damaged
      else if |b| < RECORD_HEADER + length then Torn
      else
        var payload := b[RECORD_HEADER..RECORD_HEADER + length];
        if RunningChecksum(Covered(kind, sequence, payload)) != stored then Damaged
        else Read(JournalRecord(kind, sequence, payload))
  }

  datatype Outcome = Clean | TruncatedTail | Corrupted

  datatype Scanned = Scanned(records: seq<JournalRecord>, outcome: Outcome, discarded: nat)

  /** The whole scan after the file header. `expected` is the sequence the next record must carry, when it is known. */
  function Scan(b: Bytes, maxRecordBytes: nat, expected: Option<nat>): (s: Scanned)
    ensures s.discarded <= |b|
    decreases |b|
  {
    match ReadRecord(b, maxRecordBytes)
    case End => Scanned([], Clean, 0)
    case Torn => Scanned([], TruncatedTail, |b|)
    case Damaged => Scanned([], Corrupted, 0)
    case Read(r) =>
      if expected.Some? && r.sequence != expected.value then Scanned([], Corrupted, 0)
      else
        var rest := Scan(b[RECORD_HEADER + |r.payload|..], maxRecordBytes, Some(r.sequence + 1));
        rest.(records := [r] + rest.records)
  }

  // ---- Reading what was written ----

  lemma EncodedFields(r: JournalRecord, rest: Bytes)
    requires |r.payload| < U32_LIMIT
    ensures var b := Encode(r) + rest;
            && b[..4] == Store32(|r.payload|) && b[4..8] == Store32(r.kind)
            && b[8..12] == Store32(RunningChecksum(Covered(r.kind, r.sequence, r.payload)))
            && b[12..20] == Store64(r.sequence) && b[20..20 + |r.payload|] == r.payload
  {
    hide Store32, Store64, RunningChecksum, Covered;
    var b := Encode(r) + rest;
    assert b[..20] == RecordHeader(r);
    assert b[..20][..4] == b[..4] && b[..20][4..8] == b[4..8] && b[..20][8..12] == b[8..12] && b[..20][12..20] == b[12..20];
  }

  lemma ReadEncoded(r: JournalRecord, rest: Bytes, max: nat)
    requires Writable(r, max)
    ensures ReadRecord(Encode(r) + rest, max) == Read(r)
  {
    hide Store32, Store64, Load32, Load64, RunningChecksum, Covered, Encode;
    EncodedFields(r, rest);
    RoundTrip32(|r.payload|);
    RoundTrip32(r.kind);
    RoundTrip32(RunningChecksum(Covered(r.kind, r.sequence, r.payload)));
    RoundTrip64(r.sequence);
  }

  /** A record cut short is a torn tail. */
  lemma ReadCut(r: JournalRecord, n: nat, max: nat)
    requires Writable(r, max) && 0 < n < |Encode(r)|
    ensures ReadRecord(Encode(r)[..n], max) == Torn
  {
    hide Store32, Store64, Load32, Load64, RunningChecksum, Covered, Encode;
    if n >= RECORD_HEADER {
      EncodedFields(r, []);
      var e, b := Encode(r), Encode(r)[..n];
      assert e + [] == e;
      assert b[..4] == e[..4] && b[4..8] == e[4..8] && b[12..20] == e[12..20];
      RoundTrip32(|r.payload|);
      RoundTrip32(r.kind);
      RoundTrip64(r.sequence);
    }
  }

  predicate Continues(rs: seq<JournalRecord>, expected: Option<nat>) {
    expected.Some? && rs != [] ==> rs[0].sequence == expected.value
  }

  lemma ScanStep(r: JournalRecord, rest: Bytes, max: nat, expected: Option<nat>)
    requires Writable(r, max) && (expected.Some? ==> r.sequence == expected.value)
    ensures var tail := Scan(rest, max, Some(r.sequence + 1));
            Scan(Encode(r) + rest, max, expected) == tail.(records := [r] + tail.records)
  {
    hide Encode;
    ReadEncoded(r, rest, max);
    assert (Encode(r) + rest)[RECORD_HEADER + |r.payload|..] == rest;
  }

  lemma Tail(rs: seq<JournalRecord>, max: nat)
    requires Writes(rs, max) && rs != []
    ensures Writes(rs[1..], max) && Continues(rs[1..], Some(rs[0].sequence + 1)) && Writable(rs[0], max)
    ensures EncodeAll(rs) == Encode(rs[0]) + EncodeAll(rs[1..])
  {
    hide Encode;
  }

  lemma CutInTheFirst(r: JournalRecord, n: nat, max: nat, expected: Option<nat>)
    requires Writable(r, max) && n < |Encode(r)|
    ensures Scan(Encode(r)[..n], max, expected) == Scanned([], if n == 0 then Clean else TruncatedTail, n)
    ensures EncodeAll([]) == [] && EncodeAll([r]) == Encode(r)
  {
    hide Encode;
    if n > 0 { ReadCut(r, n, max); }
    assert EncodeAll([r]) == Encode(r) + EncodeAll([r][1..]);
  }

  /** Prefix recovery: after any cut, the scan returns exactly the records wholly before it and reports the rest,
      which is less than one record, as discarded. */
  lemma {:induction false} PrefixRecovery(rs: seq<JournalRecord>, n: nat, max: nat, expected: Option<nat>)
    requires Writes(rs, max) && Continues(rs, expected) && n <= |EncodeAll(rs)|
    ensures var s := Scan(EncodeAll(rs)[..n], max, expected);
            && s.records <= rs
            && |EncodeAll(s.records)| + s.discarded == n
            && (s.discarded > 0 ==> |s.records| < |rs| && s.discarded < |Encode(rs[|s.records|])|)
            && (s.records != rs ==> n < |EncodeAll(s.records + [rs[|s.records|]])|)
            && s.outcome == (if s.discarded == 0 then Clean else TruncatedTail)
    decreases |rs|
  {
    hide Encode;
    if rs != [] {
      var r := rs[0];
      Tail(rs, max);
      if n < |Encode(r)| {
        assert EncodeAll(rs)[..n] == Encode(r)[..n];
        CutInTheFirst(r, n, max, expected);
        assert [] + [rs[0]] == [r];
      } else {
        hide Scan, EncodeAll, Writable;
        var m := n - |Encode(r)|;
        assert EncodeAll(rs)[..n] == Encode(r) + EncodeAll(rs[1..])[..m];
        PrefixRecovery(rs[1..], m, max, Some(r.sequence + 1));
        ScanStep(r, EncodeAll(rs[1..])[..m], max, expected);
        Prepended(r, Scan(EncodeAll(rs[1..])[..m], max, Some(r.sequence + 1)), rs, max);
      }
    }
  }

  lemma EncodeFirst(r: JournalRecord, rest: seq<JournalRecord>)
    ensures EncodeAll([r] + rest) == Encode(r) + EncodeAll(rest)
  {
    hide Encode;
    assert ([r] + rest)[1..] == rest;
  }

  lemma Prepended(r: JournalRecord, tail: Scanned, rs: seq<JournalRecord>, max: nat)
    requires rs != [] && r == rs[0] && tail.records <= rs[1..]
    ensures [r] + tail.records <= rs
    ensures EncodeAll([r] + tail.records) == Encode(r) + EncodeAll(tail.records)
    ensures tail.records != rs[1..] ==>
              var more := tail.records + [rs[1..][|tail.records|]];
              && rs[|tail.records| + 1] == rs[1..][|tail.records|]
              && EncodeAll(([r] + tail.records) + [rs[|tail.records| + 1]]) == Encode(r) + EncodeAll(more)
  {
    hide Encode, EncodeAll;
    EncodeFirst(r, tail.records);
    if tail.records != rs[1..] {
      var next := rs[1..][|tail.records|];
      EncodeFirst(r, tail.records + [next]);
      assert ([r] + tail.records) + [next] == [r] + (tail.records + [next]);
    }
  }

  /** What a complete segment scans to; in particular a truncated file scans clean. */
  lemma WholeRecovery(rs: seq<JournalRecord>, max: nat, expected: Option<nat>)
    requires Writes(rs, max) && Continues(rs, expected)
    ensures Scan(EncodeAll(rs), max, expected) == Scanned(rs, Clean, 0)
  {
    hide Encode, EncodeAll, Scan;
    var all := EncodeAll(rs);
    assert all[..|all|] == all;
    PrefixRecovery(rs, |all|, max, expected);
    var s := Scan(all, max, expected);
    if s.records != rs {
      PrefixFits(rs, s.records);
    }
  }

  lemma PrefixFits(rs: seq<JournalRecord>, p: seq<JournalRecord>)
    requires p < rs
    ensures |EncodeAll(p + [rs[|p|]])| <= |EncodeAll(rs)|
  {
    hide EncodeAll;
    EncodeSplit(rs, |p| + 1);
    assert rs[..|p| + 1] == p + [rs[|p|]];
  }

  lemma {:induction false} EncodeSplit(rs: seq<JournalRecord>, k: nat)
    requires k <= |rs|
    ensures EncodeAll(rs) == EncodeAll(rs[..k]) + EncodeAll(rs[k..])
    decreases k
  {
    hide Encode;
    if k > 0 {
      EncodeSplit(rs[1..], k - 1);
      assert rs[..k][1..] == rs[1..][..k - 1] && rs[1..][k - 1..] == rs[k..];
    } else {
      assert rs[..k] == [] && rs[k..] == rs;
    }
  }

  lemma EncodeNone()
    ensures EncodeAll([]) == []
  {
  }

  lemma {:induction false} ScanAfter(before: seq<JournalRecord>, rest: Bytes, max: nat, expected: Option<nat>)
    requires Writes(before, max) && Continues(before, expected)
    ensures var tail := Scan(rest, max, if before == [] then expected else Some(before[|before| - 1].sequence + 1));
            Scan(EncodeAll(before) + rest, max, expected) == tail.(records := before + tail.records)
    decreases |before|
  {
    hide Encode, EncodeAll, Scan;
    if before == [] {
      assert EncodeAll(before) == [] by { EncodeNone(); }
      assert EncodeAll(before) + rest == rest;
    } else {
      var r := before[0];
      Tail(before, max);
      assert EncodeAll(before) + rest == Encode(r) + (EncodeAll(before[1..]) + rest);
      ScanStep(r, EncodeAll(before[1..]) + rest, max, expected);
      ScanAfter(before[1..], rest, max, Some(r.sequence + 1));
      var tail := Scan(rest, max, Some(before[|before| - 1].sequence + 1));
      LastOfTail(before);
      assert [r] + (before[1..] + tail.records) == before + tail.records;
    }
  }

  lemma LastOfTail(rs: seq<JournalRecord>)
    requires rs != []
    ensures rs[1..] != [] ==> rs[1..][|rs[1..]| - 1] == rs[|rs| - 1]
    ensures rs[1..] == [] ==> rs[0] == rs[|rs| - 1]
  {
  }

  lemma ReadIgnoresTheRest(b: Bytes, m: nat, max: nat)
    requires ReadRecord(b, max).Read? && RECORD_HEADER + |ReadRecord(b, max).record.payload| <= m <= |b|
    ensures ReadRecord(b[..m], max) == ReadRecord(b, max)
  {
    hide Load32, Load64, RunningChecksum, Covered;
    var t := b[..m];
    assert t[..4] == b[..4] && t[4..8] == b[4..8] && t[8..12] == b[8..12] && t[12..20] == b[12..20];
    var length := Load32(b[..4]);
    assert t[RECORD_HEADER..RECORD_HEADER + length] == b[RECORD_HEADER..RECORD_HEADER + length];
  }

  lemma ScanRead(b: Bytes, max: nat, expected: Option<nat>)
    requires ReadRecord(b, max).Read?
    requires expected.Some? ==> ReadRecord(b, max).record.sequence == expected.value || Scan(b, max, expected).outcome != Corrupted
    ensures var r := ReadRecord(b, max).record;
            var n := RECORD_HEADER + |r.payload|;
            && (expected.Some? ==> r.sequence == expected.value) && n <= |b|
            && var rest := Scan(b[n..], max, Some(r.sequence + 1));
               Scan(b, max, expected) == rest.(records := [r] + rest.records)
  {
    hide ReadRecord;
    ReadLength(b, max);
  }

  lemma ScanStops(b: Bytes, max: nat, expected: Option<nat>)
    requires !ReadRecord(b, max).Read?
    ensures ReadRecord(b, max).End? ==> Scan(b, max, expected) == Scanned([], Clean, 0)
    ensures ReadRecord(b, max).Torn? ==> Scan(b, max, expected) == Scanned([], TruncatedTail, |b|)
    ensures ReadRecord(b, max).Damaged? ==> Scan(b, max, expected).outcome == Corrupted
  {
    hide ReadRecord;
  }

  lemma CutTwice(b: Bytes, n: nat, m: nat)
    requires n <= m <= |b|
    ensures b[..m][n..] == b[n..][..m - n]
  {
  }

  /** Whatever the file is: once its torn tail is cut off, it scans clean with the same records. */
  lemma {:induction false} TruncatedRescans(b: Bytes, max: nat, expected: Option<nat>)
    requires Scan(b, max, expected).outcome != Corrupted
    ensures var s := Scan(b, max, expected);
            Scan(b[..|b| - s.discarded], max, expected) == Scanned(s.records, Clean, 0)
    decreases |b|
  {
    hide ReadRecord, Scan;
    var s := Scan(b, max, expected);
    if ReadRecord(b, max).Read? {
      ScanRead(b, max, expected);
      var r := ReadRecord(b, max).record;
      var n := RECORD_HEADER + |r.payload|;
      TruncatedRescans(b[n..], max, Some(r.sequence + 1));
      ReadIgnoresTheRest(b, |b| - s.discarded, max);
      CutTwice(b, n, |b| - s.discarded);
      ScanRead(b[..|b| - s.discarded], max, expected);
    } else {
      ScanStops(b, max, expected);
      assert b[..|b|] == b;
      EmptyReads(b[..0], max);
      ScanStops(b[..0], max, expected);
    }
  }

  lemma EmptyReads(b: Bytes, max: nat)
    requires b == []
    ensures ReadRecord(b, max) == End
  {
  }

  lemma ReadLength(b: Bytes, max: nat)
    ensures ReadRecord(b, max).Read? ==> RECORD_HEADER + |ReadRecord(b, max).record.payload| <= |b|
  {
  }

  // ---- Damage ----

  lemma OneByteChanged(c: Bytes, d: Bytes, j: nat)
    requires |c| == |d| && j < |c| && c[j] != d[j]
    requires forall i :: 0 <= i < |c| && i != j ==> c[i] == d[i]
    ensures RunningChecksum(c) != RunningChecksum(d)
  {
    hide RunningChecksum;
    assert c == c[..j] + [c[j]] + c[j + 1..];
    assert d == c[..j] + [d[j]] + c[j + 1..];
    BurstDetected(c[..j], [c[j]], [d[j]], c[j + 1..]);
  }

  /** What the checksum comparison of a reading compares, in terms of the raw bytes. */
  function RawCovered(e: Bytes): Bytes
    requires |e| >= RECORD_HEADER
  {
    e[4..8] + e[12..20] + e[20..]
  }

  lemma RawComparison(e: Bytes, rest: Bytes, max: nat)
    requires |e| >= RECORD_HEADER && Load32(e[..4]) == |e| - RECORD_HEADER
    ensures RunningChecksum(RawCovered(e)) != Load32(e[8..12]) ==> ReadRecord(e + rest, max) == Damaged
  {
    hide Store32, Store64, Load32, Load64, RunningChecksum;
    var b := e + rest;
    assert b[..4] == e[..4] && b[4..8] == e[4..8] && b[8..12] == e[8..12] && b[12..20] == e[12..20] && b[20..|e|] == e[20..];
    Again32(e[4..8]);
    Again64(e[12..20]);
    assert Covered(Load32(b[4..8]), Load64(b[12..20]), b[20..|e|]) == RawCovered(e);
  }

  /** A single changed byte outside the length field is seen. */
  lemma DamagedReading(r: JournalRecord, k: nat, x: byte, rest: Bytes, max: nat)
    requires Writable(r, max) && 4 <= k < |Encode(r)| && x != Encode(r)[k]
    ensures ReadRecord(Encode(r)[k := x] + rest, max) == Damaged
  {
    hide Store32, Store64, Load32, Load64, RunningChecksum, Encode, ReadRecord;
    var e := Encode(r);
    var d := e[k := x];
    EncodedFields(r, []);
    assert e + [] == e && d[..4] == e[..4];
    RoundTrip32(|r.payload|);
    assert RawCovered(e) == Covered(r.kind, r.sequence, r.payload);
    RoundTrip32(RunningChecksum(RawCovered(e)));
    RawComparison(d, rest, max);
    var c, c' := RawCovered(e), RawCovered(d);
    if k < 8 {
      OneByteChanged(c, c', k - 4);
      assert d[8..12] == e[8..12];
    } else if k < 12 {
      assert c == c' && d[8..12][k - 8] != e[8..12][k - 8];
      Again32(d[8..12]);
      Again32(e[8..12]);
    } else {
      OneByteChanged(c, c', k - 8);
      assert d[8..12] == e[8..12];
    }
  }

  /** One changed byte in the type, checksum, sequence or payload of any record is always reported as corruption,
      and nothing from the damaged record on is returned. */
  lemma DamageDetected(before: seq<JournalRecord>, r: JournalRecord, after: Bytes, k: nat, x: byte, max: nat)
    requires Writes(before, max) && Writable(r, max) && 4 <= k < |Encode(r)| && x != Encode(r)[k]
    ensures Scan(EncodeAll(before) + Encode(r)[k := x] + after, max, None) == Scanned(before, Corrupted, 0)
  {
    hide Encode, EncodeAll;
    var rest := Encode(r)[k := x] + after;
    DamagedReading(r, k, x, after, max);
    ScanAfter(before, rest, max, None);
    assert EncodeAll(before) + Encode(r)[k := x] + after == EncodeAll(before) + rest;
    assert before + [] == before;
  }

  /** What a record reads as once its length field says something else. */
  lemma LengthReading(r: JournalRecord, after: Bytes, length: u32, max: nat)
    requires Writable(r, max)
    ensures ReadRecord(Store32(length) + Encode(r)[4..] + after, max) == Torn <==> |r.payload| + |after| < length <= max
    ensures var reading := ReadRecord(Store32(length) + Encode(r)[4..] + after, max);
            reading != End && (reading.Read? ==> reading.record.sequence == r.sequence)
  {
    hide Encode, Store32, Store64, Load32, Load64, RunningChecksum, Covered;
    EncodedFields(r, []);
    var e := Encode(r);
    var d := Store32(length) + e[4..] + after;
    assert e + [] == e;
    assert d[..4] == Store32(length) && d[4..8] == e[4..8] && d[12..20] == e[12..20];
    RoundTrip32(length);
    RoundTrip32(r.kind);
    RoundTrip64(r.sequence);
  }

  /** The length field is the exception. Whatever follows the record, a changed length is taken for a torn append exactly
      when it claims more bytes than there are but no more than the record bound; then the record and everything after
      it are discarded without an error. */
  lemma LengthDamageDropsTheRest(before: seq<JournalRecord>, r: JournalRecord, after: Bytes, length: u32, max: nat)
    requires Writes(before + [r], max)
    ensures var s := Scan(EncodeAll(before) + (Store32(length) + Encode(r)[4..] + after), max, None);
            && (s.records == before && s.outcome == TruncatedTail <==> |r.payload| + |after| < length <= max)
            && (|r.payload| + |after| < length <= max ==> s.discarded == |Encode(r)| + |after|)
  {
    hide Encode, EncodeAll, Store32, ReadRecord, Scan, Writable, Consecutive;
    assert r in before + [r] && (forall x :: x in before ==> x in before + [r]);
    PrefixConsecutive(before, r);
    var d := Store32(length) + Encode(r)[4..] + after;
    LengthReading(r, after, length, max);
    if before != [] { LastStep(before, r); }
    ScanTail(d, max, if before == [] then None else Some(before[|before| - 1].sequence + 1));
    ScanAfter(before, d, max, None);
    assert before + [] == before;
  }

  lemma ScanTail(b: Bytes, max: nat, expected: Option<nat>)
    requires ReadRecord(b, max).Read? && expected.Some? ==> ReadRecord(b, max).record.sequence == expected.value
    ensures var s := Scan(b, max, expected);
            && (s.records == [] && s.outcome == TruncatedTail <==> ReadRecord(b, max).Torn?)
            && (ReadRecord(b, max).Torn? ==> s.discarded == |b|)
  {
    hide ReadRecord;
    if ReadRecord(b, max).Read? { ReadLength(b, max); }
  }

  /** One changed byte is enough: in every journal with less than 0xF0000 bytes from this payload on, setting the third
      byte of the length to 0x0F drops the record and all records after it. */
  lemma OneByteDropsTheRest(before: seq<JournalRecord>, r: JournalRecord, more: seq<JournalRecord>)
    requires Writes(before + [r], MAX_RECORD_BYTES) && |r.payload| + |EncodeAll(more)| < 0xF_0000
    ensures Encode(r)[2] != 0x0F
    ensures var s := Scan(EncodeAll(before) + (Encode(r)[2 := 0x0F] + EncodeAll(more)), MAX_RECORD_BYTES, None);
            s.records == before && s.outcome == TruncatedTail
  {
    hide Encode, EncodeAll, Scan, Writes;
    RaisedLength(r);
    LengthDamageDropsTheRest(before, r, EncodeAll(more), |r.payload| % 0x1_0000 + 0xF_0000, MAX_RECORD_BYTES);
  }

  lemma RaisedLength(r: JournalRecord)
    requires |r.payload| < 0xF_0000
    ensures Encode(r)[2] != 0x0F && Encode(r)[2 := 0x0F] == Store32(|r.payload| % 0x1_0000 + 0xF_0000) + Encode(r)[4..]
  {
    hide Encode, Store32, Store64, RunningChecksum, Covered;
    ThirdByte(|r.payload|);
    EncodedFields(r, []);
    var e := Encode(r);
    assert e + [] == e;
    assert e[2] == e[..4][2];
    assert e[2 := 0x0F] == e[..4][2 := 0x0F] + e[4..];
  }

  lemma ThirdByte(n: nat)
    requires n < 0xF_0000
    ensures Store32(n)[2] != 0x0F && Store32(n)[2 := 0x0F] == Store32(n % 0x1_0000 + 0xF_0000)
  {
    hide Store32;
    var m := n % 0x1_0000 + 0xF_0000;
    var high, low := n / 0x1_0000, n % 0x1_0000;
    assert n / 0x100 == 0x100 * high + low / 0x100 && m / 0x100 == 0xF00 + low / 0x100;
    FourBytes(n);
    FourBytes(m);
  }

  lemma FourBytes(n: u32)
    ensures Store32(n) == [n % 0x100, n / 0x100 % 0x100, n / 0x100 / 0x100 % 0x100, n / 0x100 / 0x100 / 0x100 % 0x100]
  {
    var n1 := n / 0x100;
    var n2 := n1 / 0x100;
    var n3 := n2 / 0x100;
    assert Store(n3, 1) == [n3 % 0x100] + Store(n3 / 0x100, 0);
    assert Store(n2, 2) == [n2 % 0x100] + Store(n3, 1);
    assert Store(n1, 3) == [n1 % 0x100] + Store(n2, 2);
  }

  lemma LastStep(before: seq<JournalRecord>, r: JournalRecord)
    requires Consecutive(before + [r]) && before != []
    ensures r.sequence == before[|before| - 1].sequence + 1
  {
    var all := before + [r];
    assert all[|before|].sequence == all[|before| - 1].sequence + 1;
  }

  lemma PrefixConsecutive(before: seq<JournalRecord>, r: JournalRecord)
    requires Consecutive(before + [r])
    ensures Consecutive(before)
  {
    var all := before + [r];
    forall i | 0 < i < |before| ensures before[i].sequence == before[i - 1].sequence + 1 {
      assert all[i].sequence == all[i - 1].sequence + 1;
    }
  }

  // ---- The file header ----

  datatype HeaderError = IncompleteHeader | NotAJournal | HeaderChecksum | UnsupportedVersion | ReservedNotZero

  function ValidateHeader(file: Bytes): Result<(), HeaderError> {
    if |file| < FILE_HEADER then Err(IncompleteHeader)
    else if Load32(file[..4]) != MAGIC then Err(NotAJournal)
    else if Checksum(file[..8]) != Load32(file[8..12]) then Err(HeaderChecksum)
    else if Load16(file[4..6]) != FORMAT_VERSION then Err(UnsupportedVersion)
    else if Load16(file[6..8]) != 0 then Err(ReservedNotZero)
    else Ok(())
  }

  /** The only header that is accepted is the one the code writes. */
  lemma OnlyTheWrittenHeader(file: Bytes)
    ensures ValidateHeader(file).Ok? <==> FileHeader() <= file
  {
    hide Store16, Store32, Load16, Load32, Checksum;
    RoundTrip32(MAGIC);
    RoundTrip16(FORMAT_VERSION);
    RoundTrip16(0);
    var start := Store32(MAGIC) + Store16(FORMAT_VERSION) + Store16(0);
    RoundTrip32(Checksum(start));
    if |file| >= FILE_HEADER {
      assert file[..12] == file[..4] + file[4..6] + file[6..8] + file[8..12];
      assert file[..8] == file[..4] + file[4..6] + file[6..8];
      Again32(file[..4]);
      Again16(file[4..6]);
      Again16(file[6..8]);
      Again32(file[8..12]);
      var h := FileHeader();
      assert h[..4] == Store32(MAGIC) && h[4..6] == Store16(FORMAT_VERSION) && h[6..8] == Store16(0) && h[8..12] == Store32(Checksum(start));
      if h <= file {
        assert file[..4] == h[..4] && file[4..6] == h[4..6] && file[6..8] == h[6..8] && file[8..12] == h[8..12];
      }
    }
  }
}

/** The journal as the class the store holds (class Journal, src/journal.cpp). */
module Journal {
  import opened Prelude
  import opened LittleEndian
  import opened JournalFormat

  datatype Error = NotOpenable | CorruptJournal | UnknownType | Oversize | Exhausted | ZeroBase

  /** The file of one segment. */
  function FileOf(rs: seq<JournalRecord>): Bytes {
    FileHeader() + EncodeAll(rs)
  }

  function LastSequence(rs: seq<JournalRecord>): u64
  {
    if rs == [] then 0 else rs[|rs| - 1].sequence
  }

  function SegmentStart(base: u64): JournalRecord {
    JournalRecord(SEGMENT_START, base, Store64(base))
  }

  lemma EncodeSnoc(rs: seq<JournalRecord>, r: JournalRecord)
    ensures EncodeAll(rs + [r]) == EncodeAll(rs) + Encode(r)
    ensures FileOf(rs + [r]) == FileOf(rs) + Encode(r)
  {
    hide Encode, EncodeAll, FileHeader;
    EncodeSplit(rs + [r], |rs|);
    assert (rs + [r])[..|rs|] == rs && (rs + [r])[|rs|..] == [r];
    EncodeFirst(r, []);
    EncodeNone();
    assert [r] + [] == [r];
  }

  lemma Appended(rs: seq<JournalRecord>, r: JournalRecord, max: nat)
    requires Writes(rs, max) && Writable(r, max) && (rs != [] ==> r.sequence == LastSequence(rs) + 1)
    ensures Writes(rs + [r], max) && FileOf(rs + [r]) == FileOf(rs) + Encode(r) && LastSequence(rs + [r]) == r.sequence
  {
    hide Encode, FileOf, Writable;
    EncodeSnoc(rs, r);
    forall x | x in rs + [r] ensures Writable(x, max) {}
  }

  lemma Started(base: u64, max: nat)
    requires base != 0 && 8 <= max <= MAX_RECORD_BYTES
    ensures Writes([SegmentStart(base)], max) && FileOf([SegmentStart(base)]) == FileHeader() + Encode(SegmentStart(base))
  {
    hide Encode, FileHeader;
    Appended([], SegmentStart(base), max);
    assert [] + [SegmentStart(base)] == [SegmentStart(base)];
    EncodeNone();
    assert FileOf([]) == FileHeader();
  }

  class Journal {
    const maxRecordBytes: nat
    var exists_: bool
    var file: Bytes
    var lastSequence: u64
    var recordCount: nat
    ghost var records: seq<JournalRecord>

    /** The file is one segment the code wrote, and the fields say where it ends. */
    ghost predicate Valid()
      reads this
    {
      && SmallEnough() && exists_
      && file == FileOf(records) && Writes(records, maxRecordBytes)
      && lastSequence == LastSequence(records) && recordCount == |records|
    }

    predicate SmallEnough()
      reads this
    {
      8 <= maxRecordBytes <= MAX_RECORD_BYTES
    }

    /** A handle on whatever the path holds; `Open` does the recovery. */
    constructor (maxRecordBytes: nat, present: bool, content: Bytes)
      ensures this.maxRecordBytes == maxRecordBytes && exists_ == present && file == content
    {
      this.maxRecordBytes := maxRecordBytes;
      exists_, file := present, content;
      lastSequence, recordCount, records := 0, 0, [];
    }

    /** `scanInto`: the loop over the records, and the truncation of a torn tail. */
    method ScanInto(truncateTornTail: bool) returns (found: seq<JournalRecord>, outcome: Outcome, discarded: nat)
      requires FileHeader() <= file
      modifies `file
      ensures var s := Scan(old(file)[FILE_HEADER..], maxRecordBytes, None);
              && found == s.records && outcome == s.outcome && discarded == s.discarded <= |old(file)| - FILE_HEADER
      ensures file == if truncateTornTail then old(file)[..|old(file)| - discarded] else old(file)
      ensures outcome == Corrupted ==> file == old(file)
    {
      hide ReadRecord, FileHeader, Scan;
      found, outcome, discarded := [], Clean, 0;
      var offset := FILE_HEADER;
      var expected: Option<nat> := None;
      var done := false;
      while !done
        invariant FILE_HEADER <= offset <= |file| && file == old(file) && (!done ==> outcome == Clean)
        invariant discarded == if done && outcome == TruncatedTail then |file| - offset else 0
        invariant !done ==>
                    var rest := Scan(file[offset..], maxRecordBytes, expected);
                    Scan(file[FILE_HEADER..], maxRecordBytes, None) == rest.(records := found + rest.records)
        invariant done ==> Scan(file[FILE_HEADER..], maxRecordBytes, None) == Scanned(found, outcome, discarded)
        decreases |file| - offset, !done
      {
        assert found + [] == found;
        Turn(file[offset..], maxRecordBytes, expected);
        match ReadRecord(file[offset..], maxRecordBytes) {
          case End =>
            done := true;
          case Torn =>
            done, outcome, discarded := true, TruncatedTail, |file| - offset;
          case Damaged =>
            done, outcome := true, Corrupted;
          case Read(r) =>
            if expected.Some? && r.sequence != expected.value {
              done, outcome := true, Corrupted;
            } else {
              ReadLength(file[offset..], maxRecordBytes);
              assert file[offset..][RECORD_HEADER + |r.payload|..] == file[offset + RECORD_HEADER + |r.payload|..];
              ghost var rest := Scan(file[offset + RECORD_HEADER + |r.payload|..], maxRecordBytes, Some(r.sequence + 1));
              assert (found + [r]) + rest.records == found + ([r] + rest.records);
              found, expected := found + [r], Some(r.sequence + 1);
              offset := offset + RECORD_HEADER + |r.payload|;
            }
        }
      }
      if truncateTornTail && outcome == TruncatedTail {
        file := file[..|file| - discarded];
      }
    }

    static lemma Turn(b: Bytes, max: nat, expected: Option<nat>)
      ensures Scan(b, max, expected) ==
              match ReadRecord(b, max)
              case End => Scanned([], Clean, 0)
              case Torn => Scanned([], TruncatedTail, |b|)
              case Damaged => Scanned([], Corrupted, 0)
              case Read(r) =>
                if expected.Some? && r.sequence != expected.value then Scanned([], Corrupted, 0)
                else
                  var rest := Scan(b[RECORD_HEADER + |r.payload|..], max, Some(r.sequence + 1));
                  rest.(records := [r] + rest.records)
    {
    }

    /** `writeRecord`. */
    method WriteRecord(kind: u32, payload: Bytes, sequence: u64)
      modifies `file
      ensures file == old(file) + Encode(JournalRecord(kind, sequence, payload))
    {
      file := file + RecordHeader(JournalRecord(kind, sequence, payload));
      file := file + payload;
    }

    method Append(kind: u32, payload: Bytes) returns (result: Result<u64, Error>)
      requires Valid()
      modifies this
      ensures Valid() && exists_
      ensures result.Ok? <==> kind in KNOWN_KINDS && |payload| <= maxRecordBytes && old(lastSequence) < U64_LIMIT - 1
      ensures result.Ok? ==> result.value == old(lastSequence) + 1
      ensures result.Ok? ==> records == old(records) + [JournalRecord(kind, result.value, payload)]
      ensures result.Err? ==> records == old(records) && file == old(file)
    {
      hide Encode, FileOf, Writes;
      if kind !in KNOWN_KINDS { return Err(UnknownType); }
      if |payload| > maxRecordBytes { return Err(Oversize); }
      var next := CheckedAdd(lastSequence, 1);
      if next.None? { return Err(Exhausted); }
      var r := JournalRecord(kind, next.value, payload);
      Appended(records, r, maxRecordBytes);
      WriteRecord(kind, payload, next.value);
      lastSequence := next.value;
      recordCount := recordCount + 1;
      records := records + [r];
      result := Ok(next.value);
    }

    /** `restartSegment`: the old records are superseded; the new segment starts at `base`. */
    method RestartSegment(base: u64) returns (result: Result<(), Error>)
      requires SmallEnough() && exists_ && FileHeader() <= file
      modifies this
      ensures result.Ok? <==> base != 0
      ensures result.Ok? ==> Valid() && records == [SegmentStart(base)] && lastSequence == base
      ensures result.Err? ==> unchanged(this)
    {
      hide Encode, FileOf, Writes, FileHeader;
      if base == 0 { return Err(ZeroBase); }
      file := FileHeader() + file[FILE_HEADER..];
      file := file[..FILE_HEADER];
      Started(base, maxRecordBytes);
      HeaderLength();
      WriteRecord(SEGMENT_START, Store64(base), base);
      lastSequence, recordCount := base, 1;
      records := [SegmentStart(base)];
      result := Ok(());
    }

    static lemma HeaderLength()
      ensures |FileHeader()| == FILE_HEADER
    {
    }

    /** `open`: creates the journal, or recovers it. */
    method Open() returns (result: Result<Option<Outcome>, Error>)
      requires SmallEnough()
      modifies this
      ensures !old(exists_) ==> result == Ok(None) && Valid() && records == [SegmentStart(1)]
      ensures old(exists_) && !(FileHeader() <= old(file)) ==> result.Err?
      ensures old(exists_) && FileHeader() <= old(file) ==>
                var s := Scan(old(file)[FILE_HEADER..], maxRecordBytes, None);
                && (result.Ok? <==> s.outcome != Corrupted)
                && (result.Ok? ==>
                      && result == Ok(Some(s.outcome))
                      && file == old(file)[..|old(file)| - s.discarded]
                      && records == s.records && lastSequence == LastSequence(records) && recordCount == |records|)
                && exists_
      ensures result.Err? ==> exists_ && file == old(file)
    {
      hide Scan, FileHeader, FileOf, Writes, ValidateHeader;
      HeaderLength();
      if !exists_ {
        exists_, file := true, FileHeader();
        var started := RestartSegment(1);
        return Ok(None);
      }
      OnlyTheWrittenHeader(file);
      if ValidateHeader(file).Err? { return Err(NotOpenable); }
      var found, outcome, discarded := ScanInto(true);
      if outcome == Corrupted { return Err(CorruptJournal); }
      lastSequence := if found == [] then 0 else found[|found| - 1].sequence;
      recordCount := |found|;
      records := found;
      result := Ok(Some(outcome));
    }

    /** Opening any prefix of a written segment, header included, succeeds: the records wholly before the cut are
        kept, and the file is a written segment again. */
    method Recover(ghost written: seq<JournalRecord>, ghost cut: nat) returns (result: Result<Option<Outcome>, Error>)
      requires SmallEnough() && exists_ && Writes(written, maxRecordBytes)
      requires FILE_HEADER <= cut <= |FileOf(written)| && file == FileOf(written)[..cut]
      modifies this
      ensures result.Ok? && Valid() && records <= written
      ensures |FileOf(records)| <= cut
      ensures records != written ==> cut < |FileOf(records + [written[|records|]])|
    {
      hide Scan, EncodeAll, FileHeader;
      assert file == FileHeader() + EncodeAll(written)[..cut - FILE_HEADER];
      assert file[FILE_HEADER..] == EncodeAll(written)[..cut - FILE_HEADER];
      PrefixRecovery(written, cut - FILE_HEADER, maxRecordBytes, None);
      ghost var s := Scan(file[FILE_HEADER..], maxRecordBytes, None);
      ghost var was := file;
      result := Open();
      PrefixWrites(written, s.records, maxRecordBytes);
      EncodePrefix(written, s.records);
      assert file == FileHeader() + EncodeAll(written)[..|EncodeAll(s.records)|];
    }

    static lemma PrefixWrites(rs: seq<JournalRecord>, p: seq<JournalRecord>, max: nat)
      requires Writes(rs, max) && p <= rs
      ensures Writes(p, max)
    {
      forall r | r in p ensures Writable(r, max) {
        assert r in rs;
      }
      forall i | 0 < i < |p| ensures p[i].sequence == p[i - 1].sequence + 1 {
        assert rs[i].sequence == rs[i - 1].sequence + 1;
      }
    }

    static lemma EncodePrefix(rs: seq<JournalRecord>, p: seq<JournalRecord>)
      requires p <= rs
      ensures EncodeAll(p) <= EncodeAll(rs)
    {
      EncodeSplit(rs, |p|);
      assert rs[..|p|] == p;
    }
  }
}
