/** The two-slot snapshot file (class SnapshotFile, src/journal.cpp:610-727). */
module SnapshotFile {
  import opened Prelude
  import opened LittleEndian
  import opened Crc32c
  import opened Words

  const MAGIC: u32 := 0x31534643
  const FORMAT_VERSION: u16 := 1
  const HEADER: nat := 28
  const MAX_SNAPSHOT_BYTES: nat := 64 * 1024 * 1024

  /** The 24 bytes the header checksum covers. */
  function Fields(covered: u64, payload: Bytes): (f: Bytes)
    ensures |f| == 24
  {
    Store32(MAGIC) + Store16(FORMAT_VERSION) + Store16(0) + Store64(covered) + Store32(|payload| % U32_LIMIT)
    + Store32(if payload == [] then 0 else Checksum(payload))
  }

  function Encode(covered: u64, payload: Bytes): (e: Bytes)
    ensures |e| == HEADER + |payload|
  {
    Fields(covered, payload) + Store32(Checksum(Fields(covered, payload))) + payload
  }

  datatype Loaded = Loaded(covered: u64, payload: Bytes)

  /** The checks one slot passes before it is believed. */
  function Read(record: Bytes, maxBytes: nat): Option<Loaded> {
    if |record| < HEADER then None
    else if Load32(record[..4]) != MAGIC then None
    else if Load16(record[4..6]) != FORMAT_VERSION then None
    else if Checksum(record[..24]) != Load32(record[24..28]) then None
    else if Load32(record[16..20]) > maxBytes then None
    else if |record| != HEADER + Load32(record[16..20]) then None
    else if Checksum(record[HEADER..]) != Load32(record[20..24]) then None
    else Some(Loaded(Load64(record[8..16]), record[HEADER..]))
  }

  lemma EmptyChecksum()
    ensures Checksum([]) == 0
  {
    hide Register;
    assert Xor(ONES, ONES) == Falses(32);
    ZeroRegister(32);
    Zero();
  }

  lemma Zero()
    ensures Value(Falses(32)) == 0 ==> Register(Falses(32)) == 0
  {
  }

  lemma {:induction false} ZeroRegister(n: nat)
    ensures Value(Falses(n)) == 0
  {
    if n > 0 {
      ZeroRegister(n - 1);
      assert Falses(n)[1..] == Falses(n - 1);
    }
  }

  lemma EncodedFields(covered: u64, payload: Bytes)
    ensures var e := Encode(covered, payload);
            var sum := if payload == [] then 0 else Checksum(payload);
            && e[..24] == Fields(covered, payload) && e[24..28] == Store32(Checksum(Fields(covered, payload))) && e[28..] == payload
            && e[..4] == Store32(MAGIC) && e[4..6] == Store16(FORMAT_VERSION) && e[6..8] == Store16(0)
            && e[8..16] == Store64(covered) && e[16..20] == Store32(|payload| % U32_LIMIT) && e[20..24] == Store32(sum)
  {
    hide Store16, Store32, Store64, Checksum;
    var e, f := Encode(covered, payload), Fields(covered, payload);
    assert e[..24] == f;
    assert e[..4] == f[..4] && e[4..6] == f[4..6] && e[6..8] == f[6..8] && e[8..16] == f[8..16] && e[16..20] == f[16..20] && e[20..24] == f[20..24];
  }

  /** What was written is read back. */
  lemma ReadEncoded(covered: u64, payload: Bytes, maxBytes: nat)
    requires |payload| <= maxBytes < U32_LIMIT
    ensures Read(Encode(covered, payload), maxBytes) == Some(Loaded(covered, payload))
  {
    hide Store16, Store32, Store64, Load16, Load32, Load64, Checksum, Encode, Fields;
    EncodedFields(covered, payload);
    var sum := if payload == [] then 0 else Checksum(payload);
    EmptyChecksum();
    RoundTrip32(MAGIC);
    RoundTrip16(FORMAT_VERSION);
    RoundTrip32(Checksum(Fields(covered, payload)));
    RoundTrip64(covered);
    RoundTrip32(|payload|);
    RoundTrip32(sum);
  }

  lemma OneByteChanged(c: Bytes, d: Bytes, j: nat)
    requires |c| == |d| && j < |c| && c[j] != d[j]
    requires forall i :: 0 <= i < |c| && i != j ==> c[i] == d[i]
    ensures Checksum(c) != Checksum(d)
  {
    hide Checksum;
    assert c == c[..j] + [c[j]] + c[j + 1..];
    assert d == c[..j] + [d[j]] + c[j + 1..];
    BurstDetected(c[..j], [c[j]], [d[j]], c[j + 1..]);
  }

  /** One changed byte anywhere makes a slot unreadable, so a damaged snapshot is never believed. */
  lemma DamagedSlotIsRefused(covered: u64, payload: Bytes, maxBytes: nat, k: nat, x: byte)
    requires |payload| <= maxBytes < U32_LIMIT && k < |Encode(covered, payload)| && x != Encode(covered, payload)[k]
    ensures Read(Encode(covered, payload)[k := x], maxBytes) == None
  {
    hide Store16, Store32, Store64, Load16, Load32, Load64, Checksum, Encode, Fields;
    EncodedFields(covered, payload);
    var e := Encode(covered, payload);
    var d := e[k := x];
    RoundTrip32(Checksum(Fields(covered, payload)));
    if k < 24 {
      OneByteChanged(e[..24], d[..24], k);
      assert d[24..28] == e[24..28];
    } else if k < 28 {
      assert d[..24] == e[..24] && d[24..28][k - 24] != e[24..28][k - 24];
      Again32(d[24..28]);
    } else {
      RoundTrip32(Checksum(payload));
      OneByteChanged(e[28..], d[28..], k - 28);
      assert d[20..24] == e[20..24];
    }
  }

  // ---- Two slots ----

  datatype Slots = Slots(a: Option<Bytes>, b: Option<Bytes>)

  datatype Which = A | B

  function ReadSlot(file: Option<Bytes>, maxBytes: nat): Option<Loaded> {
    match file
    case None => None
    case Some(bytes) => Read(bytes, maxBytes)
  }

  /** `load`: the readable slot that covers most, the first on a tie. */
  function Load(s: Slots, maxBytes: nat): (r: Option<(Which, Loaded)>)
    ensures r.None? <==> ReadSlot(s.a, maxBytes).None? && ReadSlot(s.b, maxBytes).None?
    ensures r.Some? ==> ReadSlot(if r.value.0 == A then s.a else s.b, maxBytes) == Some(r.value.1)
    ensures forall slot :: slot in [s.a, s.b] && ReadSlot(slot, maxBytes).Some? ==>
                             r.Some? && ReadSlot(slot, maxBytes).value.covered <= r.value.1.covered
  {
    match (ReadSlot(s.a, maxBytes), ReadSlot(s.b, maxBytes))
    case (None, None) => None
    case (Some(l), None) => Some((A, l))
    case (None, Some(l)) => Some((B, l))
    case (Some(l), Some(m)) => if m.covered > l.covered then Some((B, m)) else Some((A, l))
  }

  /** `write` picks the slot that does not hold the newest readable snapshot. */
  function Target(s: Slots, maxBytes: nat): Which {
    var best := Load(s, maxBytes);
    if best.Some? && best.value.0 == A then B else A
  }

  function Put(s: Slots, which: Which, content: Bytes): Slots {
    match which
    case A => s.(a := Some(content))
    case B => s.(b := Some(content))
  }

  /** Writing never touches the newest readable snapshot, and the new one is the newest if it covers at least as much. */
  lemma WriteKeepsTheNewest(s: Slots, covered: u64, payload: Bytes, maxBytes: nat)
    requires |payload| <= maxBytes < U32_LIMIT
    ensures var after := Put(s, Target(s, maxBytes), Encode(covered, payload));
            && (Load(s, maxBytes).Some? ==>
                  ReadSlot(if Load(s, maxBytes).value.0 == A then after.a else after.b, maxBytes) == Some(Load(s, maxBytes).value.1))
            && Load(after, maxBytes).Some?
            && (Load(s, maxBytes).None? || Load(s, maxBytes).value.1.covered < covered ==>
                  Load(after, maxBytes).value.1 == Loaded(covered, payload))
            && (Load(s, maxBytes).None? || Load(s, maxBytes).value.1.covered <= covered ==>
                  Load(after, maxBytes).value.1.covered == covered)
  {
    hide Encode, Read;
    ReadEncoded(covered, payload, maxBytes);
  }

  /** The loop of `load` over the two slots. */
  method LoadBest(s: Slots, maxBytes: nat) returns (best: Option<(Which, Loaded)>)
    ensures best == Load(s, maxBytes)
  {
    hide Read;
    best := None;
    var order := [A, B];
    for i := 0 to 2
      invariant i == 0 ==> best == None
      invariant i == 1 ==> best == if ReadSlot(s.a, maxBytes).Some? then Some((A, ReadSlot(s.a, maxBytes).value)) else None
      invariant i == 2 ==> best == Load(s, maxBytes)
    {
      var loaded := ReadSlot(if order[i] == A then s.a else s.b, maxBytes);
      if loaded.Some? && (best.None? || loaded.value.covered > best.value.1.covered) {
        best := Some((order[i], loaded.value));
      }
    }
  }
}
