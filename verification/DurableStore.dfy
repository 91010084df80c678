/** The store as the class the agent and the controller hold (class DurableStore, include/cf/store.hpp:85-212). */
module DurableStore {
  import opened Prelude
  import opened LittleEndian
  import opened JournalFormat
  import opened Journal
  import SnapshotFile
  import opened StoreModel
  import StoreRuns

  class DurableStore<S(!new)> {
    const codec: Codec<S>
    const journal: Journal
    var state: S
    var slots: SnapshotFile.Slots

    ghost function OnDisk(): Disk
      reads this, journal
    {
      Disk(if journal.exists_ then Some(journal.file) else None, slots)
    }

    ghost function Running(): Proc<S>
      reads this, journal
    {
      Proc(state, journal.lastSequence)
    }

    /** The journal is open for appending. */
    ghost predicate Ready()
      reads this, journal
    {
      journal.Valid() && journal.maxRecordBytes == MAX
    }

    /** A store directory as found, not yet opened. */
    constructor (codec: Codec<S>, journalFile: Option<Bytes>, slots: SnapshotFile.Slots)
      ensures this.codec == codec && OnDisk() == Disk(journalFile, slots) && journal.maxRecordBytes == MAX
      ensures fresh(journal)
    {
      this.codec := codec;
      this.slots := slots;
      state := codec.initial;
      journal := new Journal(MAX, journalFile.Some?, if journalFile.Some? then journalFile.value else []);
    }

    /** `open`: the newest readable snapshot, then the journal records it does not cover. */
    method Open() returns (result: Result<(), Refusal>)
      requires journal.maxRecordBytes == MAX
      modifies this, journal
      ensures OnDisk() == Run(old(OnDisk()), OpenOf(codec, old(OnDisk())).effects)
      ensures match OpenOf(codec, old(OnDisk())).result
              case Ok(p) => result.Ok? && Running() == p
              case Err(e) => result == Err(e)
    {
      hide Scan, FileHeader, Creation, Encode, EncodeAll, Replay, SegmentStart, SnapshotFile.Read;
      ghost var d := OnDisk();
      assert Run(d, []) == d;
      var best := SnapshotFile.LoadBest(slots, MAX_SNAPSHOT);
      var covered: u64 := 0;
      var s := codec.initial;
      if best.Some? {
        var decoded := codec.decode(best.value.1.payload);
        if decoded.None? { return Err(SnapshotUndecodable); }
        s, covered := decoded.value, best.value.1.covered;
      }
      var records, ok := OpenJournal();
      if !ok { return Err(JournalUnreadable); }
      var base := FindBase(records);
      if base.Err? { return Err(base.error); }
      if base.value > Next64(covered) { return Err(Gap); }
      var t := ReplayRecords(s, records, covered);
      if t.None? { return Err(ReplayFailed); }
      state := t.value;
      result := Ok(());
    }

    /** Opens the journal file and reads its records back. */
    method OpenJournal() returns (records: seq<JournalRecord>, ok: bool)
      requires journal.maxRecordBytes == MAX
      modifies journal
      ensures journal.maxRecordBytes == MAX
      ensures ok ==> OnDisk() == Run(old(OnDisk()), JournalEffects(old(OnDisk())))
      ensures !ok ==> OnDisk() == old(OnDisk())
      ensures match old(OnDisk()).journal
              case None => ok && records == [SegmentStart(1)]
              case Some(f) =>
                && (ok <==> FileHeader() <= f && Scan(f[FILE_HEADER..], MAX, None).outcome != Corrupted)
                && (ok ==> records == Scan(f[FILE_HEADER..], MAX, None).records)
      ensures ok ==> journal.lastSequence == LastSequence(records)
    {
      hide Scan, FileHeader, Creation, Encode, EncodeAll, SegmentStart, FileOf, Run, JournalEffects;
      ghost var d := OnDisk();
      if d.journal.None? {
        CreatedFile(d);
      } else if FileHeader() <= journal.file && Scan(journal.file[FILE_HEADER..], MAX, None).outcome != Corrupted {
        TrimmedFile(d);
      }
      var started := journal.Open();
      if started.Err? { return [], false; }
      var found, outcome, discarded := journal.ScanInto(false);
      records, ok := found, true;
    }

    /** What `JournalEffects` leaves, and that reading it back finds the same records. */
    static lemma CreatedFile(d: Disk)
      requires d.journal.None?
      ensures Run(d, JournalEffects(d)) == d.(journal := Some(FileOf([SegmentStart(1)])))
      ensures FileHeader() <= FileOf([SegmentStart(1)])
      ensures Scan(FileOf([SegmentStart(1)])[FILE_HEADER..], MAX, None) == Scanned([SegmentStart(1)], Clean, 0)
      ensures LastSequence([SegmentStart(1)]) == 1
    {
      hide Scan, FileHeader, Creation, Encode, EncodeAll, SegmentStart, Run;
      StoreRuns.CreationSteps(d);
      StoreRuns.HeaderLength();
      StoreRuns.StartFields(1);
      Started(1, MAX);
      WholeRecovery([SegmentStart(1)], MAX, None);
      assert FileOf([SegmentStart(1)])[FILE_HEADER..] == EncodeAll([SegmentStart(1)]);
    }

    static lemma TrimmedFile(d: Disk)
      requires d.journal.Some? && FileHeader() <= d.journal.value && |d.journal.value| >= FILE_HEADER
      requires Scan(d.journal.value[FILE_HEADER..], MAX, None).outcome != Corrupted
      ensures var f := d.journal.value;
              var s := Scan(f[FILE_HEADER..], MAX, None);
              var kept := f[..|f| - s.discarded];
              && Run(d, JournalEffects(d)) == d.(journal := Some(kept))
              && FileHeader() <= kept
              && Scan(kept[FILE_HEADER..], MAX, None) == Scanned(s.records, Clean, 0)
    {
      hide Scan, FileHeader, Run, JournalEffects;
      var f := d.journal.value;
      StoreRuns.HeaderLength();
      StoreRuns.JournalEffectsOf(d);
      StoreRuns.OnlyTornTailsDiscard(f[FILE_HEADER..], MAX, None);
      TruncatedRescans(f[FILE_HEADER..], MAX, None);
      var s := Scan(f[FILE_HEADER..], MAX, None);
      var kept := f[..|f| - s.discarded];
      StoreRuns.OneEffect(d, TruncateJournal(|f| - s.discarded));
      assert kept[FILE_HEADER..] == f[FILE_HEADER..][..|f[FILE_HEADER..]| - s.discarded];
      assert s.discarded == 0 ==> kept == f;
    }

    /** The search for the first segment start. */
    method FindBase(records: seq<JournalRecord>) returns (base: Result<u64, Refusal>)
      ensures base == ReadBase(records)
    {
      hide Load64;
      for i := 0 to |records|
        invariant ReadBase(records) == ReadBase(records[i..])
      {
        assert records[i..][0] == records[i] && records[i..][1..] == records[i + 1..];
        if records[i].kind == SEGMENT_START {
          if |records[i].payload| != 8 { return Err(MalformedSegmentStart); }
          var value := Load64(records[i].payload);
          return if value == 0 then Err(NoSegmentStart) else Ok(value);
        }
      }
      base := Err(NoSegmentStart);
    }

    /** The replay loop. */
    method ReplayRecords(s: S, records: seq<JournalRecord>, covered: u64) returns (t: Option<S>)
      ensures t == Replay(codec, s, records, covered)
    {
      var current := s;
      for i := 0 to |records|
        invariant Replay(codec, s, records, covered) == Replay(codec, current, records[i..], covered)
      {
        assert records[i..][0] == records[i] && records[i..][1..] == records[i + 1..];
        if records[i].kind != SEGMENT_START && records[i].sequence > covered {
          var applied := codec.apply(current, records[i].kind, records[i].payload);
          if applied.None? { return None; }
          current := applied.value;
        }
      }
      t := Some(current);
    }

    /** `commit`: applied in memory, then appended. */
    method Commit(kind: u32, payload: Bytes) returns (ok: bool)
      requires Ready()
      modifies this, journal
      ensures Ready()
      ensures var o := CommitOf(codec, old(Running()), kind, payload);
              ok == o.ok && Running() == o.proc && OnDisk() == Run(old(OnDisk()), o.effects)
    {
      hide Encode, FileOf, Writes, Run;
      ghost var d := OnDisk();
      StoreRuns.NoEffects(d);
      if |payload| > journal.maxRecordBytes { return false; }
      var applied := codec.apply(state, kind, payload);
      if applied.None? { return false; }
      state := applied.value;
      ghost var r := JournalRecord(kind, Next64(journal.lastSequence), payload);
      EncodeSnoc(journal.records, r);
      StoreRuns.OneEffect(d, AppendJournal(Encode(r)));
      var appended := journal.Append(kind, payload);
      ok := appended.Ok?;
    }

    /** `compact`: the snapshot first, then the journal starts again behind it. */
    method Compact() returns (ok: bool)
      requires Ready()
      modifies this, journal
      ensures Ready()
      ensures var o := CompactOf(codec, old(OnDisk()), old(Running()));
              ok == o.ok && Running() == o.proc && OnDisk() == Run(old(OnDisk()), o.effects)
    {
      hide Encode, Writes, Run, SegmentStart, FileHeader, EncodeAll, SnapshotFile.Encode, SnapshotFile.Target;
      ghost var d := OnDisk();
      StoreRuns.NoEffects(d);
      var encoded := codec.encode(state);
      if encoded.None? || |encoded.value| > MAX_SNAPSHOT { return false; }
      var covered := journal.lastSequence;
      var which := SnapshotFile.Target(slots, MAX_SNAPSHOT);
      slots := SnapshotFile.Put(slots, which, SnapshotFile.Encode(covered, encoded.value));
      ghost var write := WriteSlot(which, SnapshotFile.Encode(covered, encoded.value));
      StoreRuns.OneEffect(d, write);
      ghost var append := AppendJournal(Encode(SegmentStart(Next64(covered))));
      StoreRuns.ThreeEffects(d, write, TruncateJournal(FILE_HEADER), append);
      StoreRuns.HeaderLength();
      assert journal.file[..FILE_HEADER] == FileHeader();
      if Next64(covered) != 0 { Started(Next64(covered), MAX); }
      var restarted := journal.RestartSegment(Next64(covered));
      ok := restarted.Ok?;
    }
  }
}
