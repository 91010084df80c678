/** Whole runs of the artifact store: operations, crashes inside them, reopening, and payloads that rot. */
module ArtifactRuns {
  import opened Prelude
  import opened AgentState
  import opened ArtifactIndex
  import opened ArtifactModel

  ghost predicate Injective(lim: Limits) {
    forall a, b :: lim.hash(a) == lim.hash(b) ==> a == b
  }

  /** Some content of this size has this digest. */
  ghost predicate Genuine(lim: Limits, d: Digest, size: nat) {
    size <= lim.maxArtifactBytes && exists c :: lim.hash(c) == d && |c| == size
  }

  ghost predicate DiskGood(lim: Limits, k: Disk) {
    && Named(k)
    && (forall d :: d in k.meta ==> Genuine(lim, d, k.meta[d].sizeBytes))
    && |IndexOf(k)| <= lim.maxArtifacts && Total(IndexOf(k)) <= lim.maxTotalBytes
  }

  datatype State = State(disk: Disk, store: Store)

  /** The index in memory is exactly the one reopening would rebuild, within both budgets. */
  ghost predicate Good(lim: Limits, st: State) {
    DiskGood(lim, st.disk) && st.store.index == IndexOf(st.disk) && st.store.used == Total(st.store.index)
  }

  ghost predicate Room(lim: Limits, k: Disk, size: nat)
    requires Named(k)
  {
    |IndexOf(k)| < lim.maxArtifacts && Total(IndexOf(k)) + size <= lim.maxTotalBytes
  }

  /** What an effect needs of the disk: a payload appears under its own digest, in a place not in use, and there is room. */
  ghost predicate Admits(lim: Limits, k: Disk, e: Effect)
    requires Named(k)
  {
    match e
    case PublishPayload(n, d) =>
      && n in k.staging && lim.hash(k.staging[n]) == d && |k.staging[n]| <= lim.maxArtifactBytes
      && Entry(k, d) == None && Room(lim, k, |k.staging[n]|)
    case WriteMetadata(d, m) =>
      && m.digest == d && Genuine(lim, d, m.sizeBytes)
      && (Entry(k, d) == None ==> Room(lim, k, m.sizeBytes))
    case _ => true
  }

  function Subject(e: Effect): Digest {
    match e
    case WriteStaging(_, _) => NO_DIGEST
    case RemoveStaging(_) => NO_DIGEST
    case PublishPayload(_, d) => d
    case WriteMetadata(d, _) => d
    case RemoveMetadata(d) => d
    case RemovePayload(d) => d
    case RemoveCorrupt(d) => d
    case SetAside(d) => d
  }

  lemma OthersStay(k: Disk, e: Effect)
    ensures forall x :: x != Subject(e) ==> Entry(Do(k, e), x) == Entry(k, x)
    ensures (e.WriteStaging? || e.RemoveStaging? || e.RemoveCorrupt?) ==> forall x :: Entry(Do(k, e), x) == Entry(k, x)
  {
  }

  lemma FindInIndex(k: Disk, d: Digest)
    requires Named(k)
    ensures Find(IndexOf(k), d) == Entry(k, d)
  {
    hide Rebuilt, IndexOf, LowerBound, Less, Find;
    var index := IndexOf(k);
    FindIff(index, d);
    match Entry(k, d)
    case Some(m) => assert m in index;
    case None =>
      forall m | m in index ensures m.digest != d {
        assert Entry(k, m.digest) == Some(m);
      }
      Absent(index, d);
  }

  /** A disk that changes in one digest has its index changed in that entry. */
  lemma IndexChanges(k: Disk, k': Disk, d: Digest)
    requires Named(k) && Named(k') && forall x :: x != d ==> Entry(k', x) == Entry(k, x)
    ensures IndexOf(k') == Replace(IndexOf(k), d, Entry(k', d))
    ensures Total(IndexOf(k')) + Size(Entry(k, d)) == Total(IndexOf(k)) + Size(Entry(k', d))
    ensures |IndexOf(k')| + Count(Entry(k, d)) == |IndexOf(k)| + Count(Entry(k', d))
  {
    hide Rebuilt, LowerBound, Less, Find, Replace;
    var index := IndexOf(k);
    FindInIndex(k, d);
    ReplaceSound(index, d, Entry(k', d));
    ReplaceTotal(index, d, Entry(k', d));
    hide IndexOf;
    forall m ensures m in Replace(index, d, Entry(k', d)) <==> Entry(k', m.digest) == Some(m) {
      assert Entry(k', d).Some? ==> Entry(k', d).value.digest == d;
    }
    IndexIsUnique(Replace(index, d, Entry(k', d)), k');
  }

  lemma SizeIsDetermined(lim: Limits, d: Digest, a: nat, b: nat)
    requires Injective(lim) && Genuine(lim, d, a) && Genuine(lim, d, b)
    ensures a == b
  {
    var x :| lim.hash(x) == d && |x| == a;
    var y :| lim.hash(y) == d && |y| == b;
    assert x == y;
  }

  lemma HasGenuineSize(lim: Limits, c: Bytes)
    requires |c| <= lim.maxArtifactBytes
    ensures Genuine(lim, lim.hash(c), |c|)
  {
  }

  lemma EffectKeeps(lim: Limits, k: Disk, e: Effect)
    requires Injective(lim) && DiskGood(lim, k) && Admits(lim, k, e)
    ensures DiskGood(lim, Do(k, e))
  {
    hide Injective, Genuine, IndexOf, Replace;
    var k', d := Do(k, e), Subject(e);
    OthersStay(k, e);
    assert Named(k');
    IndexChanges(k, k', d);
    match e
    case PublishPayload(n, _) =>
      HasGenuineSize(lim, k.staging[n]);
      if d in k.meta { SizeIsDetermined(lim, d, k.meta[d].sizeBytes, |k.staging[n]|); }
    case WriteMetadata(_, m) =>
      if d in k.meta { SizeIsDetermined(lim, d, k.meta[d].sizeBytes, m.sizeBytes); }
    case _ =>
  }

  ghost predicate AdmitsAll(lim: Limits, k: Disk, es: seq<Effect>)
    decreases |es|
  {
    es == [] || (Named(k) && Admits(lim, k, es[0]) && AdmitsAll(lim, Do(k, es[0]), es[1..]))
  }

  /** However far the effects get, the disk stays good. */
  lemma {:induction false} PrefixKeeps(lim: Limits, k: Disk, es: seq<Effect>, n: nat)
    requires Injective(lim) && DiskGood(lim, k) && AdmitsAll(lim, k, es) && n <= |es|
    ensures DiskGood(lim, DoAll(k, es[..n]))
    decreases |es|
  {
    hide Injective, Admits, Do, IndexOf;
    if n > 0 {
      EffectKeeps(lim, k, es[0]);
      PrefixKeeps(lim, Do(k, es[0]), es[1..], n - 1);
      assert es[..n][1..] == es[1..][..n - 1];
    }
  }

  // ---- Each operation ----

  /** Erasing an entry whose files stop being complete keeps memory and disk in step. */
  lemma EraseKeeps(lim: Limits, st: State, k': Disk, d: Digest)
    requires Good(lim, st) && DiskGood(lim, k') && Entry(k', d) == None
    requires forall x :: x != d ==> Entry(k', x) == Entry(st.disk, x)
    ensures Good(lim, State(k', Erase(st.store, d)))
  {
    hide Replace, Find, IndexOf, Rebuilt, Total, Genuine;
    FindInIndex(st.disk, d);
    IndexChanges(st.disk, k', d);
    if Find(st.store.index, d) == None { IndexChanges(st.disk, st.disk, d); }
  }

  ghost predicate Fine(lim: Limits, st: State, p: Plan) {
    AdmitsAll(lim, st.disk, p.effects) && Good(lim, State(DoAll(st.disk, p.effects), p.store))
  }

  lemma TwoEffects(lim: Limits, k: Disk, a: Effect, b: Effect)
    ensures DoAll(k, [a, b]) == Do(Do(k, a), b)
    ensures Named(k) && Admits(lim, k, a) && Named(Do(k, a)) && Admits(lim, Do(k, a), b) ==> AdmitsAll(lim, k, [a, b])
  {
    hide Admits, Do;
    assert [a, b][1..] == [b];
    assert DoAll(Do(k, a), [b]) == DoAll(Do(Do(k, a), b), []);
    assert Named(Do(k, a)) && Admits(lim, Do(k, a), b) ==> AdmitsAll(lim, Do(k, a), [b]);
  }

  lemma VerifyFine(lim: Limits, st: State, d: Digest)
    requires Injective(lim) && Good(lim, st)
    ensures Fine(lim, st, VerifyPlan(lim, st.disk, st.store, d))
  {
    hide Injective, Genuine, IndexOf, Replace, Find, Erase, Total;
    if IsCorrupt(Check(lim, st.disk, st.store, d)) {
      var k1 := Do(st.disk, RemoveCorrupt(d));
      var k2 := Do(k1, SetAside(d));
      EffectKeeps(lim, st.disk, RemoveCorrupt(d));
      EffectKeeps(lim, k1, SetAside(d));
      OthersStay(st.disk, RemoveCorrupt(d));
      OthersStay(k1, SetAside(d));
      EraseKeeps(lim, st, k2, d);
      TwoEffects(lim, st.disk, RemoveCorrupt(d), SetAside(d));
    }
  }

  lemma {:induction false} CollectFine(lim: Limits, st: State, ds: seq<Digest>)
    requires Injective(lim) && Good(lim, st)
    ensures Fine(lim, st, Plan(Removals(ds), EraseEach(st.store, ds), Accepted))
    decreases |ds|
  {
    hide Injective, Genuine, IndexOf, Replace, Find, Erase, Total;
    if ds != [] {
      var d, es := ds[0], Removals(ds[1..]);
      var a, b := RemovePayload(d), RemoveMetadata(d);
      var k1 := Do(st.disk, a);
      var k2 := Do(k1, b);
      EffectKeeps(lim, st.disk, a);
      EffectKeeps(lim, k1, b);
      OthersStay(st.disk, a);
      OthersStay(k1, b);
      EraseKeeps(lim, st, k2, d);
      CollectFine(lim, State(k2, Erase(st.store, d)), ds[1..]);
      hide Do, Good, DiskGood, Admits;
      assert Named(st.disk) && Admits(lim, st.disk, a) && Named(k1) && Admits(lim, k1, b);
      Prepend2(lim, st.disk, a, b, es);
    }
  }

  lemma Prepend2(lim: Limits, k: Disk, a: Effect, b: Effect, es: seq<Effect>)
    ensures DoAll(k, [a, b] + es) == DoAll(Do(Do(k, a), b), es)
    ensures Named(k) && Admits(lim, k, a) && Named(Do(k, a)) && Admits(lim, Do(k, a), b) && AdmitsAll(lim, Do(Do(k, a), b), es)
            ==> AdmitsAll(lim, k, [a, b] + es)
  {
    hide Admits, Do;
    assert ([a, b] + es)[1..] == [b] + es;
    assert ([b] + es)[1..] == es;
    assert DoAll(Do(k, a), [b] + es) == DoAll(Do(Do(k, a), b), es);
    assert Named(Do(k, a)) && Admits(lim, Do(k, a), b) && AdmitsAll(lim, Do(Do(k, a), b), es) ==> AdmitsAll(lim, Do(k, a), [b] + es);
  }

  /** Staging files are no part of what the index describes. */
  lemma StagingKeeps(lim: Limits, st: State, e: Effect)
    requires Injective(lim) && Good(lim, st) && (e.WriteStaging? || e.RemoveStaging?)
    ensures Good(lim, State(Do(st.disk, e), st.store)) && Admits(lim, st.disk, e)
  {
    hide Injective, Genuine, IndexOf, Total;
    EffectKeeps(lim, st.disk, e);
    OthersStay(st.disk, e);
    IndexIsUnique(IndexOf(st.disk), Do(st.disk, e));
  }

  lemma StagedFirst(lim: Limits, st: State, e: Effect, p: Plan)
    requires Injective(lim) && Good(lim, st) && (e.WriteStaging? || e.RemoveStaging?)
    requires Fine(lim, State(Do(st.disk, e), st.store), p)
    ensures Fine(lim, st, p.(effects := [e] + p.effects))
  {
    hide Injective, Genuine, IndexOf, Total, Do;
    StagingKeeps(lim, st, e);
    assert ([e] + p.effects)[1..] == p.effects;
  }

  lemma NothingFine(lim: Limits, st: State, o: Outcome)
    requires Good(lim, st)
    ensures Fine(lim, st, Plan([], st.store, o))
  {
  }

  ghost predicate Publishable(lim: Limits, st: State, name: Id, m: Metadata) {
    && Good(lim, st) && name in st.disk.staging && lim.hash(st.disk.staging[name]) == m.digest
    && |st.disk.staging[name]| == m.sizeBytes <= lim.maxArtifactBytes
    && Entry(st.disk, m.digest) == None && Room(lim, st.disk, m.sizeBytes)
  }

  lemma PayloadFirst(lim: Limits, st: State, name: Id, m: Metadata)
    requires Injective(lim) && Publishable(lim, st, name, m)
    ensures Admits(lim, st.disk, PublishPayload(name, m.digest)) && DiskGood(lim, Do(st.disk, PublishPayload(name, m.digest)))
    ensures Admits(lim, Do(st.disk, PublishPayload(name, m.digest)), WriteMetadata(m.digest, m))
  {
    var a := PublishPayload(name, m.digest);
    var k1 := Do(st.disk, a);
    HasGenuineSize(lim, st.disk.staging[name]);
    hide Injective, IndexOf, Total, Genuine;
    EffectKeeps(lim, st.disk, a);
    OthersStay(st.disk, a);
    if Entry(k1, m.digest) == None { IndexChanges(st.disk, k1, m.digest); }
  }

  lemma ThenMetadata(lim: Limits, st: State, name: Id, m: Metadata)
    requires Injective(lim) && Publishable(lim, st, name, m)
    ensures var k2 := Do(Do(st.disk, PublishPayload(name, m.digest)), WriteMetadata(m.digest, m));
            && Entry(k2, m.digest) == Some(m) && (forall x :: x != m.digest ==> Entry(k2, x) == Entry(st.disk, x))
            && DiskGood(lim, k2)
  {
    var a, b := PublishPayload(name, m.digest), WriteMetadata(m.digest, m);
    var k1 := Do(st.disk, a);
    PayloadFirst(lim, st, name, m);
    OthersStay(st.disk, a);
    OthersStay(k1, b);
    EffectKeeps(lim, k1, b);
  }

  /** A new artifact: payload into place, then its metadata, then the index entry. */
  lemma PublishFine(lim: Limits, st: State, name: Id, m: Metadata)
    requires Injective(lim) && Publishable(lim, st, name, m)
    ensures Fine(lim, st, Plan([PublishPayload(name, m.digest), WriteMetadata(m.digest, m)],
                               Store(Replace(st.store.index, m.digest, Some(m)), st.store.used + m.sizeBytes), Accepted))
  {
    var a, b := PublishPayload(name, m.digest), WriteMetadata(m.digest, m);
    var k1 := Do(st.disk, a);
    var k2 := Do(k1, b);
    PayloadFirst(lim, st, name, m);
    ThenMetadata(lim, st, name, m);
    hide Injective, IndexOf, Total, Replace, Genuine, Do, Admits, Entry;
    IndexChanges(st.disk, k2, m.digest);
    TwoEffects(lim, st.disk, a, b);
  }

  lemma IngestFine(lim: Limits, st: State, name: Id, content: Bytes, declared: Metadata)
    requires Injective(lim) && Good(lim, st)
    ensures Fine(lim, st, IngestPlan(lim, st.disk, st.store, name, content, declared))
  {
    hide Injective, IndexOf, Rebuilt, Total, Replace, Good, DiskGood, Fine, Check, Erase;
    var p := IngestPlan(lim, st.disk, st.store, name, content, declared);
    if p.effects == [] {
      NothingFine(lim, st, p.outcome);
    } else {
      var staged := WriteStaging(name, content);
      var st1 := State(Do(st.disk, staged), st.store);
      var q := PublishPlan(lim, st1.disk, st.store, name, declared, declared.digest, |content|);
      StagingKeeps(lim, st, staged);
      PublishIsFine(lim, st1, name, declared, |content|);
      StagedFirst(lim, st, staged, q);
    }
  }

  lemma PublishIsFine(lim: Limits, st: State, name: Id, declared: Metadata, size: u64)
    requires Injective(lim) && Good(lim, st) && name in st.disk.staging && lim.hash(st.disk.staging[name]) == declared.digest
    requires |st.disk.staging[name]| == size <= lim.maxArtifactBytes
    ensures Fine(lim, st, PublishPlan(lim, st.disk, st.store, name, declared, declared.digest, size))
  {
    hide Injective, IndexOf, Rebuilt, Total, Replace, Fine, Erase;
    var d, m := declared.digest, Stored(declared, declared.digest, size);
    var p := PublishPlan(lim, st.disk, st.store, name, declared, d, size);
    FindInIndex(st.disk, d);
    if p.effects == [PublishPayload(name, d), WriteMetadata(d, m)] {
      PublishFine(lim, st, name, m);
    } else {
      var st1 := State(Do(st.disk, RemoveStaging(name)), st.store);
      StagingKeeps(lim, st, RemoveStaging(name));
      NothingFine(lim, st1, p.outcome);
      VerifyFine(lim, st1, d);
      var q := VerifyPlan(lim, st1.disk, st1.store, d);
      assert q == VerifyPlan(lim, st.disk, st.store, d);
      if Find(st.store.index, d).Some? && Encodable(m) {
        StagedFirst(lim, st, RemoveStaging(name), q);
      } else {
        assert p == Plan([RemoveStaging(name)] + [], st.store, p.outcome);
        StagedFirst(lim, st, RemoveStaging(name), Plan([], st.store, p.outcome));
      }
    }
  }

  // ---- Runs ----

  /** Anything that can befall the store: an operation, a crash after some of its effects, or a payload that rots. */
  datatype Event =
    | Whole(op: Operation)
    | Cut(op: Operation, after: nat)
    | Rot(digest: Digest, bytes: Bytes)

  lemma OperationFine(lim: Limits, st: State, op: Operation)
    requires Injective(lim) && Good(lim, st)
    ensures Fine(lim, st, PlanOf(lim, st.disk, st.store, op))
  {
    match op
    case Ingest(n, c, m) => IngestFine(lim, st, n, c, m);
    case Verify(d) => VerifyFine(lim, st, d);
    case Collect(live) => CollectFine(lim, st, Doomed(st.store.index, live));
  }

  /** What opening makes of a disk: leftover staging files go, and the index is read from the rest. */
  ghost function Reopened(lim: Limits, k: Disk): (st: State)
    requires DiskGood(lim, k)
    ensures Good(lim, st)
  {
    var k' := k.(staging := map[]);
    assert forall x :: Entry(k', x) == Entry(k, x);
    IndexIsUnique(IndexOf(k), k');
    State(k', Store(IndexOf(k'), Total(IndexOf(k'))))
  }

  ghost function Next(lim: Limits, st: State, e: Event): (st': State)
    requires Injective(lim) && Good(lim, st)
    ensures Good(lim, st')
  {
    match e
    case Whole(op) =>
      OperationFine(lim, st, op);
      var p := PlanOf(lim, st.disk, st.store, op);
      State(DoAll(st.disk, p.effects), p.store)
    case Cut(op, n) =>
      var es := PlanOf(lim, st.disk, st.store, op).effects;
      var reached := if n < |es| then n else |es|;
      OperationFine(lim, st, op);
      PrefixKeeps(lim, st.disk, es, reached);
      Reopened(lim, DoAll(st.disk, es[..reached]))
    case Rot(d, b) =>
      if d !in st.disk.payload then st
      else
        var k := st.disk.(payload := st.disk.payload[d := b]);
        assert forall x :: Entry(k, x) == Entry(st.disk, x);
        IndexIsUnique(IndexOf(st.disk), k);
        State(k, st.store)
  }

  ghost function Fresh(lim: Limits): (st: State)
    ensures Good(lim, st)
  {
    SortedIsUnique(IndexOf(EMPTY), []);
    State(EMPTY, Store([], 0))
  }

  ghost function Run(lim: Limits, es: seq<Event>): (st: State)
    requires Injective(lim)
    ensures Good(lim, st)
    decreases |es|
  {
    if es == [] then Fresh(lim) else Next(lim, Run(lim, es[..|es| - 1]), es[|es| - 1])
  }

  /** Conservation: in every run the index is strictly sorted, lists exactly the digests with both files on disk, counts
      their bytes exactly, and stays within both budgets; reopening at any moment would rebuild it as it is. */
  lemma Conservation(lim: Limits, es: seq<Event>)
    requires Injective(lim)
    ensures var st := Run(lim, es);
            && Sorted(st.store.index)
            && (forall m :: m in st.store.index <==>
                            m.digest in st.disk.meta && m.digest in st.disk.payload && st.disk.meta[m.digest] == m)
            && st.store.used == Total(st.store.index) <= lim.maxTotalBytes && |st.store.index| <= lim.maxArtifacts
            && (forall m :: m in st.store.index ==> m.sizeBytes <= lim.maxArtifactBytes)
            && Reopened(lim, st.disk).store == st.store
  {
    var st := Run(lim, es);
    assert forall m: Metadata :: Entry(st.disk, m.digest) == Some(m) <==>
                       m.digest in st.disk.meta && m.digest in st.disk.payload && st.disk.meta[m.digest] == m;
    assert forall x :: Entry(st.disk.(staging := map[]), x) == Entry(st.disk, x);
    IndexIsUnique(IndexOf(st.disk), st.disk.(staging := map[]));
  }

  // ---- Published payloads ----

  /** No effect puts a payload in the place of digest `d`. */
  predicate Spares(es: seq<Effect>, d: Digest) {
    forall i :: 0 <= i < |es| && es[i].PublishPayload? ==> es[i].digest != d
  }

  lemma {:induction false} SparedStays(k: Disk, es: seq<Effect>, d: Digest)
    requires Spares(es, d)
    ensures var k' := DoAll(k, es); d in k'.payload ==> d in k.payload && k'.payload[d] == k.payload[d]
    decreases |es|
  {
    if es != [] {
      SparedStays(Do(k, es[0]), es[1..], d);
    }
  }

  lemma {:induction false} RemovalsSpare(ds: seq<Digest>, d: Digest)
    ensures Spares(Removals(ds), d)
  {
    if ds != [] { RemovalsSpare(ds[1..], d); }
  }

  /** A published artifact is never overwritten: whatever operation runs and wherever it is cut, the payload of an
      indexed digest is the same bytes or gone. */
  lemma PublishedStays(lim: Limits, st: State, op: Operation, n: nat, d: Digest)
    requires Good(lim, st) && Find(st.store.index, d).Some?
    requires n <= |PlanOf(lim, st.disk, st.store, op).effects|
    ensures var k' := DoAll(st.disk, PlanOf(lim, st.disk, st.store, op).effects[..n]);
            d in k'.payload ==> d in st.disk.payload && k'.payload[d] == st.disk.payload[d]
  {
    hide Find, Check, Replace, Erase, Good;
    var es := PlanOf(lim, st.disk, st.store, op).effects;
    match op {
      case Collect(live) => RemovalsSpare(Doomed(st.store.index, live), d);
      case _ =>
    }
    assert Spares(es, d);
    SparedStays(st.disk, es[..n], d);
  }

  // ---- Verification ----

  ghost predicate Intact(lim: Limits, k: Disk) {
    forall d :: d in k.payload ==> lim.hash(k.payload[d]) == d
  }

  /** Verifying an indexed artifact succeeds exactly when its bytes are still there and it is not empty: even an intact
      empty artifact is called corrupt, because nothing is ever read of it. */
  lemma VerifyIff(lim: Limits, st: State, d: Digest, original: Bytes)
    requires Injective(lim) && Good(lim, st) && lim.hash(original) == d && d != NO_DIGEST
    ensures var k := st.disk;
            Check(lim, k, st.store, d) == Accepted <==>
              d in k.meta && d in k.payload && original <= k.payload[d] && original != []
    ensures Entry(st.disk, d).Some? && Check(lim, st.disk, st.store, d) != Accepted ==>
              Find(VerifyPlan(lim, st.disk, st.store, d).store.index, d) == None && IsCorrupt(Check(lim, st.disk, st.store, d))
  {
    FindInIndex(st.disk, d);
    if Entry(st.disk, d).Some? {
      var m, p := st.disk.meta[d], st.disk.payload[d];
      OriginalSize(lim, st, d, original);
      if |p| >= |original| { assert lim.hash(p[..|original|]) == d <==> p[..|original|] == original; }
      EraseForgets(st.store, d);
    }
  }

  lemma OriginalSize(lim: Limits, st: State, d: Digest, original: Bytes)
    requires Injective(lim) && Good(lim, st) && lim.hash(original) == d && d in st.disk.meta
    ensures st.disk.meta[d].sizeBytes == |original|
  {
    assert Genuine(lim, d, st.disk.meta[d].sizeBytes);
    var c :| lim.hash(c) == d && |c| == st.disk.meta[d].sizeBytes;
    assert c == original;
  }

  lemma EraseForgets(s: Store, d: Digest)
    requires Sorted(s.index)
    ensures Find(Erase(s, d).index, d) == None
  {
    hide Less, LowerBound, Replace;
    ReplaceSound(s.index, d, None);
    hide Find;
    Absent(Replace(s.index, d, None), d);
  }

  lemma {:induction false} PayloadsStay(k: Disk, es: seq<Effect>)
    requires forall i :: 0 <= i < |es| ==> es[i].WriteStaging? || es[i].RemoveStaging? || es[i].WriteMetadata?
    ensures DoAll(k, es).payload == k.payload
    decreases |es|
  {
    if es != [] { PayloadsStay(Do(k, es[0]), es[1..]); }
  }

  lemma ThreeEffects(k: Disk, a: Effect, b: Effect, c: Effect)
    ensures DoAll(k, [a] + [b, c]) == Do(Do(Do(k, a), b), c)
  {
    hide Do;
    OneEffect(k, a);
    OneEffect(Do(k, a), b);
    OneEffect(Do(Do(k, a), b), c);
    DoConcat(k, [a], [b, c]);
    assert [b, c] == [b] + [c];
    DoConcat(Do(k, a), [b], [c]);
  }

  lemma OneEffect(k: Disk, a: Effect)
    ensures DoAll(k, [a]) == Do(k, a)
  {
    hide Do;
    assert [a][1..] == [];
  }

  predicate Valid(lim: Limits, content: Bytes, declared: Metadata) {
    |content| == declared.sizeBytes <= lim.maxArtifactBytes && declared.digest == lim.hash(content)
  }

  /** Content already in the index is verified where it is. */
  lemma PresentShape(lim: Limits, k: Disk, s: Store, name: Id, content: Bytes, declared: Metadata)
    requires Valid(lim, content, declared) && Find(s.index, declared.digest).Some? && declared.digest in k.meta && Encodable(declared)
    ensures var v := VerifyPlan(lim, k, s, declared.digest);
            IngestPlan(lim, k, s, name, content, declared)
            == Plan([WriteStaging(name, content)] + ([RemoveStaging(name)] + v.effects), v.store, v.outcome)
  {
    hide Check, Find, Erase;
    CheckReadsPayloads(lim, k, Do(k, WriteStaging(name, content)), s, declared.digest);
  }

  /** Content not in the index is published when it is accepted. */
  lemma AbsentShape(lim: Limits, k: Disk, s: Store, name: Id, content: Bytes, declared: Metadata)
    requires IngestPlan(lim, k, s, name, content, declared).outcome == Accepted && Find(s.index, declared.digest) == None
    ensures var p := IngestPlan(lim, k, s, name, content, declared);
            && p.effects == [WriteStaging(name, content)] + [PublishPayload(name, declared.digest), WriteMetadata(declared.digest, declared)]
            && p.store.index == Replace(s.index, declared.digest, Some(declared)) && lim.hash(content) == declared.digest
  {
    hide Check, Find, Erase, Replace;
  }

  lemma ReplacedIsFound(index: seq<Metadata>, m: Metadata)
    requires Sorted(index)
    ensures Find(Replace(index, m.digest, Some(m)), m.digest) == Some(m)
  {
    hide Replace, Find, LowerBound, Less;
    ReplaceSound(index, m.digest, Some(m));
    FindIff(Replace(index, m.digest, Some(m)), m.digest);
  }

  // ---- When new content is accepted ----

  /** Why new content is turned away, if it is: the first of these that applies. */
  function Obstacle(lim: Limits, s: Store, content: Bytes, declared: Metadata): Option<Failure> {
    if |content| > lim.maxArtifactBytes then Some(OversizePayload)
    else if |content| != declared.sizeBytes then Some(SizeMismatch)
    else if lim.hash(content) != declared.digest then Some(DigestMismatch)
    else if |s.index| >= lim.maxArtifacts then Some(CountExhausted)
    else if s.used + |content| > lim.maxTotalBytes then Some(BytesExhausted)
    else if |declared.mediaType| > 64 || |declared.producer| > 128 then Some(LimitExceeded)
    else None
  }

  /** Content that is not indexed yet is accepted exactly when nothing stands in its way: it is as declared, its metadata
      encodes, and both budgets have room for it. Each refusal has its cause, and leaves nothing behind. */
  lemma NewContentIff(lim: Limits, k: Disk, s: Store, name: Id, content: Bytes, declared: Metadata)
    requires Sorted(s.index) && (forall m :: m in s.index ==> m.digest != declared.digest) && name !in k.staging
    ensures var p := IngestPlan(lim, k, s, name, content, declared);
            && (p.outcome == Accepted <==>
                  && |content| <= lim.maxArtifactBytes && |content| == declared.sizeBytes && lim.hash(content) == declared.digest
                  && |s.index| < lim.maxArtifacts && s.used + |content| <= lim.maxTotalBytes
                  && |declared.mediaType| <= 64 && |declared.producer| <= 128)
            && (p.outcome != Accepted ==>
                  Obstacle(lim, s, content, declared) == Some(p.outcome.failure) && p.store == s && DoAll(k, p.effects) == k)
  {
    FindIff(s.index, declared.digest);
    assert Find(s.index, declared.digest).None?;
    hide Check, Find, Erase, Replace, Sorted;
    var staged := WriteStaging(name, content);
    NoEffects(k);
    if Obstacle(lim, s, content, declared).Some? { StagedAndGone(k, name, content); }
  }

  lemma NoEffects(k: Disk)
    ensures DoAll(k, []) == k
  {
  }

  lemma StagedAndGone(k: Disk, name: Id, content: Bytes)
    requires name !in k.staging
    ensures DoAll(k, [WriteStaging(name, content)] + [RemoveStaging(name)]) == k
  {
    assert [WriteStaging(name, content)] + [RemoveStaging(name)] == [WriteStaging(name, content), RemoveStaging(name)];
    assert [WriteStaging(name, content), RemoveStaging(name)][1..] == [RemoveStaging(name)];
    assert k.staging[name := content] - {name} == k.staging;
    OneEffect(Do(k, WriteStaging(name, content)), RemoveStaging(name));
  }

  /** What accepting new content does: its bytes and its metadata are on disk under its digest, the index gains exactly this
      entry, and the byte count grows by its size. */
  lemma AcceptedIsStored(lim: Limits, k: Disk, s: Store, name: Id, content: Bytes, declared: Metadata)
    requires Sorted(s.index) && forall m :: m in s.index ==> m.digest != declared.digest
    requires IngestPlan(lim, k, s, name, content, declared).outcome == Accepted
    ensures var p := IngestPlan(lim, k, s, name, content, declared);
            var k' := DoAll(k, p.effects);
            && k'.payload == k.payload[declared.digest := content] && k'.meta == k.meta[declared.digest := declared]
            && (forall m :: m in p.store.index <==> m in s.index || m == declared) && p.store.used == s.used + |content|
  {
    FindIff(s.index, declared.digest);
    assert Find(s.index, declared.digest).None?;
    AbsentShape(lim, k, s, name, content, declared);
    ReplaceSound(s.index, declared.digest, Some(declared));
    ThreeEffects(k, WriteStaging(name, content), PublishPayload(name, declared.digest), WriteMetadata(declared.digest, declared));
    hide Check, Find, Erase, Replace, Sorted;
  }

  /** An accepted artifact is served: it is indexed, and its payload starts with exactly the content given. */
  lemma AcceptedIsServed(lim: Limits, st: State, name: Id, content: Bytes, declared: Metadata)
    requires Injective(lim) && Good(lim, st)
    requires IngestPlan(lim, st.disk, st.store, name, content, declared).outcome == Accepted
    ensures var st' := Next(lim, st, Whole(Ingest(name, content, declared)));
            && Find(st'.store.index, lim.hash(content)).Some? && lim.hash(content) in st'.disk.payload
            && content <= st'.disk.payload[lim.hash(content)]
  {
    var d, k := declared.digest, st.disk;
    if Find(st.store.index, d).Some? {
      PresentAndAccepted(lim, st, name, content, declared);
    } else {
      AbsentShape(lim, k, st.store, name, content, declared);
      ReplacedIsFound(st.store.index, declared);
      ThreeEffects(k, WriteStaging(name, content), PublishPayload(name, d), WriteMetadata(d, declared));
      hide IngestPlan, Replace, Find, Good, Injective;
    }
  }

  lemma PresentAndAccepted(lim: Limits, st: State, name: Id, content: Bytes, declared: Metadata)
    requires Injective(lim) && Good(lim, st) && Find(st.store.index, declared.digest).Some?
    requires IngestPlan(lim, st.disk, st.store, name, content, declared).outcome == Accepted
    ensures var p := IngestPlan(lim, st.disk, st.store, name, content, declared);
            && p.store == st.store && lim.hash(content) == declared.digest && declared.digest in DoAll(st.disk, p.effects).payload
            && content <= DoAll(st.disk, p.effects).payload[declared.digest]
  {
    var d, k := declared.digest, st.disk;
    FindInIndex(k, d);
    assert Valid(lim, content, declared) && Encodable(declared) by { hide Find, Check; }
    PresentShape(lim, k, st.store, name, content, declared);
    hide IngestPlan, Find, Check, Good;
    assert d != NO_DIGEST && Check(lim, k, st.store, d) == Accepted by { CheckRefusesNoDigest(lim, k, st.store, d); }
    assert Good(lim, st);
    VerifyIff(lim, st, d, content);
    PayloadsStay(k, [WriteStaging(name, content)] + ([RemoveStaging(name)] + []));
  }

  lemma CheckRefusesNoDigest(lim: Limits, k: Disk, s: Store, d: Digest)
    ensures Check(lim, k, s, d) == Accepted ==> d != NO_DIGEST
  {
  }

  /** The same content offered again, while the store has it intact. */
  ghost predicate Again(lim: Limits, st: State, name: Id, content: Bytes, declared: Metadata) {
    && Good(lim, st) && Intact(lim, st.disk) && Find(st.store.index, lim.hash(content)).Some? && name !in st.disk.staging
    && Valid(lim, content, declared) && declared.digest != NO_DIGEST && Encodable(declared)
  }

  lemma AgainPlan(lim: Limits, st: State, name: Id, content: Bytes, declared: Metadata)
    requires Injective(lim) && Again(lim, st, name, content, declared)
    ensures var p := IngestPlan(lim, st.disk, st.store, name, content, declared);
            if content != [] then p == Plan([WriteStaging(name, content), RemoveStaging(name)], st.store, Accepted)
            else IsCorrupt(p.outcome) && p.store == Erase(st.store, declared.digest)
  {
    IndexedIsThere(lim, st, content);
    VerifyIff(lim, st, declared.digest, content);
    PresentShape(lim, st.disk, st.store, name, content, declared);
    hide IngestPlan, Find, Erase, Good, Injective, Intact;
  }

  /** The second time the same content is offered it is accepted and nothing changes, exactly when it is not empty;
      an intact empty artifact is taken out of the store instead. */
  lemma OfferedAgain(lim: Limits, st: State, name: Id, content: Bytes, declared: Metadata)
    requires Injective(lim) && Again(lim, st, name, content, declared)
    ensures var st' := Next(lim, st, Whole(Ingest(name, content, declared)));
            var outcome := IngestPlan(lim, st.disk, st.store, name, content, declared).outcome;
            if content != [] then st' == st && outcome == Accepted
            else Entry(st'.disk, declared.digest) == None && IsCorrupt(outcome)
  {
    AgainPlan(lim, st, name, content, declared);
    hide IngestPlan, Injective, Intact, Good, Find, Erase, IndexOf, Total, Genuine;
    var k := st.disk;
    if content != [] {
      TwoEffects(lim, k, WriteStaging(name, content), RemoveStaging(name));
      assert k.staging[name := content] - {name} == k.staging;
    } else {
      FindErased(lim, st, Next(lim, st, Whole(Ingest(name, content, declared))), declared.digest);
    }
  }

  lemma CheckReadsPayloads(lim: Limits, k: Disk, k': Disk, s: Store, d: Digest)
    requires k.payload == k'.payload
    ensures Check(lim, k, s, d) == Check(lim, k', s, d)
  {
  }

  lemma IndexedIsThere(lim: Limits, st: State, content: Bytes)
    requires Injective(lim) && Good(lim, st) && Intact(lim, st.disk) && Find(st.store.index, lim.hash(content)).Some?
    ensures lim.hash(content) in st.disk.meta && lim.hash(content) in st.disk.payload && st.disk.payload[lim.hash(content)] == content
  {
    FindInIndex(st.disk, lim.hash(content));
  }

  lemma FindErased(lim: Limits, st: State, after: State, d: Digest)
    requires Good(lim, st) && Good(lim, after) && after.store == Erase(st.store, d)
    ensures Entry(after.disk, d) == None
  {
    EraseForgets(st.store, d);
    FindInIndex(after.disk, d);
  }

  // ---- Collecting ----

  lemma {:induction false} DoomedIff(index: seq<Metadata>, live: seq<Digest>, d: Digest)
    ensures d in Doomed(index, live) <==> d !in live && exists m :: m in index && m.digest == d
  {
    if index != [] {
      DoomedIff(index[1..], live, d);
      assert index == [index[0]] + index[1..];
    }
  }

  lemma {:induction false} EraseEachIff(s: Store, ds: seq<Digest>)
    requires Sorted(s.index)
    ensures forall m :: m in EraseEach(s, ds).index <==> m in s.index && m.digest !in ds
    decreases |ds|
  {
    if ds != [] {
      ReplaceSound(s.index, ds[0], None);
      FindIff(s.index, ds[0]);
      hide Replace, Find, LowerBound, Less;
      EraseEachIff(Erase(s, ds[0]), ds[1..]);
      assert ds == [ds[0]] + ds[1..];
    }
  }

  /** Collecting keeps exactly the live artifacts, and the bytes counted are exactly theirs. */
  lemma CollectKeepsTheLive(lim: Limits, st: State, live: seq<Digest>)
    requires Injective(lim) && Good(lim, st)
    ensures var s := Next(lim, st, Whole(Collect(live))).store;
            (forall m :: m in s.index <==> m in st.store.index && m.digest in live) && s.used == Total(s.index)
  {
    hide Injective, Total;
    var ds := Doomed(st.store.index, live);
    EraseEachIff(st.store, ds);
    forall m | m in st.store.index ensures m.digest in ds <==> m.digest !in live {
      DoomedIff(st.store.index, live, m.digest);
    }
  }
}
