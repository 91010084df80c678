/** What every single effect of the agent keeps, and so what every crash leaves behind. */
module AgentInvariants {
  import opened Prelude
  import opened Lifecycle
  import opened AgentState
  import opened Messages
  import opened AgentModel

  // ---- The crash invariant ----

  /** The payload of (key, generation, digest) is stored and hashes to the digest. */
  predicate Holds(cfg: Config, f: Files, k: Id, g: u64, d: Digest) {
    (k, g, d) in f.payload && cfg.hash(f.payload[(k, g, d)]) == d
  }

  /** What a durable transfer record promises about the files, whenever its staging file is still there. */
  predicate Backed(cfg: Config, f: Files, r: TransferRecord) {
    && r.generation != 0
    && r.bytesReceived <= r.totalBytes
    && (r.verified ==> r.bytesReceived == r.totalBytes)
    && (r.staged ==> r.verified && Holds(cfg, f, r.key, r.generation, r.digest))
    && (r.deployment in f.staging ==>
          && |f.staging[r.deployment]| >= r.bytesReceived
          && (r.verified ==> |f.staging[r.deployment]| == r.totalBytes && cfg.hash(f.staging[r.deployment]) == r.digest))
  }

  predicate TransfersOk(cfg: Config, f: Files, transfers: map<Id, TransferRecord>) {
    forall d :: d in transfers ==> transfers[d].deployment == d && Backed(cfg, f, transfers[d])
  }

  /** Digest before activation. */
  predicate PointersOk(cfg: Config, f: Files) {
    forall k :: k in f.current ==> f.current[k].generation != 0 && Holds(cfg, f, k, f.current[k].generation, f.current[k].digest)
  }

  /** An open window belongs to a prepare/commit target and describes the transfer it was opened for. */
  predicate WindowOk(cfg: Config, s: AgentState) {
    s.window.applyPrepared ==>
      && cfg.guarantee == PrepareCommitAbort
      && (s.window.deployment in s.transfers ==> Describes(s.window, s.transfers[s.window.deployment]))
  }

  predicate Describes(w: Window, r: TransferRecord) {
    r.staged && r.generation == w.generation && r.digest == w.digest
  }

  predicate Switched(w: World, k: Id, g: u64, d: Digest) {
    Switch(k, g, d) in w.switches
  }

  /** Some live pointer of this target really was switched to (g, d). */
  predicate WasLive(switches: seq<Switch>, g: u64, d: Digest) {
    exists i :: 0 <= i < |switches| && switches[i].generation == g && switches[i].digest == d
  }

  predicate CommittedOk(w: World) {
    IsSet(w.dur.committed) ==> WasLive(w.switches, w.dur.committed.generation, w.dur.committed.digest)
  }

  predicate FindingsOk(w: World) {
    forall f :: f in w.dur.findings ==> Switched(w, f.key, f.generation, f.digest)
  }

  predicate CurrentOk(w: World) {
    forall k :: k in w.files.current ==> Switched(w, k, w.files.current[k].generation, w.files.current[k].digest)
  }

  predicate Inv(cfg: Config, w: World) {
    && TransfersOk(cfg, w.files, w.dur.transfers)
    && PointersOk(cfg, w.files)
    && WindowOk(cfg, w.dur)
    && CommittedOk(w) && FindingsOk(w) && CurrentOk(w)
  }

  // ---- When one effect is safe ----

  predicate SafeUpsert(cfg: Config, w: World, r: TransferRecord) {
    && Backed(cfg, w.files, r)
    && (w.dur.window.applyPrepared && w.dur.window.deployment == r.deployment ==> Describes(w.dur.window, r))
  }

  predicate SafeCommit(cfg: Config, w: World, r: Record) {
    match r
    case AgentTransferUpsert(t) => SafeUpsert(cfg, w, t)
    case AgentTargetCommit(p) => IsSet(p) ==> WasLive(w.switches, p.generation, p.digest)
    case AgentFindingUpsert(f) => Switched(w, f.key, f.generation, f.digest)
    case AgentApplyPrepared(d, g, h) =>
      && cfg.guarantee == PrepareCommitAbort
      && (d in w.dur.transfers ==> Describes(Window(true, d, g, h), w.dur.transfers[d]))
    case _ => true
  }

  predicate Safe(cfg: Config, w: World, e: Effect) {
    match e
    case Commit(r) => SafeCommit(cfg, w, r)
    case TruncateStaging(d) => d in w.dur.transfers ==> w.dur.transfers[d].bytesReceived == 0 && !w.dur.transfers[d].verified
    case WriteStaging(d, o, data) => d in w.dur.transfers ==> !w.dur.transfers[d].verified
    case ResizeStaging(d, n) =>
      d in w.dur.transfers ==> w.dur.transfers[d].bytesReceived == n
    case PlacePayload(d, k, g, h) => d in w.files.staging ==> cfg.hash(w.files.staging[d]) == h
    case SwitchCurrent(k, p) => IsSet(p) && Holds(cfg, w.files, k, p.generation, p.digest)
    case _ => true
  }

  lemma WasLiveGrows(switches: seq<Switch>, s: Switch)
    ensures forall g, d :: WasLive(switches, g, d) ==> WasLive(switches + [s], g, d)
    ensures WasLive(switches + [s], s.generation, s.digest)
  {
    var more := switches + [s];
    assert more[|switches|] == s;
    forall g, d | WasLive(switches, g, d) ensures WasLive(more, g, d) {
      var i :| 0 <= i < |switches| && switches[i].generation == g && switches[i].digest == d;
      assert more[i] == switches[i];
    }
  }

  /** Changing files in a way that leaves every listed transfer backed. */
  lemma FileEffectKeepsTransfers(cfg: Config, f: Files, transfers: map<Id, TransferRecord>, e: Effect)
    requires TransfersOk(cfg, f, transfers)
    requires match e
             case TruncateStaging(d) => d in transfers ==> transfers[d].bytesReceived == 0 && !transfers[d].verified
             case WriteStaging(d, o, data) => d in transfers ==> !transfers[d].verified
             case ResizeStaging(d, n) => d in transfers ==> transfers[d].bytesReceived == n
             case PlacePayload(d, k, g, h) => d in f.staging ==> cfg.hash(f.staging[d]) == h
             case _ => true
    ensures TransfersOk(cfg, DoFiles(f, e), transfers)
  {
    var f' := DoFiles(f, e);
    forall d | d in transfers
      ensures transfers[d].deployment == d && Backed(cfg, f', transfers[d])
    {
      var r := transfers[d];
      assert Backed(cfg, f, r);
      if e.ResizeStaging? && e.deployment == d && d in f.staging {
        assert r.verified ==> e.length == |f.staging[d]|;
        assert r.verified ==> f.staging[d][..e.length] == f.staging[d];
      }
    }
  }

  lemma FileEffectKeepsPointers(cfg: Config, f: Files, e: Effect)
    requires PointersOk(cfg, f)
    requires e.PlacePayload? && e.deployment in f.staging ==> cfg.hash(f.staging[e.deployment]) == e.digest
    requires e.SwitchCurrent? ==> IsSet(e.pointer) && Holds(cfg, f, e.key, e.pointer.generation, e.pointer.digest)
    ensures PointersOk(cfg, DoFiles(f, e))
  {
  }

  lemma CommitKeepsInv(cfg: Config, w: World, r: Record)
    requires Inv(cfg, w) && SafeCommit(cfg, w, r)
    ensures Inv(cfg, Do(w, Commit(r)))
  {
    var w' := Do(w, Commit(r));
    assert w'.files == w.files && w'.switches == w.switches;
    forall f | f in w'.dur.findings ensures Switched(w', f.key, f.generation, f.digest) {
      assert Switched(w, f.key, f.generation, f.digest);
    }
  }

  /** Every safe effect keeps the crash invariant. */
  lemma EffectKeepsInv(cfg: Config, w: World, e: Effect)
    requires Inv(cfg, w) && Safe(cfg, w, e)
    ensures Inv(cfg, Do(w, e))
  {
    match e
    case Commit(r) => CommitKeepsInv(cfg, w, r);
    case Remember(_) =>
    case CountChunk =>
    case BumpActivations =>
    case SwitchCurrent(k, p) =>
      FileEffectKeepsTransfers(cfg, w.files, w.dur.transfers, e);
      FileEffectKeepsPointers(cfg, w.files, e);
      WasLiveGrows(w.switches, Switch(k, p.generation, p.digest));
    case _ =>
      FileEffectKeepsTransfers(cfg, w.files, w.dur.transfers, e);
      FileEffectKeepsPointers(cfg, w.files, e);
  }

  // ---- Sequences of effects ----

  predicate AllSafe(cfg: Config, w: World, es: seq<Effect>)
    decreases |es|
  {
    es == [] || (Safe(cfg, w, es[0]) && AllSafe(cfg, Do(w, es[0]), es[1..]))
  }

  lemma {:induction false} RunConcat(w: World, a: seq<Effect>, b: seq<Effect>)
    ensures Run(w, a + b) == Run(Run(w, a), b)
    decreases |a|
  {
    if a == [] {
      assert a + b == b;
    } else {
      assert (a + b)[0] == a[0] && (a + b)[1..] == a[1..] + b;
      RunConcat(Do(w, a[0]), a[1..], b);
    }
  }

  lemma {:induction false} SafeConcat(cfg: Config, w: World, a: seq<Effect>, b: seq<Effect>)
    requires AllSafe(cfg, w, a) && AllSafe(cfg, Run(w, a), b)
    ensures AllSafe(cfg, w, a + b)
    decreases |a|
  {
    if a == [] {
      assert a + b == b;
    } else {
      assert (a + b)[0] == a[0] && (a + b)[1..] == a[1..] + b;
      SafeConcat(cfg, Do(w, a[0]), a[1..], b);
    }
  }

  lemma OneEffect(cfg: Config, w: World, e: Effect)
    ensures Run(w, [e]) == Do(w, e)
    ensures Safe(cfg, w, e) ==> AllSafe(cfg, w, [e])
  {
    assert [e][1..] == [];
  }

  lemma TwoEffects(cfg: Config, w: World, e: Effect, f: Effect)
    ensures Run(w, [e, f]) == Do(Do(w, e), f)
    ensures Safe(cfg, w, e) && Safe(cfg, Do(w, e), f) ==> AllSafe(cfg, w, [e, f])
  {
    assert [e, f][1..] == [f];
    OneEffect(cfg, Do(w, e), f);
  }

  /** A crash after any number of safe effects leaves the crash invariant. */
  lemma {:induction false} PrefixKeepsInv(cfg: Config, w: World, es: seq<Effect>, n: nat)
    requires Inv(cfg, w) && AllSafe(cfg, w, es) && n <= |es|
    ensures Inv(cfg, Run(w, es[..n]))
    decreases |es|
  {
    if n > 0 {
      EffectKeepsInv(cfg, w, es[0]);
      assert es[..n][0] == es[0] && es[..n][1..] == es[1..][..n - 1];
      PrefixKeepsInv(cfg, Do(w, es[0]), es[1..], n - 1);
    }
  }
}
