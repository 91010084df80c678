/** Stale fencing and recovery for an agent that serves one configuration key. */
module AgentLineage {
  import opened Prelude
  import opened Lifecycle
  import opened AgentState
  import opened Messages
  import opened AgentModel
  import opened KeyPaths
  import opened AgentInvariants
  import opened AgentHandlers
  import opened AgentRecovery
  import opened AgentRuns

  predicate Increasing(switches: seq<Switch>) {
    forall i, j :: 0 <= i < j < |switches| ==> switches[i].generation < switches[j].generation
  }

  predicate KeyedTransfers(k: Id, transfers: map<Id, TransferRecord>) {
    forall d :: d in transfers ==> transfers[d].key == k
  }

  /** Everything the agent holds concerns the key `k`. */
  predicate OneKey(k: Id, w: World) {
    && KeyedTransfers(k, w.mem.transfers) && KeyedTransfers(k, w.dur.transfers)
    && w.files.current.Keys <= {k} && w.files.pending.Keys <= {k}
    && (forall f :: f in w.dur.findings ==> f.key == k)
    && (forall s :: s in w.switches ==> s.key == k)
  }

  /** The live pointer is the newest switch, and the switches were made in increasing order of generation. */
  predicate Lineage(k: Id, w: World) {
    && OneKey(k, w)
    && Increasing(w.switches)
    && (k in w.files.current <==> w.switches != [])
    && (w.switches != [] ==> IsLast(w.switches, w.files.current[k]))
  }

  predicate IsLast(switches: seq<Switch>, p: Pointer)
    requires switches != []
  {
    switches[|switches| - 1].generation == p.generation && switches[|switches| - 1].digest == p.digest
  }

  /** The durable record agrees with the live pointer. */
  predicate Settled(w: World) {
    if w.switches == [] then !IsSet(w.dur.committed) else IsSet(w.dur.committed) && IsLast(w.switches, w.dur.committed)
  }

  predicate Keyed(k: Id, m: Message) {
    m.Prepare? ==> m.offer.key == k
  }

  predicate KeyedEvent(k: Id, e: Event) {
    match e
    case Handled(i) => Keyed(k, i.message)
    case Cut(i, _) => Keyed(k, i.message)
    case _ => true
  }

  // ---- Effects ----

  predicate SafeLine(k: Id, w: World, e: Effect) {
    match e
    case Commit(AgentTransferUpsert(t)) => t.key == k
    case Commit(AgentFindingUpsert(f)) => f.key == k
    case Remember(t) => t.key == k
    case WritePending(key, _) => key == k
    case SwitchCurrent(key, p) =>
      key == k && (w.switches != [] ==> w.switches[|w.switches| - 1].generation < p.generation)
    case _ => true
  }

  predicate AllLine(k: Id, w: World, es: seq<Effect>)
    decreases |es|
  {
    es == [] || (SafeLine(k, w, es[0]) && AllLine(k, Do(w, es[0]), es[1..]))
  }

  lemma SwitchKeepsLineage(k: Id, w: World, p: Pointer)
    requires Lineage(k, w) && SafeLine(k, w, SwitchCurrent(k, p))
    ensures Lineage(k, Do(w, SwitchCurrent(k, p)))
  {
    var w' := Do(w, SwitchCurrent(k, p));
    var s := Switch(k, p.generation, p.digest);
    forall i, j | 0 <= i < j < |w'.switches| ensures w'.switches[i].generation < w'.switches[j].generation {
      if j == |w.switches| && i < j - 1 {
        assert w.switches[i].generation < w.switches[j - 1].generation;
      }
    }
    assert w'.switches[|w.switches|] == s;
  }

  lemma EffectKeepsLineage(k: Id, w: World, e: Effect)
    requires Lineage(k, w) && SafeLine(k, w, e)
    ensures Lineage(k, Do(w, e))
  {
    if e.SwitchCurrent? {
      SwitchKeepsLineage(k, w, e.pointer);
    }
  }

  lemma {:induction false} PrefixKeepsLineage(k: Id, w: World, es: seq<Effect>, n: nat)
    requires Lineage(k, w) && AllLine(k, w, es) && n <= |es|
    ensures Lineage(k, Run(w, es[..n]))
    decreases |es|
  {
    if n > 0 {
      EffectKeepsLineage(k, w, es[0]);
      assert es[..n][0] == es[0] && es[..n][1..] == es[1..][..n - 1];
      PrefixKeepsLineage(k, Do(w, es[0]), es[1..], n - 1);
    }
  }

  lemma {:induction false} LineConcat(k: Id, w: World, a: seq<Effect>, b: seq<Effect>)
    requires AllLine(k, w, a) && AllLine(k, Run(w, a), b)
    ensures AllLine(k, w, a + b)
    decreases |a|
  {
    if a == [] {
      assert a + b == b;
    } else {
      assert (a + b)[0] == a[0] && (a + b)[1..] == a[1..] + b;
      LineConcat(k, Do(w, a[0]), a[1..], b);
    }
  }

  // ---- Effects that touch neither the pointer nor the committed pair ----

  predicate Neutral(k: Id, e: Effect) {
    && !e.SwitchCurrent?
    && (e.Commit? ==> !e.record.AgentTargetCommit?)
    && (e.Commit? && e.record.AgentTransferUpsert? ==> e.record.transfer.key == k)
    && (e.Commit? && e.record.AgentFindingUpsert? ==> e.record.finding.key == k)
    && (e.Remember? ==> e.transfer.key == k)
    && (e.WritePending? ==> e.key == k)
  }

  lemma {:induction false} NeutralRun(k: Id, w: World, es: seq<Effect>)
    requires forall e :: e in es ==> Neutral(k, e)
    ensures AllLine(k, w, es)
    ensures Run(w, es).switches == w.switches && Run(w, es).dur.committed == w.dur.committed
    ensures Run(w, es).files.current == w.files.current
    decreases |es|
  {
    if es != [] {
      assert Neutral(k, es[0]);
      NeutralRun(k, Do(w, es[0]), es[1..]);
    }
  }

  predicate Serving(cfg: Config, k: Id, w: World) {
    Alive(cfg, w) && Lineage(k, w) && Settled(w)
  }

  lemma PrepareNeutral(cfg: Config, k: Id, w: World, m: PrepareMessage, now: i64, e: Effect)
    requires m.key == k && e in PrepareOutcome(cfg, w, m, now).effects
    ensures Neutral(k, e)
  {
  }

  lemma ChunkNeutral(k: Id, w: World, stream: u64, offset: u64, data: Bytes, now: i64, e: Effect)
    requires KeyedTransfers(k, w.mem.transfers) && e in ChunkOutcome(w, stream, offset, data, now).effects
    ensures Neutral(k, e)
  {
  }

  lemma CommitNeutral(cfg: Config, k: Id, w: World, d: Id, g: u64, digest: Digest, now: i64, e: Effect)
    requires !Admits(cfg, w, d, g, digest) && e in ApplyCommitOutcome(cfg, w, d, g, digest, now).effects
    ensures Neutral(k, e)
  {
  }

  lemma CompleteNeutral(cfg: Config, k: Id, w: World, d: Id, h: Digest, n: u64, now: i64, e: Effect)
    requires KeyedTransfers(k, w.mem.transfers) && e in CompleteOutcome(cfg, w, d, h, n, now).effects
    ensures Neutral(k, e)
  {
  }

  lemma StageNeutral(k: Id, w: World, d: Id, g: u64, h: Digest, now: i64, e: Effect)
    requires KeyedTransfers(k, w.mem.transfers) && e in StageOutcome(w, d, g, h, now).effects
    ensures Neutral(k, e)
  {
  }

  /** Only an admitted commit has effects that are not neutral. */
  lemma NeutralHandlers(cfg: Config, k: Id, w: World, i: Input, e: Effect)
    requires KeyedTransfers(k, w.mem.transfers) && ValidInput(w, i) && Keyed(k, i.message)
    requires i.message.ApplyCommit? ==> !Admits(cfg, w, i.message.deployment, i.message.generation, i.message.digest)
    requires e in Handle(cfg, w, i).effects
    ensures Neutral(k, e)
  {
    hide PrepareOutcome, ChunkOutcome, ApplyCommitOutcome, CompleteOutcome, StageOutcome, Apply, Do;
    match i.message
    case Hello(f) =>
    case Prepare(m) => PrepareNeutral(cfg, k, w, m, i.now, e);
    case Chunk(s, o, data) => ChunkNeutral(k, w, s, o, data, i.now, e);
    case TransferComplete(d, h, n) => CompleteNeutral(cfg, k, w, d, h, n, i.now, e);
    case Stage(d, g, h) => StageNeutral(k, w, d, g, h, i.now, e);
    case ApplyPrepare(d, g, h) => assert e in ApplyPrepareOutcome(cfg, w, d, g, h).effects;
    case ApplyCommit(d, g, h) => CommitNeutral(cfg, k, w, d, g, h, i.now, e);
    case ApplyAbort(d, g) => assert e in ApplyAbortOutcome(w, d, g).effects;
    case ReconcileRequest(n) =>
    case Retire(d, g) => assert e in RetireOutcome(w, d, g).effects;
  }

  /** The commit record and the finding, once the pointer has been switched. */
  lemma CommitLine(cfg: Config, k: Id, w: World, r: TransferRecord, open: bool, activations: u64, c: Counters, now: i64)
    requires r.key == k && IsSet(Pointer(r.generation, r.digest, r.artifact))
    requires w.switches != [] && IsLast(w.switches, Pointer(r.generation, r.digest, r.artifact))
    ensures AllLine(k, w, CommitGeneration(open, activations, c, r, now))
    ensures var w' := Run(w, CommitGeneration(open, activations, c, r, now));
            w'.switches == w.switches && Settled(w')
  {
    var resolve := if open then [Commit(AgentApplyResolved(Next64(activations)))] else [];
    var commit := Commit(AgentTargetCommit(Pointer(r.generation, r.digest, r.artifact)));
    var f := AppliedFinding(r.key, r.generation, r.digest, r.artifact, r.deployment, Applied, now);
    var after := [Commit(AgentFindingUpsert(f)), BumpActivations, CounterNote(c)];
    NeutralRun(k, w, resolve);
    var w1 := Run(w, resolve);
    OneEffect(cfg, w1, commit);
    NeutralRun(k, Do(w1, commit), after);
    LineConcat(k, w1, [commit], after); RunConcat(w1, [commit], after);
    LineConcat(k, w, resolve, [commit] + after); RunConcat(w, resolve, [commit] + after);
    assert CommitGeneration(open, activations, c, r, now) == resolve + ([commit] + after);
  }

  lemma ActivateLine(cfg: Config, k: Id, w: World, d: Id, now: i64)
    requires Serving(cfg, k, w) && d in w.mem.transfers
    requires cfg.guarantee == PrepareCommitAbort ==> w.mem.window.applyPrepared
    requires IsSet(w.mem.committed) ==> w.mem.committed.generation < w.mem.transfers[d].generation
    requires w.mem.transfers[d].generation != 0
    ensures var es := Activate(w, w.mem.transfers[d], cfg.guarantee == PrepareCommitAbort, now);
            && AllLine(k, w, es)
            && Run(w, es).switches == w.switches + [Switch(k, w.mem.transfers[d].generation, w.mem.transfers[d].digest)]
            && Settled(Run(w, es))
  {
    hide Activate, CommitGeneration, Apply;
    var explicit := cfg.guarantee == PrepareCommitAbort;
    var r := w.mem.transfers[d];
    assert r.key == k;
    var switch := SwitchCurrent(k, Pointer(r.generation, r.digest, r.artifact));
    OneEffect(cfg, w, switch);
    var w1 := Do(w, switch);
    var unmark := if explicit then [RemovePending(k)] else [];
    NeutralRun(k, w1, unmark);
    var commit := CommitGeneration(w.mem.window.applyPrepared || explicit, w.mem.counters.activations, w.mem.counters, r, now);
    CommitLine(cfg, k, Run(w1, unmark), r, w.mem.window.applyPrepared || explicit, w.mem.counters.activations, w.mem.counters, now);
    LineConcat(k, w1, unmark, commit); RunConcat(w1, unmark, commit);
    LineConcat(k, w, [switch], unmark + commit); RunConcat(w, [switch], unmark + commit);
    ActivateShape(w, r, explicit, now);
  }

  lemma HandleLine(cfg: Config, k: Id, w: World, i: Input)
    requires Serving(cfg, k, w) && ValidInput(w, i) && Keyed(k, i.message)
    ensures AllLine(k, w, Handle(cfg, w, i).effects)
    ensures Settled(Run(w, Handle(cfg, w, i).effects))
  {
    var es := Handle(cfg, w, i).effects;
    if i.message.ApplyCommit? && Admits(cfg, w, i.message.deployment, i.message.generation, i.message.digest) {
      ActivateLine(cfg, k, w, i.message.deployment, i.now);
    } else {
      forall e | e in es ensures Neutral(k, e) { NeutralHandlers(cfg, k, w, i, e); }
      NeutralRun(k, w, es);
    }
  }

  // ---- Start-up ----

  lemma {:induction false} StraysLine(k: Id, w0: World, names: seq<Id>, e: Effect)
    requires e in Strays(w0, names)
    ensures Neutral(k, e)
    decreases |names|
  {
    if e in Strays(w0, names[1..]) { StraysLine(k, w0, names[1..], e); }
  }

  lemma {:induction false} TransferStepsLine(k: Id, w0: World, ds: seq<Id>, e: Effect)
    requires Known(w0, ds) && KeyedTransfers(k, w0.mem.transfers)
    requires e in Resizes(w0, ds) + Discards(w0, ds) + Checkpoints(w0, ds)
    ensures Neutral(k, e)
    decreases |ds|
  {
    if e in Resizes(w0, ds[1..]) + Discards(w0, ds[1..]) + Checkpoints(w0, ds[1..]) {
      TransferStepsLine(k, w0, ds[1..], e);
    }
  }

  lemma {:induction false} RecoverKeysLine(k: Id, cfg: Config, w: World, keys: seq<Id>)
    ensures AllLine(k, w, RecoverKeys(cfg, w, keys))
    decreases |keys|
  {
    if keys != [] && Skipped(cfg.liveRoot, keys[0]) {
      RecoverKeysLine(k, cfg, w, keys[1..]);
    } else if keys != [] {
      var a := ResolvePending(w, keys[0]);
      NeutralRun(k, w, a);
      var w1 := Run(w, a);
      var b := AdoptPointer(cfg, w1, keys[0]);
      assert AllLine(k, w1, b);
      LineConcat(k, w, a, b);
      RunConcat(w, a, b);
      RecoverKeysLine(k, cfg, Run(w, a + b), keys[1..]);
      LineConcat(k, w, a + b, RecoverKeys(cfg, Run(w, a + b), keys[1..]));
    }
  }

  lemma RecoverTransfersLine(k: Id, w0: World, l: Listing)
    requires Known(w0, l.transfers) && KeyedTransfers(k, w0.mem.transfers)
    ensures AllLine(k, w0, RecoverTransfers(w0, l))
  {
    var a := RecoverTransfers(w0, l);
    forall e | e in a ensures Neutral(k, e) {
      if e in Strays(w0, l.staged) { StraysLine(k, w0, l.staged, e); }
      else { TransferStepsLine(k, w0, l.transfers, e); }
    }
    NeutralRun(k, w0, a);
  }

  lemma RecoverLiveLine(k: Id, cfg: Config, w: World, l: Listing)
    ensures AllLine(k, w, RecoverLive(cfg, w, l))
  {
    var b := RecoverKeys(cfg, w, l.keys);
    RecoverKeysLine(k, cfg, w, l.keys);
    NeutralRun(k, Run(w, b), CloseWindow(Run(w, b)));
    LineConcat(k, w, b, CloseWindow(Run(w, b)));
  }

  lemma BootLine(cfg: Config, k: Id, w: World, l: Listing)
    requires w.mem == w.dur && KeyedTransfers(k, w.mem.transfers) && CanBoot(w.mem) && ValidListing(cfg, w, l)
    ensures AllLine(k, w, Boot(cfg, w, l))
  {
    BootShape(cfg, w, l);
    var id := Commit(AgentIdentity(NextIdentity(cfg, w.mem, l.incarnation)));
    var w0 := Identified(cfg, w, l);
    var a := RecoverTransfers(w0, l);
    RecoverTransfersLine(k, w0, l);
    var b := RecoverLive(cfg, Run(w0, a), l);
    RecoverLiveLine(k, cfg, Run(w0, a), l);
    LineConcat(k, w0, a, b);
    LineConcat(k, w, [id], a + b);
  }

  /** With one key that the walk visits, recovery settles the durable record on the live pointer. */
  lemma BootSettles(cfg: Config, k: Id, w: World, l: Listing)
    requires Inv(cfg, w) && w.mem == w.dur && Lineage(k, w) && CanBoot(w.mem) && ValidListing(cfg, w, l)
    requires Visited(cfg.liveRoot, k)
    ensures Settled(Run(w, Boot(cfg, w, l))) && Run(w, Boot(cfg, w, l)).files.pending == map[]
  {
    hide Run, Boot, Listed, Skipped;
    BootSound(cfg, w, l);
    var w' := Run(w, Boot(cfg, w, l));
    var kept := Kept(cfg.liveRoot, l.keys);
    KeptIff(cfg.liveRoot, l.keys, k);
    if kept == [] {
      assert k !in w.files.current.Keys + w.files.pending.Keys;
      assert w.switches == [];
    } else {
      KeptIff(cfg.liveRoot, l.keys, kept[|kept| - 1]);
      assert kept[|kept| - 1] == k;
      if k in w.files.current {
        assert Holds(cfg, w.files, k, w.files.current[k].generation, w.files.current[k].digest);
      }
    }
  }

  // ---- Whole runs ----

  predicate Fenced(cfg: Config, k: Id, p: Process) {
    Consistent(cfg, p) && Lineage(k, p.w) && (p.up ==> Settled(p.w))
  }

  lemma ReloadLineage(k: Id, w: World)
    requires Lineage(k, w)
    ensures Lineage(k, Reload(w))
  {
  }

  lemma StepFenced(cfg: Config, k: Id, p: Process, e: Event)
    requires Visited(cfg.liveRoot, k) && Fenced(cfg, k, p) && Enabled(cfg, p, e) && KeyedEvent(k, e)
    ensures Fenced(cfg, k, Next(cfg, p, e))
  {
    hide Handle, Boot, Run, Settled, Visited;
    StepConsistent(cfg, p, e);
    match e
    case Handled(i) =>
      HandleLine(cfg, k, p.w, i);
      var es := Handle(cfg, p.w, i).effects;
      PrefixKeepsLineage(k, p.w, es, |es|);
      assert es[..|es|] == es;
    case Cut(i, n) =>
      HandleLine(cfg, k, p.w, i);
      PrefixKeepsLineage(k, p.w, Handle(cfg, p.w, i).effects, n);
    case Booted(l) =>
      var w := Reload(p.w);
      ReloadLineage(k, p.w);
      BootLine(cfg, k, w, l);
      BootSettles(cfg, k, w, l);
      var es := Boot(cfg, w, l);
      PrefixKeepsLineage(k, w, es, |es|);
      assert es[..|es|] == es;
    case BootCut(l, n) =>
      ReloadLineage(k, p.w);
      BootLine(cfg, k, Reload(p.w), l);
      PrefixKeepsLineage(k, Reload(p.w), Boot(cfg, Reload(p.w), l), n);
  }

  ghost predicate KeyedTrace(cfg: Config, k: Id, ps: seq<Process>, es: seq<Event>) {
    Trace(cfg, ps, es) && forall e :: e in es ==> KeyedEvent(k, e)
  }

  lemma FreshFenced(cfg: Config, k: Id)
    ensures Fenced(cfg, k, Process(FRESH, false))
  {
  }

  lemma {:induction false} TraceFenced(cfg: Config, k: Id, ps: seq<Process>, es: seq<Event>, i: nat)
    requires Visited(cfg.liveRoot, k) && KeyedTrace(cfg, k, ps, es) && i < |ps|
    ensures Fenced(cfg, k, ps[i])
    decreases i
  {
    hide Next, Enabled, Fenced, KeyedEvent, Visited;
    if i == 0 {
      FreshFenced(cfg, k);
    } else {
      TraceFenced(cfg, k, ps, es, i - 1);
      assert es[i - 1] in es;
      StepFenced(cfg, k, ps[i - 1], es[i - 1]);
    }
  }

  /** Stale fencing: over any run with one key that recovery visits, the generations written to the live pointer strictly increase,
      so no generation is ever live with two digests; and the live pointer is always the newest of them. */
  lemma StaleFencing(cfg: Config, k: Id, ps: seq<Process>, es: seq<Event>, i: nat)
    requires Visited(cfg.liveRoot, k) && KeyedTrace(cfg, k, ps, es) && i < |ps|
    ensures var w := ps[i].w;
            && (forall a, b :: 0 <= a < b < |w.switches| ==> w.switches[a].generation < w.switches[b].generation)
            && (forall s, t :: s in w.switches && t in w.switches && s.generation == t.generation ==> s == t)
            && (k in w.files.current ==> forall s :: s in w.switches ==> s.generation <= w.files.current[k].generation)
  {
    TraceFenced(cfg, k, ps, es, i);
    var w := ps[i].w;
    forall s, t | s in w.switches && t in w.switches && s.generation == t.generation ensures s == t {
      var a :| 0 <= a < |w.switches| && w.switches[a] == s;
      var b :| 0 <= b < |w.switches| && w.switches[b] == t;
      assert a == b;
    }
    if k in w.files.current {
      forall s | s in w.switches ensures s.generation <= w.files.current[k].generation {
        var a :| 0 <= a < |w.switches| && w.switches[a] == s;
        assert a < |w.switches| - 1 ==> w.switches[a].generation < w.switches[|w.switches| - 1].generation;
      }
    }
  }

  /** A serving agent's committed pair is exactly what its live pointer names. */
  predicate Agrees(k: Id, w: World) {
    if k in w.files.current then IsSet(w.dur.committed) && SamePair(w.dur.committed, w.files.current[k])
    else !IsSet(w.dur.committed)
  }

  lemma ServingAgrees(cfg: Config, k: Id, ps: seq<Process>, es: seq<Event>, i: nat)
    requires Visited(cfg.liveRoot, k) && KeyedTrace(cfg, k, ps, es) && i < |ps| && ps[i].up
    ensures Agrees(k, ps[i].w)
  {
    TraceFenced(cfg, k, ps, es, i);
  }

  /** Recovery re-establishes agreement from every state a crash can leave, whatever order the directories are
      listed in: committed pair equal to the live pointer, no open window, no marker, exact staging files. */
  lemma RecoveryAgreement(cfg: Config, k: Id, ps: seq<Process>, es: seq<Event>, i: nat, l: Listing)
    requires Visited(cfg.liveRoot, k) && KeyedTrace(cfg, k, ps, es) && i < |ps| && !ps[i].up && CanStart(cfg, ps[i].w, l)
    ensures var w := ps[i].w;
            var w' := Run(Reload(w), Boot(cfg, Reload(w), l));
            && Agrees(k, w') && w'.files.current == w.files.current
            && !w'.mem.window.applyPrepared && !w'.dur.window.applyPrepared && w'.files.pending == map[]
            && w'.mem == w'.dur
            && (forall d :: d in w'.mem.transfers ==>
                  d in w'.files.staging && |w'.files.staging[d]| == w'.mem.transfers[d].bytesReceived)
  {
    TraceFenced(cfg, k, ps, es, i);
    var w := Reload(ps[i].w);
    ReloadLineage(k, ps[i].w);
    BootSound(cfg, w, l);
    BootSettles(cfg, k, w, l);
  }

  /** Cutting recovery anywhere and running it again, under any listings, commits the same pair. */
  lemma RecoveryIdempotent(cfg: Config, k: Id, ps: seq<Process>, es: seq<Event>, i: nat, l: Listing, n: nat, again: Listing)
    requires Visited(cfg.liveRoot, k) && KeyedTrace(cfg, k, ps, es) && i < |ps| && !ps[i].up && CanStart(cfg, ps[i].w, l)
    requires n <= |Boot(cfg, Reload(ps[i].w), l)|
    requires CanStart(cfg, Run(Reload(ps[i].w), Boot(cfg, Reload(ps[i].w), l)[..n]), again)
    ensures var once := Run(Reload(ps[i].w), Boot(cfg, Reload(ps[i].w), l));
            var cut := Run(Reload(ps[i].w), Boot(cfg, Reload(ps[i].w), l)[..n]);
            var twice := Run(Reload(cut), Boot(cfg, Reload(cut), again));
            && twice.dur.committed.generation == once.dur.committed.generation
            && (IsSet(once.dur.committed) ==> twice.dur.committed.digest == once.dur.committed.digest)
            && twice.files.current == once.files.current
  {
    hide Boot, Run, FollowsKey;
    RecoveryAgreement(cfg, k, ps, es, i, l);
    var p := ps[i];
    TraceFenced(cfg, k, ps, es, i);
    StepFenced(cfg, k, p, BootCut(l, n));
    var q := Next(cfg, p, BootCut(l, n));
    var w := Reload(p.w);
    BootKeepsPointer(cfg, w, l, n);
    ReloadLineage(k, q.w);
    BootSound(cfg, Reload(q.w), again);
    BootSettles(cfg, k, Reload(q.w), again);
  }

  /** Recovery writes neither the live pointer nor the authority fence. */
  predicate NoSwitch(e: Effect) {
    !e.SwitchCurrent? && !(e.Commit? && e.record.AgentControllerFence?)
  }

  lemma {:induction false} NoSwitchRun(w: World, es: seq<Effect>)
    requires forall e :: e in es ==> NoSwitch(e)
    ensures Run(w, es).files.current == w.files.current && Run(w, es).switches == w.switches
    decreases |es|
  {
    if es != [] {
      assert NoSwitch(es[0]);
      NoSwitchRun(Do(w, es[0]), es[1..]);
    }
  }

  lemma RecoverKeyNoSwitch(cfg: Config, w: World, k: Id, e: Effect)
    requires e in RecoverKey(cfg, w, k)
    ensures NoSwitch(e)
  {
    hide Run, Do, Apply;
  }

  lemma {:induction false} RecoverKeysNoSwitch(cfg: Config, w: World, keys: seq<Id>, e: Effect)
    requires e in RecoverKeys(cfg, w, keys)
    ensures NoSwitch(e)
    decreases |keys|
  {
    hide Run, RecoverKey, Skipped;
    if Skipped(cfg.liveRoot, keys[0]) {
      RecoverKeysNoSwitch(cfg, w, keys[1..], e);
    } else if e in RecoverKeys(cfg, Run(w, RecoverKey(cfg, w, keys[0])), keys[1..]) {
      RecoverKeysNoSwitch(cfg, Run(w, RecoverKey(cfg, w, keys[0])), keys[1..], e);
    } else {
      RecoverKeyNoSwitch(cfg, w, keys[0], e);
    }
  }

  lemma {:induction false} StraysNoSwitch(w0: World, names: seq<Id>, e: Effect)
    requires e in Strays(w0, names)
    ensures NoSwitch(e)
    decreases |names|
  {
    if e in Strays(w0, names[1..]) { StraysNoSwitch(w0, names[1..], e); }
  }

  lemma {:induction false} TransferStepsNoSwitch(w0: World, ds: seq<Id>, e: Effect)
    requires Known(w0, ds) && e in Resizes(w0, ds) + Discards(w0, ds) + Checkpoints(w0, ds)
    ensures NoSwitch(e)
    decreases |ds|
  {
    if e in Resizes(w0, ds[1..]) + Discards(w0, ds[1..]) + Checkpoints(w0, ds[1..]) {
      TransferStepsNoSwitch(w0, ds[1..], e);
    }
  }

  lemma BootNoSwitch(cfg: Config, w: World, l: Listing, e: Effect)
    requires w.mem == w.dur && CanBoot(w.mem) && ValidListing(cfg, w, l) && e in Boot(cfg, w, l)
    ensures NoSwitch(e)
  {
    var w0 := Do(w, Commit(AgentIdentity(NextIdentity(cfg, w.mem, l.incarnation))));
    var w1 := Run(w0, RecoverTransfers(w0, l));
    if e in RecoverLive(cfg, w1, l) {
      if e in RecoverKeys(cfg, w1, l.keys) { RecoverKeysNoSwitch(cfg, w1, l.keys, e); }
    } else if e in RecoverTransfers(w0, l) {
      if e in Strays(w0, l.staged) { StraysNoSwitch(w0, l.staged, e); }
      else { TransferStepsNoSwitch(w0, l.transfers, e); }
    }
  }

  lemma BootKeepsPointer(cfg: Config, w: World, l: Listing, n: nat)
    requires w.mem == w.dur && CanBoot(w.mem) && ValidListing(cfg, w, l) && n <= |Boot(cfg, w, l)|
    ensures var cut := Run(w, Boot(cfg, w, l)[..n]);
            cut.files.current == w.files.current && cut.switches == w.switches
  {
    var es := Boot(cfg, w, l);
    forall e | e in es[..n] ensures NoSwitch(e) { BootNoSwitch(cfg, w, l, e); }
    NoSwitchRun(w, es[..n]);
  }
}
