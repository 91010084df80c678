/** Runs that show what the walk of recovery leaves out: a key it does not visit, and two keys it visits in the wrong
    order. Each is a run from an empty disk, made of deliveries that go through. */
module AgentFailingRuns {
  import opened Prelude
  import opened Lifecycle
  import opened AgentState
  import opened Messages
  import opened AgentModel
  import opened KeyPaths
  import opened AgentInvariants
  import opened AgentHandlers
  import opened AgentRecovery
  import opened AgentRuns
  import opened AgentProgress
  import opened AgentManyKeys
  import AgentLineage
  import Tables

  // ---- States that runs over given keys reach ----

  /** The messages of these offers: their own, and the later ones that name them. */
  predicate About(ms: set<PrepareMessage>, message: Message) {
    match message
    case Prepare(m) => m in ms
    case TransferComplete(d, h, _) => exists m :: m in ms && m.deployment == d && m.digest == h
    case Stage(d, g, h) => Asks(ms, d, g, h)
    case ApplyPrepare(d, g, h) => Asks(ms, d, g, h)
    case ApplyCommit(d, g, h) => Asks(ms, d, g, h)
    case _ => true
  }

  predicate Asks(ms: set<PrepareMessage>, d: Id, g: u64, h: Digest) {
    exists m :: m in ms && m.deployment == d && m.generation == g && m.digest == h
  }

  predicate Concerns(ms: set<PrepareMessage>, e: Event) {
    match e
    case Handled(i) => About(ms, i.message)
    case Cut(i, _) => About(ms, i.message)
    case _ => true
  }

  ghost predicate Reaches(cfg: Config, ms: set<PrepareMessage>, p: Process, ps: seq<Process>, es: seq<Event>) {
    Trace(cfg, ps, es) && (forall e :: e in es ==> Concerns(ms, e)) && ps[|ps| - 1] == p
  }

  ghost predicate Reached(cfg: Config, ms: set<PrepareMessage>, p: Process) {
    exists ps, es :: Reaches(cfg, ms, p, ps, es)
  }

  lemma FreshIsReached(cfg: Config, ms: set<PrepareMessage>)
    ensures Reached(cfg, ms, Process(FRESH, false))
  {
    assert Reaches(cfg, ms, Process(FRESH, false), [Process(FRESH, false)], []);
  }

  lemma NextIsReached(cfg: Config, ms: set<PrepareMessage>, p: Process, e: Event)
    requires Reached(cfg, ms, p) && Enabled(cfg, p, e) && Concerns(ms, e)
    ensures Reached(cfg, ms, Next(cfg, p, e))
  {
    hide Enabled, Next, Concerns;
    var ps, es :| Reaches(cfg, ms, p, ps, es);
    var qs, fs := ps + [Next(cfg, p, e)], es + [e];
    forall i | 0 <= i < |fs| ensures Enabled(cfg, qs[i], fs[i]) && qs[i + 1] == Next(cfg, qs[i], fs[i]) {
      if i < |es| { assert qs[i] == ps[i] && qs[i + 1] == ps[i + 1] && fs[i] == es[i]; }
    }
    assert Reaches(cfg, ms, Next(cfg, p, e), qs, fs);
  }

  lemma ReachedIsConsistent(cfg: Config, ms: set<PrepareMessage>, p: Process)
    requires Reached(cfg, ms, p)
    ensures Consistent(cfg, p)
  {
    hide Trace, Consistent;
    var ps, es :| Reaches(cfg, ms, p, ps, es);
    assert Trace(cfg, ps, es) && |ps| > 0 by { LengthOf(cfg, ps, es); }
    TraceConsistent(cfg, ps, es, |ps| - 1);
  }

  lemma LengthOf(cfg: Config, ps: seq<Process>, es: seq<Event>)
    requires Trace(cfg, ps, es)
    ensures |ps| > 0
  {
  }

  /** A message the serving agent handles. */
  lemma SaidIsReached(cfg: Config, ms: set<PrepareMessage>, w: World, m: Message, now: i64)
    requires Reached(cfg, ms, Process(w, true)) && Decodable(m) && About(ms, m)
    ensures Reached(cfg, ms, Process(After(cfg, w, m, now), true))
  {
    hide Handle, Run, Decodable;
    NextIsReached(cfg, ms, Process(w, true), Handled(Says(m, now)));
  }

  // ---- One delivery ----

  /** The fixed part of the offers: generation `g` of `content` for key `k`. */
  function Offer(cfg: Config, d: Id, stream: u64, k: Id, g: u64, content: Bytes): PrepareMessage
    requires |content| < U64_LIMIT
  {
    PrepareMessage(d, k, "a", g, cfg.hash(content), |content|, "s", 1, AllowPrepareCommit, cfg.guarantee, 1, 1, stream, 1024, 0)
  }

  /** Content the agent can be given: one chunk, within its bound, with a digest. */
  predicate Deliverable(cfg: Config, content: Bytes) {
    0 < |content| <= MAX_CHUNK_BYTES && |content| <= cfg.maxArtifactBytes && cfg.hash(content) != NO_DIGEST
  }

  /** What a delivery of `m` leaves. */
  ghost predicate Follows(w: World, w': World, m: PrepareMessage) {
    && w'.mem.committed.generation == m.generation && w'.mem.committed.digest == m.digest && w'.dur.committed == w'.mem.committed
    && !w'.mem.window.applyPrepared
    && (forall f :: f in w'.mem.findings ==> f in w.mem.findings || (f.generation == m.generation && f.key == m.key))
    && Streams(m, w.mem.transfers, w'.mem.transfers)
    && w'.switches == w.switches + [Switch(m.key, m.generation, m.digest)]
    && w'.files.current == w.files.current[m.key := Pointer(m.generation, m.digest, m.artifact)]
    && w'.files.pending.Keys <= w.files.pending.Keys + {m.key}
    && w'.dur.identity == w.dur.identity
  }

  ghost predicate Streams(m: PrepareMessage, before: map<Id, TransferRecord>, after: map<Id, TransferRecord>) {
    forall x :: x in after ==>
      if x == m.deployment then after[x].stream == m.stream else x in before && after[x].stream == before[x].stream
  }

  /** What is left when the process dies right after the switch of the live pointer. */
  ghost predicate Torn(w: World, w': World, m: PrepareMessage) {
    && w'.dur.committed == w.dur.committed && w'.dur.findings == w.dur.findings && w'.dur.identity == w.dur.identity
    && Streams(m, w.mem.transfers, w'.dur.transfers)
    && w'.switches == w.switches + [Switch(m.key, m.generation, m.digest)]
    && w'.files.current == w.files.current[m.key := Pointer(m.generation, m.digest, m.artifact)]
    && w'.files.pending.Keys <= w.files.pending.Keys + {m.key}
  }

  /** Effects after the switch: they touch records and markers, not transfers, pointer or identity. */
  predicate Trailing(k: Id, g: u64, e: Effect) {
    match e
    case Commit(AgentFindingUpsert(f)) => f.generation == g && f.key == k
    case Commit(AgentApplyResolved(_)) => true
    case Commit(AgentTargetCommit(_)) => true
    case Commit(AgentRollbackNote(_, _, _, _)) => true
    case RemovePending(_) => true
    case BumpActivations => true
    case _ => false
  }

  lemma {:induction false} TrailingRun(k: Id, g: u64, w: World, es: seq<Effect>)
    requires forall e :: e in es ==> Trailing(k, g, e)
    ensures var w' := Run(w, es);
            && w'.mem.transfers == w.mem.transfers && w'.dur.identity == w.dur.identity && w'.switches == w.switches
            && w'.files.current == w.files.current && w'.files.pending.Keys <= w.files.pending.Keys
            && (forall f :: f in w'.mem.findings ==> f in w.mem.findings || (f.generation == g && f.key == k))
            && (!w.mem.window.applyPrepared ==> !w'.mem.window.applyPrepared)
    decreases |es|
  {
    if es != [] {
      assert Trailing(k, g, es[0]);
      TrailingRun(k, g, Do(w, es[0]), es[1..]);
    }
  }

  /** Nothing after the commit record touches the committed pair. */
  lemma {:induction false} CommittedStays(w: World, es: seq<Effect>)
    requires forall e :: e in es ==> !(e.Commit? && e.record.AgentTargetCommit?)
    ensures Run(w, es).mem.committed == w.mem.committed && Run(w, es).dur.committed == w.dur.committed
    decreases |es|
  {
    if es != [] {
      assert !(es[0].Commit? && es[0].record.AgentTargetCommit?);
      CommittedStays(Do(w, es[0]), es[1..]);
    }
  }

  lemma CommitFollows(cfg: Config, p: World, m: PrepareMessage, content: Bytes, now: i64)
    requires Alive(cfg, p) && Decodable(Prepare(m)) && WindowReady(cfg, p, m) && Holding(p, m, content, m.sizeBytes, true, true) && Newer(p, m)
    ensures Decodable(ApplyCommit(m.deployment, m.generation, m.digest))
    ensures var commit := ApplyCommit(m.deployment, m.generation, m.digest);
            && Follows(p, After(cfg, p, commit, now), m)
            && Handle(cfg, p, Says(commit, now)).effects != []
            && Torn(p, Run(p, Handle(cfg, p, Says(commit, now)).effects[..1]), m)
  {
    hide Alive, Holding;
    var explicit := cfg.guarantee == PrepareCommitAbort;
    CommitIsActivation(cfg, p, m, content, now);
    var r := p.mem.transfers[m.deployment];
    ActivationFollows(cfg, p, r, m, explicit, now);
    ActivationTears(cfg, p, r, m, explicit, now);
    FollowUps(m);
  }

  lemma CommitIsActivation(cfg: Config, p: World, m: PrepareMessage, content: Bytes, now: i64)
    requires Decodable(Prepare(m)) && WindowReady(cfg, p, m) && Holding(p, m, content, m.sizeBytes, true, true) && Newer(p, m)
    ensures m.deployment in p.mem.transfers
    ensures var r := p.mem.transfers[m.deployment];
            && r.stream == m.stream && r.key == m.key && r.generation == m.generation && r.digest == m.digest && r.artifact == m.artifact
            && ApplyCommitOutcome(cfg, p, m.deployment, m.generation, m.digest, now).effects
               == Activate(p, r, cfg.guarantee == PrepareCommitAbort, now)
  {
    hide Activate;
  }

  function Tail(p: World, r: TransferRecord, explicit: bool, now: i64): seq<Effect> {
    (if explicit then [RemovePending(r.key)] else []) +
    CommitGeneration(p.mem.window.applyPrepared || explicit, p.mem.counters.activations, p.mem.counters, r, now)
  }

  lemma ActivationTears(cfg: Config, p: World, r: TransferRecord, m: PrepareMessage, explicit: bool, now: i64)
    requires Alive(cfg, p) && (explicit ==> p.mem.window.applyPrepared)
    requires m.deployment in p.mem.transfers && p.mem.transfers[m.deployment] == r && r.stream == m.stream
    requires r.key == m.key && r.generation == m.generation && r.digest == m.digest && r.artifact == m.artifact
    ensures Activate(p, r, explicit, now) != [] && Torn(p, Run(p, Activate(p, r, explicit, now)[..1]), m)
  {
    hide Tail, CommitGeneration;
    ActivateShape(p, r, explicit, now);
    var switch := SwitchCurrent(r.key, Pointer(r.generation, r.digest, r.artifact));
    assert Activate(p, r, explicit, now)[..1] == [switch] by { hide Activate; }
    OneEffect(cfg, p, switch);
    forall x | x in p.dur.transfers ensures x in p.mem.transfers && p.dur.transfers[x].stream == p.mem.transfers[x].stream {
      assert Ahead(p.dur.transfers[x], p.mem.transfers[x]);
    }
  }

  lemma ActivationFollows(cfg: Config, p: World, r: TransferRecord, m: PrepareMessage, explicit: bool, now: i64)
    requires Alive(cfg, p) && (explicit ==> p.mem.window.applyPrepared)
    requires m.deployment in p.mem.transfers && p.mem.transfers[m.deployment] == r && r.stream == m.stream
    requires r.key == m.key && r.generation == m.generation && r.digest == m.digest && r.artifact == m.artifact
    ensures Follows(p, Run(p, Activate(p, r, explicit, now)), m)
  {
    hide Alive, Activate, CommitGeneration, Run;
    ActivateShape(p, r, explicit, now);
    var switch := SwitchCurrent(r.key, Pointer(r.generation, r.digest, r.artifact));
    var tail := Tail(p, r, explicit, now);
    OneEffect(cfg, p, switch);
    RunConcat(p, [switch], tail);
    var p1 := Do(p, switch);
    TailTrails(p, r, explicit, now);
    TrailingRun(m.key, m.generation, p1, tail);
    CommittedAgrees(cfg, p);
    TailCommits(cfg, p1, p, r, explicit, now);
  }

  lemma CommittedAgrees(cfg: Config, p: World)
    requires Alive(cfg, p)
    ensures p.mem.committed == p.dur.committed
  {
  }

  lemma TailTrails(p: World, r: TransferRecord, explicit: bool, now: i64)
    ensures forall e :: e in Tail(p, r, explicit, now) ==> Trailing(r.key, r.generation, e)
  {
  }

  function Closing(p: World, r: TransferRecord, explicit: bool): seq<Effect> {
    (if explicit then [RemovePending(r.key)] else []) +
    (if p.mem.window.applyPrepared || explicit then [Commit(AgentApplyResolved(Next64(p.mem.counters.activations)))] else [])
  }

  lemma ClosingRun(cfg: Config, w: World, p: World, r: TransferRecord, explicit: bool)
    requires w.mem.window == p.mem.window
    ensures var w' := Run(w, Closing(p, r, explicit));
            w'.mem.committed == w.mem.committed && w'.dur.committed == w.dur.committed && !w'.mem.window.applyPrepared
  {
    var a := if explicit then [RemovePending(r.key)] else [];
    var e := Commit(AgentApplyResolved(Next64(p.mem.counters.activations)));
    var b := if p.mem.window.applyPrepared || explicit then [e] else [];
    OneEffect(cfg, w, RemovePending(r.key));
    OneEffect(cfg, Run(w, a), e);
    RunConcat(w, a, b);
  }

  function Recording(p: World, r: TransferRecord, now: i64): seq<Effect> {
    [Commit(AgentFindingUpsert(AppliedFinding(r.key, r.generation, r.digest, r.artifact, r.deployment, Applied, now))),
     BumpActivations, CounterNote(p.mem.counters)]
  }

  lemma TailShape(p: World, r: TransferRecord, explicit: bool, now: i64)
    ensures Tail(p, r, explicit, now) ==
            Closing(p, r, explicit) + ([Commit(AgentTargetCommit(Pointer(r.generation, r.digest, r.artifact)))] + Recording(p, r, now))
    ensures forall e :: e in Recording(p, r, now) ==> Trailing(r.key, r.generation, e) && !(e.Commit? && e.record.AgentTargetCommit?)
  {
  }

  /** The tail records the pair and closes the window. */
  lemma TailCommits(cfg: Config, w: World, p: World, r: TransferRecord, explicit: bool, now: i64)
    requires w.mem.window == p.mem.window && w.mem.committed == w.dur.committed
    ensures var w' := Run(w, Tail(p, r, explicit, now));
            && w'.mem.committed.generation == r.generation && w'.mem.committed.digest == r.digest
            && w'.dur.committed == w'.mem.committed && !w'.mem.window.applyPrepared
  {
    hide Run, Tail, Closing, Recording, Trailing;
    var commit := Commit(AgentTargetCommit(Pointer(r.generation, r.digest, r.artifact)));
    var a, c := Closing(p, r, explicit), Recording(p, r, now);
    TailShape(p, r, explicit, now);
    ClosingRun(cfg, w, p, r, explicit);
    var w2 := Run(w, a);
    OneEffect(cfg, w2, commit);
    RunConcat(w, a, [commit] + c);
    RunConcat(w2, [commit], c);
    CommittedStays(Do(w2, commit), c);
    WindowStaysClosed(r.key, r.generation, Do(w2, commit), c);
  }

  lemma WindowStaysClosed(k: Id, g: u64, w: World, es: seq<Effect>)
    requires (forall e :: e in es ==> Trailing(k, g, e)) && !w.mem.window.applyPrepared
    ensures !Run(w, es).mem.window.applyPrepared
  {
    TrailingRun(k, g, w, es);
  }

  // ---- Deliveries and restarts as parts of runs ----

  lemma OneChunk(content: Bytes)
    ensures Joined([content]) == content
  {
    assert [content][1..] == [];
    assert Joined([content]) == content + Joined([]);
  }

  lemma PreparedIsReached(cfg: Config, ms: set<PrepareMessage>, w: World, m: PrepareMessage, content: Bytes)
    requires Reached(cfg, ms, Process(w, true)) && Decodable(Prepare(m)) && m in ms
    requires 0 < |content| <= MAX_CHUNK_BYTES && Held(w, m) == 0 && Missing(w, m, content, [content])
    ensures Reached(cfg, ms, Process(ReadyWorld(cfg, w, m, [content], 0), true))
  {
    hide Reached, After, Decodable, About, Held, Joined;
    FollowUps(m);
    AboutOffer(ms, m, content);
    assert Decodable(Chunk(m.stream, 0, content)) by { ChunkDecodes(m, content); }
    var w0 := After(cfg, w, Prepare(m), 0);
    SaidIsReached(cfg, ms, w, Prepare(m), 0);
    SaidIsReached(cfg, ms, w0, Chunk(m.stream, 0, content), 0);
    var w1 := After(cfg, w0, Chunk(m.stream, 0, content), 0);
    assert [content][1..] == [];
    assert Fed(cfg, w0, m.stream, 0, [content], 0) == w1;
    SaidIsReached(cfg, ms, w1, TransferComplete(m.deployment, m.digest, m.sizeBytes), 0);
    var w2 := After(cfg, w1, TransferComplete(m.deployment, m.digest, m.sizeBytes), 0);
    SaidIsReached(cfg, ms, w2, Stage(m.deployment, m.generation, m.digest), 0);
    var w3 := After(cfg, w2, Stage(m.deployment, m.generation, m.digest), 0);
    if cfg.guarantee == PrepareCommitAbort {
      SaidIsReached(cfg, ms, w3, ApplyPrepare(m.deployment, m.generation, m.digest), 0);
    }
  }

  lemma AboutOffer(ms: set<PrepareMessage>, m: PrepareMessage, content: Bytes)
    requires m in ms
    ensures About(ms, Prepare(m)) && About(ms, Chunk(m.stream, 0, content)) && About(ms, TransferComplete(m.deployment, m.digest, m.sizeBytes))
    ensures About(ms, Stage(m.deployment, m.generation, m.digest)) && About(ms, ApplyPrepare(m.deployment, m.generation, m.digest))
    ensures About(ms, ApplyCommit(m.deployment, m.generation, m.digest))
  {
  }

  lemma ChunkDecodes(m: PrepareMessage, content: Bytes)
    requires Decodable(Prepare(m)) && 0 < |content| <= MAX_CHUNK_BYTES
    ensures Decodable(Chunk(m.stream, 0, content)) && Sendable([content])
  {
  }

  lemma FollowsThrough(w: World, p: World, w': World, m: PrepareMessage)
    requires OnlyTransfer(m, w, p)
    ensures Follows(p, w', m) ==> Follows(w, w', m)
    ensures Torn(p, w', m) ==> Torn(w, w', m)
  {
  }

  /** A whole delivery of a new pair. */
  lemma Deliver(cfg: Config, ms: set<PrepareMessage>, w: World, m: PrepareMessage, content: Bytes) returns (w': World)
    requires Reached(cfg, ms, Process(w, true)) && m in ms && Welcome(cfg, w, m, content) && Deliverable(cfg, content) && Newer(w, m)
    requires Held(w, m) == 0
    ensures Reached(cfg, ms, Process(w', true)) && Follows(w, w', m)
  {
    var p := Ready(cfg, ms, w, m, content);
    hide Reached, Welcome, Follows, Torn, Holding, After, Alive, WindowReady, Decodable, Held;
    CommitFollows(cfg, p, m, content, 0);
    FollowUps(m);
    AboutOffer(ms, m, content);
    SaidIsReached(cfg, ms, p, ApplyCommit(m.deployment, m.generation, m.digest), 0);
    w' := After(cfg, p, ApplyCommit(m.deployment, m.generation, m.digest), 0);
    FollowsThrough(w, p, w', m);
  }

  lemma Ready(cfg: Config, ms: set<PrepareMessage>, w: World, m: PrepareMessage, content: Bytes) returns (p: World)
    requires Reached(cfg, ms, Process(w, true)) && m in ms && Welcome(cfg, w, m, content) && Deliverable(cfg, content) && Held(w, m) == 0
    ensures Reached(cfg, ms, Process(p, true)) && Decodable(Prepare(m)) && Alive(cfg, p)
    ensures WindowReady(cfg, p, m) && Holding(p, m, content, m.sizeBytes, true, true) && OnlyTransfer(m, w, p)
  {
    assert Decodable(Prepare(m)) && |content| < U64_LIMIT;
    hide Reached, Welcome, Holding, Decodable, Alive, Held, Joined, ReadyWorld;
    ReachedIsConsistent(cfg, ms, Process(w, true));
    OneChunk(content);
    assert content[0..] == content;
    ChunkDecodes(m, content);
    ReadyInTheEnd(cfg, w, m, content, [content], 0);
    PreparedIsReached(cfg, ms, w, m, content);
    p := ReadyWorld(cfg, w, m, [content], 0);
  }

  /** A delivery whose process dies between the switch and the commit record. */
  lemma DeliverAndDie(cfg: Config, ms: set<PrepareMessage>, w: World, m: PrepareMessage, content: Bytes) returns (w': World)
    requires Reached(cfg, ms, Process(w, true)) && m in ms && Welcome(cfg, w, m, content) && Deliverable(cfg, content) && Newer(w, m)
    requires Held(w, m) == 0
    ensures Reached(cfg, ms, Process(w', false)) && Torn(w, w', m)
  {
    var p := Ready(cfg, ms, w, m, content);
    FollowUps(m);
    AboutOffer(ms, m, content);
    var i := Says(ApplyCommit(m.deployment, m.generation, m.digest), 0);
    hide Reached, Welcome, Follows, Torn, Holding, Handle, Alive, WindowReady, Decodable, Run;
    CommitFollows(cfg, p, m, content, 0);
    NextIsReached(cfg, ms, Process(p, true), Cut(i, 1));
    w' := Run(p, Handle(cfg, p, i).effects[..1]);
    FollowsThrough(w, p, w', m);
  }

  /** A directory listing of whatever is there. */
  ghost function AnyListing(cfg: Config, w: World): (l: Listing)
    ensures ValidListing(cfg, w, l)
  {
    Listing(Tables.InIdOrder(w.files.staging.Keys), Tables.InIdOrder(w.dur.transfers.Keys),
            Tables.InIdOrder(set k | k in w.files.current.Keys + w.files.pending.Keys && Listed(cfg.liveRoot, k)), Zeros(16))
  }

  lemma Restart(cfg: Config, ms: set<PrepareMessage>, w: World, l: Listing) returns (w': World)
    requires Reached(cfg, ms, Process(w, false)) && CanBoot(w.dur) && ValidListing(cfg, Reload(w), l)
    ensures Reached(cfg, ms, Process(w', true)) && Recovered(cfg, Reload(w), w', l)
    ensures w' == Run(Reload(w), Boot(cfg, Reload(w), l)) && w'.dur.identity.term == w.dur.identity.term + 1
  {
    ReachedIsConsistent(cfg, ms, Process(w, false));
    hide Reached, Boot, Run, Recovered, ValidListing;
    BootSound(cfg, Reload(w), l);
    NextIsReached(cfg, ms, Process(w, false), Booted(l));
    w' := Run(Reload(w), Boot(cfg, Reload(w), l));
  }

  // ---- A key that recovery does not visit ----

  /** Which transfers there can be, by stream, and how new anything recorded is. */
  ghost predicate Within(s: AgentState, used: map<Id, u64>, newest: u64) {
    && (forall d :: d in s.transfers ==> d in used && s.transfers[d].stream == used[d])
    && (forall f :: f in s.findings ==> f.generation <= newest)
    && s.committed.generation <= newest && !s.window.applyPrepared
  }

  lemma NextOffer(cfg: Config, w: World, used: map<Id, u64>, newest: u64, m: PrepareMessage, content: Bytes)
    requires Within(w.mem, used, newest) && w.mem.committed.generation < m.generation
    requires forall f :: f in w.mem.findings ==> f.generation != m.generation
    requires m.deployment !in used && m.stream !in used.Values
    requires Deliverable(cfg, content) && m == Offer(cfg, m.deployment, m.stream, m.key, m.generation, content)
    requires m.key != UNSET && m.deployment != UNSET && '/' !in m.deployment && m.stream != 0
    ensures Welcome(cfg, w, m, content) && Held(w, m) == 0
  {
    forall d | d in w.mem.transfers ensures w.mem.transfers[d].stream != m.stream {
      assert used[d] in used.Values;
    }
  }

  /** The first process: a new identity is recorded and nothing is recovered. */
  function FirstWorld(cfg: Config): World {
    Do(FRESH, Commit(AgentIdentity(NextIdentity(cfg, INITIAL, Zeros(16)))))
  }

  lemma FirstBoot(cfg: Config)
    ensures var l := Listing([], [], [], Zeros(16));
            && Reload(FRESH) == FRESH && CanStart(cfg, FRESH, l) && Run(FRESH, Boot(cfg, FRESH, l)) == FirstWorld(cfg)
  {
    var l := Listing([], [], [], Zeros(16));
    var e := Commit(AgentIdentity(NextIdentity(cfg, INITIAL, l.incarnation)));
    assert Boot(cfg, FRESH, l) == [e];
    OneEffect(cfg, FRESH, e);
  }

  lemma FirstFacts(cfg: Config)
    ensures var w := FirstWorld(cfg);
            && Within(w.mem, map[], 0) && w.dur.identity.term == 1 && w.dur.identity.restartCount == 1
            && w.files.current == map[] && w.files.pending == map[] && w.switches == []
  {
  }

  lemma FirstStart(cfg: Config, ms: set<PrepareMessage>) returns (w: World)
    ensures Reached(cfg, ms, Process(w, true)) && Within(w.mem, map[], 0) && w.dur.identity.term == 1 && w.dur.identity.restartCount == 1
    ensures w.files.current == map[] && w.files.pending == map[] && w.switches == []
  {
    w := FirstWorld(cfg);
    FirstFacts(cfg);
    FirstBoot(cfg);
    FreshIsReached(cfg, ms);
    hide Boot, Run, Reached, FirstWorld, Within;
    NextIsReached(cfg, ms, Process(FRESH, false), Booted(Listing([], [], [], Zeros(16))));
  }

  /** One more delivery, in the terms the runs below go on with. */
  ghost predicate Delivered(cfg: Config, w: World, w': World, d: Id, stream: u64, k: Id, g: u64, content: Bytes) {
    && w'.mem.committed.generation == g && w'.mem.committed.digest == cfg.hash(content) && w'.dur.committed == w'.mem.committed
    && (forall f :: f in w'.mem.findings ==> f in w.mem.findings || (f.generation == g && f.key == k))
    && w'.switches == w.switches + [Switch(k, g, cfg.hash(content))]
    && w'.files.current == w.files.current[k := Pointer(g, cfg.hash(content), "a")]
    && w'.files.pending.Keys <= w.files.pending.Keys + {k} && w'.dur.identity == w.dur.identity
  }

  predicate Fits(used: map<Id, u64>, d: Id, stream: u64, k: Id) {
    d !in used && stream !in used.Values && k != UNSET && d != UNSET && '/' !in d && stream != 0
  }

  lemma DeliverNext(cfg: Config, ms: set<PrepareMessage>, w: World, used: map<Id, u64>, newest: u64, d: Id, stream: u64, k: Id, g: u64, content: Bytes)
    returns (w': World)
    requires Reached(cfg, ms, Process(w, true)) && Within(w.mem, used, newest) && w.mem.committed.generation < g
    requires (forall f :: f in w.mem.findings ==> f.generation != g) && Fits(used, d, stream, k) && Deliverable(cfg, content)
    requires Offer(cfg, d, stream, k, g, content) in ms
    ensures Reached(cfg, ms, Process(w', true)) && Delivered(cfg, w, w', d, stream, k, g, content)
    ensures Within(w'.mem, used[d := stream], if newest < g then g else newest)
  {
    hide Reached;
    var m := Offer(cfg, d, stream, k, g, content);
    NextOffer(cfg, w, used, newest, m, content);
    w' := Deliver(cfg, ms, w, m, content);
  }

  lemma DeliverNextAndDie(cfg: Config, ms: set<PrepareMessage>, w: World, used: map<Id, u64>, newest: u64, d: Id, stream: u64, k: Id, g: u64, content: Bytes)
    returns (w': World)
    requires Reached(cfg, ms, Process(w, true)) && Within(w.mem, used, newest) && newest < g
    requires Fits(used, d, stream, k) && Deliverable(cfg, content) && Offer(cfg, d, stream, k, g, content) in ms
    ensures Reached(cfg, ms, Process(w', false)) && Within(w'.dur.(window := CLOSED), used[d := stream], newest)
    ensures w'.dur.committed == w.dur.committed && w'.dur.identity == w.dur.identity
    ensures w'.switches == w.switches + [Switch(k, g, cfg.hash(content))]
    ensures w'.files.current == w.files.current[k := Pointer(g, cfg.hash(content), "a")]
    ensures w'.files.pending.Keys <= w.files.pending.Keys + {k}
  {
    hide Reached;
    var m := Offer(cfg, d, stream, k, g, content);
    NextOffer(cfg, w, used, newest, m, content);
    w' := DeliverAndDie(cfg, ms, w, m, content);
    SameRecords(cfg, ms, w);
  }

  /** In a serving process the records in memory are the durable ones, apart from bytes received. */
  lemma SameRecords(cfg: Config, ms: set<PrepareMessage>, w: World)
    requires Reached(cfg, ms, Process(w, true))
    ensures w.dur.findings == w.mem.findings && w.dur.committed == w.mem.committed
    ensures forall d :: d in w.dur.transfers ==> d in w.mem.transfers && w.dur.transfers[d].stream == w.mem.transfers[d].stream
  {
    ReachedIsConsistent(cfg, ms, Process(w, true));
    forall d | d in w.dur.transfers ensures d in w.mem.transfers && w.dur.transfers[d].stream == w.mem.transfers[d].stream {
      assert Ahead(w.dur.transfers[d], w.mem.transfers[d]);
    }
  }

  /** With the key's directory unvisited, a restart leaves the durable record behind the live pointer. */
  lemma RestartForgets(cfg: Config, ms: set<PrepareMessage>, k: Id, w: World, used: map<Id, u64>, newest: u64) returns (w': World)
    requires Reached(cfg, ms, Process(w, false)) && CanBoot(w.dur) && !Visited(cfg.liveRoot, k) && w.files.current.Keys + w.files.pending.Keys <= {k}
    requires Within(w.dur.(window := CLOSED), used, newest)
    ensures Reached(cfg, ms, Process(w', true)) && Within(w'.mem, used, newest)
    ensures w'.mem.committed == w.dur.committed && w'.files.current == w.files.current && w'.switches == w.switches
  {
    hide Listed, Skipped, Run, Boot;
    var l := AnyListing(cfg, Reload(w));
    w' := Restart(cfg, ms, w, l);
    var kept := Kept(cfg.liveRoot, l.keys);
    assert |kept| > 0 ==> kept[|kept| - 1] in kept;
    forall x ensures x !in kept {
      KeptIff(cfg.liveRoot, l.keys, x);
    }
  }

  function UnvisitedOffers(cfg: Config, k: Id, content: Bytes): (ms: set<PrepareMessage>)
    requires |content| < U64_LIMIT
    ensures forall m :: m in ms ==> m.key == k
    ensures Offer(cfg, "x", 1, k, 3, content) in ms && Offer(cfg, "y", 2, k, 5, content) in ms && Offer(cfg, "z", 3, k, 4, content) in ms
  {
    {Offer(cfg, "x", 1, k, 3, content), Offer(cfg, "y", 2, k, 5, content), Offer(cfg, "z", 3, k, 4, content)}
  }

  /** From an unvisited key's directory, the run: generation 3 is delivered; the process dies while 5 is committed, after
      the switch; it starts again with 3 committed and 5 live; and 4 is delivered. */
  lemma UnvisitedRun(cfg: Config, k: Id, content: Bytes) returns (torn: World, behind: World, back: World)
    requires !Visited(cfg.liveRoot, k) && k != UNSET && Deliverable(cfg, content)
    ensures Reached(cfg, UnvisitedOffers(cfg, k, content), Process(torn, false)) && CanBoot(torn.dur)
    ensures Reached(cfg, UnvisitedOffers(cfg, k, content), Process(behind, true)) && Names(behind.files, k, 5, cfg.hash(content))
    ensures behind.mem.committed.generation == 3 && behind.mem.committed.digest == cfg.hash(content)
    ensures !behind.mem.window.applyPrepared
    ensures Reached(cfg, UnvisitedOffers(cfg, k, content), Process(back, true)) && Names(back.files, k, 4, cfg.hash(content))
    ensures Switch(k, 5, cfg.hash(content)) in back.switches
  {
    hide Reached, Visited, Within;
    var ms := UnvisitedOffers(cfg, k, content);
    hide UnvisitedOffers, Offer;
    var w0 := FirstStart(cfg, ms);
    NothingNewer(w0.mem, map[], 0, 3);
    var w1 := DeliverNext(cfg, ms, w0, map[], 0, "x", 1, k, 3, content);
    torn := DeliverNextAndDie(cfg, ms, w1, map["x" := 1], 3, "y", 2, k, 5, content);
    var used := map["x" := 1]["y" := 2];
    behind := RestartForgets(cfg, ms, k, torn, used, 3);
    NothingNewer(behind.mem, used, 3, 4);
    back := DeliverNext(cfg, ms, behind, used, 3, "z", 3, k, 4, content);
  }

  lemma NothingNewer(s: AgentState, used: map<Id, u64>, newest: u64, g: u64)
    requires Within(s, used, newest) && newest < g
    ensures s.committed.generation < g && !s.window.applyPrepared && forall f :: f in s.findings ==> f.generation != g
  {
  }

  // ---- Two keys, visited in the wrong order ----

  /** The process dies while it serves, between two messages. */
  lemma Die(cfg: Config, ms: set<PrepareMessage>, w: World)
    requires Reached(cfg, ms, Process(w, true))
    ensures Reached(cfg, ms, Process(w, false))
  {
    hide Reached;
    var i := Says(ReconcileRequest(0), 0);
    assert Handle(cfg, w, i).effects[..0] == [];
    NextIsReached(cfg, ms, Process(w, true), Cut(i, 0));
  }

  lemma BothListed(cfg: Config, w: World, newer: Id, older: Id)
    requires newer != older && Visited(cfg.liveRoot, newer) && Visited(cfg.liveRoot, older)
    requires w.files.current.Keys == {newer, older} && w.files.pending.Keys <= {newer, older}
    ensures Lists([newer, older], set k | k in w.files.current.Keys + w.files.pending.Keys && Listed(cfg.liveRoot, k))
    ensures Distinct([newer, older]) && Kept(cfg.liveRoot, [newer, older]) == [newer, older]
  {
    hide Listed, Skipped;
    var both := [newer, older];
    assert both[0] == newer && both[1] == older;
    KeptFirst(cfg.liveRoot, newer, [older]);
    KeptFirst(cfg.liveRoot, older, []);
    assert [newer] + [older] == both;
  }

  lemma EitherOrder(cfg: Config, w: World, newer: Id, older: Id) returns (l: Listing)
    requires newer != older && Visited(cfg.liveRoot, newer) && Visited(cfg.liveRoot, older)
    requires w.files.current.Keys == {newer, older} && w.files.pending.Keys <= {newer, older}
    ensures ValidListing(cfg, w, l) && l.keys == [newer, older] && Kept(cfg.liveRoot, l.keys) == [newer, older]
  {
    BothListed(cfg, w, newer, older);
    hide Visited, Listed, Skipped, AnyListing, Lists, Distinct, Kept;
    l := AnyListing(cfg, w).(keys := [newer, older]);
  }

  /** Whatever else there is, two directories may be listed in either order. */
  lemma RestartInOrder(cfg: Config, ms: set<PrepareMessage>, w: World, newer: Id, older: Id, used: map<Id, u64>, newest: u64) returns (w': World)
    requires Reached(cfg, ms, Process(w, false)) && CanBoot(w.dur) && newer != older
    requires Visited(cfg.liveRoot, newer) && Visited(cfg.liveRoot, older)
    requires w.files.current.Keys == {newer, older} && w.files.pending.Keys <= {newer, older}
    requires w.files.current[older].generation <= newest && Within(w.dur.(window := CLOSED), used, newest)
    ensures Reached(cfg, ms, Process(w', true)) && w'.files.current == w.files.current && w'.switches == w.switches
    ensures w'.mem.committed.generation == w.files.current[older].generation && w'.mem.findings == w.dur.findings
    ensures Within(w'.mem, used, newest)
  {
    hide Visited, Run, Boot, Reached, ValidListing, Kept;
    var l := EitherOrder(cfg, Reload(w), newer, older);
    w' := Restart(cfg, ms, w, l);
  }

  /** When the restart's walk ends at the older of two keys, the target lowers its fence: generation 5 is live for "a" and 7
      for "b", and an offer of 6 for "b" is refused as stale; after a restart with 5 committed it is delivered, and the
      live pointer of "b" goes from 7 back to 6. */
  lemma RestartCanLowerTheFence(cfg: Config, content: Bytes) returns (live: World, lowered: World, back: World)
    requires Deliverable(cfg, content)
    ensures Reached(cfg, TwoKeyOffers(cfg, content), Process(live, true)) && Names(live.files, "b", 7, cfg.hash(content)) && Fence(live)
    ensures PrepareOutcome(cfg, live, Offer(cfg, "z", 3, "b", 6, content), 0).replies[0].PrepareReject?
    ensures Reached(cfg, TwoKeyOffers(cfg, content), Process(lowered, true)) && lowered.files.current == live.files.current && !Fence(lowered)
    ensures Reached(cfg, TwoKeyOffers(cfg, content), Process(back, true)) && Names(back.files, "b", 6, cfg.hash(content))
    ensures Switch("b", 7, cfg.hash(content)) in back.switches
  {
    var ms := TwoKeyOffers(cfg, content);
    assert |content| < U64_LIMIT;
    hide Reached, Visited, Within, Deliverable, TwoKeyOffers, Offer, PrepareOutcome, Fits, CanBoot;
    live := TwoLive(cfg, content);
    IsRefused(cfg, live, content);
    lowered := WalkEndsAtTheOlder(cfg, ms, live, content);
    ThirdFits();
    back := DeliverNext(cfg, ms, lowered, map["x" := 1]["y" := 2], 7, "z", 3, "b", 6, content);
  }

  lemma ThirdFits()
    ensures Fits(map["x" := 1]["y" := 2], "z", 3, "b")
  {
  }

  lemma WalkEndsAtTheOlder(cfg: Config, ms: set<PrepareMessage>, live: World, content: Bytes) returns (lowered: World)
    requires Reached(cfg, ms, Process(live, true)) && Within(live.mem, map["x" := 1]["y" := 2], 7) && CanBoot(live.dur)
    requires live.files.current == map["a" := Pointer(5, cfg.hash(content), "a"), "b" := Pointer(7, cfg.hash(content), "a")]
    requires live.files.pending.Keys <= {"a", "b"} && forall f :: f in live.mem.findings ==> f.generation != 6
    ensures Reached(cfg, ms, Process(lowered, true)) && lowered.files.current == live.files.current && lowered.switches == live.switches
    ensures lowered.mem.committed.generation == lowered.dur.committed.generation == 5 && !Fence(lowered)
    ensures Within(lowered.mem, map["x" := 1]["y" := 2], 7) && forall f :: f in lowered.mem.findings ==> f.generation != 6
  {
    hide Reached, Visited, Within;
    var used := map["x" := 1]["y" := 2];
    SimpleKeys(cfg.liveRoot, "a");
    SimpleKeys(cfg.liveRoot, "b");
    Die(cfg, ms, live);
    DurableWithin(cfg, ms, live, used, 7);
    lowered := RestartInOrder(cfg, ms, live, "b", "a", used, 7);
    SameRecords(cfg, ms, lowered);
    assert lowered.files.current["b"].generation == 7;
  }

  function TwoKeyOffers(cfg: Config, content: Bytes): (ms: set<PrepareMessage>)
    requires |content| < U64_LIMIT
    ensures Offer(cfg, "x", 1, "a", 5, content) in ms && Offer(cfg, "y", 2, "b", 7, content) in ms && Offer(cfg, "z", 3, "b", 6, content) in ms
  {
    {Offer(cfg, "x", 1, "a", 5, content), Offer(cfg, "y", 2, "b", 7, content), Offer(cfg, "z", 3, "b", 6, content)}
  }

  lemma TwoLive(cfg: Config, content: Bytes) returns (live: World)
    requires Deliverable(cfg, content) && |content| < U64_LIMIT
    ensures Reached(cfg, TwoKeyOffers(cfg, content), Process(live, true)) && Within(live.mem, map["x" := 1]["y" := 2], 7)
    ensures live.mem.committed.generation == 7 && live.dur.committed.generation == 7 && CanBoot(live.dur)
    ensures live.files.current == map["a" := Pointer(5, cfg.hash(content), "a"), "b" := Pointer(7, cfg.hash(content), "a")]
    ensures live.files.pending.Keys <= {"a", "b"} && Switch("b", 7, cfg.hash(content)) in live.switches
    ensures forall f :: f in live.mem.findings ==> f.generation != 6
  {
    hide Reached, Within, Deliverable;
    var ms := TwoKeyOffers(cfg, content);
    hide TwoKeyOffers, Offer;
    var w0 := FirstStart(cfg, ms);
    NothingNewer(w0.mem, map[], 0, 5);
    NoFindings(w0.mem);
    var w1 := DeliverNext(cfg, ms, w0, map[], 0, "x", 1, "a", 5, content);
    NothingNewer(w1.mem, map["x" := 1], 5, 7);
    live := DeliverNext(cfg, ms, w1, map["x" := 1], 5, "y", 2, "b", 7, content);
  }

  lemma NoFindings(s: AgentState)
    requires Within(s, map[], 0)
    ensures forall f :: f in s.findings ==> f.generation == 0
  {
  }

  lemma IsRefused(cfg: Config, w: World, content: Bytes)
    requires w.mem.committed.generation == 7 && Deliverable(cfg, content)
    ensures PrepareOutcome(cfg, w, Offer(cfg, "z", 3, "b", 6, content), 0).replies[0].PrepareReject?
  {
  }

  lemma DurableWithin(cfg: Config, ms: set<PrepareMessage>, w: World, used: map<Id, u64>, newest: u64)
    requires Reached(cfg, ms, Process(w, true)) && Within(w.mem, used, newest)
    ensures Within(w.dur.(window := CLOSED), used, newest) && w.dur.findings == w.mem.findings
  {
    SameRecords(cfg, ms, w);
  }

  // ---- The same pair under two keys ----

  /** Two offers of the same pair, under two keys. */
  predicate SamePairOffers(cfg: Config, m1: PrepareMessage, m2: PrepareMessage, content: Bytes) {
    && Deliverable(cfg, content) && m1.key != m2.key && m1.deployment != m2.deployment && m1.stream != m2.stream && m1.generation != 0
    && m1 == Offer(cfg, m1.deployment, m1.stream, m1.key, m1.generation, content)
    && m2 == Offer(cfg, m2.deployment, m2.stream, m2.key, m1.generation, content)
    && Fits(map[], m1.deployment, m1.stream, m1.key) && Fits(map[], m2.deployment, m2.stream, m2.key)
  }

  /** From an empty disk: a pair is delivered under one key; the same pair is offered, sent and staged under another. Its
      commit is acknowledged as a duplicate, nothing was ever switched under the second key, and where the target opens
      a window for commits, that window stays open and every later offer is refused. */
  lemma SuppressedRun(cfg: Config, m1: PrepareMessage, m2: PrepareMessage, content: Bytes) returns (staged: World, after: World)
    requires SamePairOffers(cfg, m1, m2, content)
    ensures Reached(cfg, {m1, m2}, Process(staged, true)) && m2.deployment in staged.mem.transfers && staged.mem.transfers[m2.deployment].staged
    ensures Decodable(Prepare(m2)) && after == AfterCommit(cfg, staged, m2, 0)
    ensures CommitSucceeds(cfg, staged, m2, 0)
    ensures Reached(cfg, {m1, m2}, Process(after, true)) && Names(after.files, m1.key, m1.generation, m1.digest)
    ensures m2.key !in after.files.current && forall s :: s in after.switches ==> s.key != m2.key
    ensures cfg.guarantee == PrepareCommitAbort ==>
              forall m, now :: |PrepareOutcome(cfg, after, m, now).replies| > 0 && PrepareOutcome(cfg, after, m, now).replies[0].PrepareReject?
  {
    var ms := {m1, m2};
    var w1 := FirstOfThePair(cfg, ms, m1, m2, content);
    assert Deliverable(cfg, content);
    hide Reached, Holding, CommitSucceeds, WindowReady, Alive, Decodable, Welcome, SamePairOffers, Deliverable, PrepareOutcome;
    staged := Ready(cfg, ms, w1, m2, content);
    CommitSwitches(cfg, staged, m2, content, 0);
    after := AfterCommit(cfg, staged, m2, 0);
    FollowUps(m2);
    AboutOffer(ms, m2, content);
    SaidIsReached(cfg, ms, staged, ApplyCommit(m2.deployment, m2.generation, m2.digest), 0);
    SuppressedCommit(cfg, staged, m2, content);
  }

  lemma FirstOfThePair(cfg: Config, ms: set<PrepareMessage>, m1: PrepareMessage, m2: PrepareMessage, content: Bytes) returns (w1: World)
    requires SamePairOffers(cfg, m1, m2, content) && m1 in ms
    ensures Reached(cfg, ms, Process(w1, true)) && Welcome(cfg, w1, m2, content) && Repeated(w1, m2) && Held(w1, m2) == 0
    ensures Names(w1.files, m1.key, m1.generation, m1.digest) && m2.key !in w1.files.current
    ensures forall s :: s in w1.switches ==> s.key != m2.key
  {
    hide Reached, Within, Welcome;
    var w0 := FirstStart(cfg, ms);
    NothingNewer(w0.mem, map[], 0, m1.generation);
    w1 := DeliverNext(cfg, ms, w0, map[], 0, m1.deployment, m1.stream, m1.key, m1.generation, content);
    OfferedAgain(cfg, w0, w1, m1, m2, content);
  }

  lemma OfferedAgain(cfg: Config, w0: World, w1: World, m1: PrepareMessage, m2: PrepareMessage, content: Bytes)
    requires SamePairOffers(cfg, m1, m2, content) && Within(w0.mem, map[], 0)
    requires Delivered(cfg, w0, w1, m1.deployment, m1.stream, m1.key, m1.generation, content)
    requires Within(w1.mem, map[][m1.deployment := m1.stream], m1.generation)
    ensures Welcome(cfg, w1, m2, content) && Repeated(w1, m2) && Held(w1, m2) == 0
  {
  }

  /** A suppressed commit leaves files and window as they were. */
  lemma SuppressedCommit(cfg: Config, w: World, m: PrepareMessage, content: Bytes)
    requires Repeated(w, m) && Decodable(Prepare(m)) && WindowReady(cfg, w, m) && Holding(w, m, content, m.sizeBytes, true, true)
    ensures var w' := AfterCommit(cfg, w, m, 0);
            && w'.files == w.files && w'.switches == w.switches
            && (cfg.guarantee == PrepareCommitAbort ==>
                  forall x, now :: |PrepareOutcome(cfg, w', x, now).replies| > 0 && PrepareOutcome(cfg, w', x, now).replies[0].PrepareReject?)
    ensures m.deployment in w.mem.transfers && w.mem.transfers[m.deployment].staged
  {
    OneEffect(cfg, w, NoteDuplicate(w.mem.counters));
    FollowUps(m);
    assert Handle(cfg, w, Says(ApplyCommit(m.deployment, m.generation, m.digest), 0)).effects == [NoteDuplicate(w.mem.counters)];
  }

  // ---- Exactly the visited keys are fenced ----

  /** The live pointer is never older than anything it named before. */
  ghost predicate NeverBack(k: Id, w: World) {
    k in w.files.current ==> forall s :: s in w.switches ==> s.generation <= w.files.current[k].generation
  }

  ghost predicate AlwaysFenced(cfg: Config, k: Id) {
    forall ps: seq<Process>, es: seq<Event>, i: nat :: AgentLineage.KeyedTrace(cfg, k, ps, es) && i < |ps| ==> NeverBack(k, ps[i].w)
  }

  ghost predicate AlwaysAgrees(cfg: Config, k: Id) {
    forall ps: seq<Process>, es: seq<Event>, i: nat :: AgentLineage.KeyedTrace(cfg, k, ps, es) && i < |ps| && ps[i].up ==> AgentLineage.Agrees(k, ps[i].w)
  }

  lemma ReachedIsKeyed(cfg: Config, ms: set<PrepareMessage>, k: Id, p: Process) returns (ps: seq<Process>, es: seq<Event>)
    requires Reached(cfg, ms, p) && forall m :: m in ms ==> m.key == k
    ensures AgentLineage.KeyedTrace(cfg, k, ps, es) && |ps| > 0 && ps[|ps| - 1] == p
  {
    hide Enabled, Next;
    ps, es :| Reaches(cfg, ms, p, ps, es);
    forall e | e in es ensures AgentLineage.KeyedEvent(k, e) {
      assert Concerns(ms, e);
    }
  }

  /** The fence holds over all runs with one key if and only if recovery visits the key's directory. */
  lemma FencedIff(cfg: Config, k: Id, content: Bytes)
    requires k != UNSET && Deliverable(cfg, content)
    ensures AlwaysFenced(cfg, k) <==> Visited(cfg.liveRoot, k)
  {
    hide Visited, Reached, AgentLineage.KeyedTrace;
    if Visited(cfg.liveRoot, k) {
      forall ps: seq<Process>, es: seq<Event>, i: nat | AgentLineage.KeyedTrace(cfg, k, ps, es) && i < |ps| ensures NeverBack(k, ps[i].w) {
        AgentLineage.StaleFencing(cfg, k, ps, es, i);
      }
    } else {
      var torn, behind, back := UnvisitedRun(cfg, k, content);
      var ps, es := ReachedIsKeyed(cfg, UnvisitedOffers(cfg, k, content), k, Process(back, true));
      assert !NeverBack(k, ps[|ps| - 1].w);
    }
  }

  /** So does the agreement of a serving agent's committed pair with its live pointer. */
  lemma AgreesIff(cfg: Config, k: Id, content: Bytes)
    requires k != UNSET && Deliverable(cfg, content)
    ensures AlwaysAgrees(cfg, k) <==> Visited(cfg.liveRoot, k)
  {
    hide Visited, Reached, AgentLineage.KeyedTrace;
    if Visited(cfg.liveRoot, k) {
      forall ps: seq<Process>, es: seq<Event>, i: nat | AgentLineage.KeyedTrace(cfg, k, ps, es) && i < |ps| && ps[i].up ensures AgentLineage.Agrees(k, ps[i].w) {
        AgentLineage.ServingAgrees(cfg, k, ps, es, i);
      }
    } else {
      var torn, behind, back := UnvisitedRun(cfg, k, content);
      var ps, es := ReachedIsKeyed(cfg, UnvisitedOffers(cfg, k, content), k, Process(behind, true));
      BehindIsConsistent(cfg, UnvisitedOffers(cfg, k, content), behind);
      assert !AgentLineage.Agrees(k, ps[|ps| - 1].w);
    }
  }

  lemma BehindIsConsistent(cfg: Config, ms: set<PrepareMessage>, w: World)
    requires Reached(cfg, ms, Process(w, true))
    ensures w.mem.committed == w.dur.committed
  {
    ReachedIsConsistent(cfg, ms, Process(w, true));
  }
}
