/** Distributor and target in one session without incident: what the target answers to what the distributor says, and that
    this takes a delivery all the way to Acknowledged. */
module EndToEnd {
  import opened Prelude
  import opened Lifecycle
  import opened AgentState
  import opened Messages
  import opened AgentModel
  import opened AgentInvariants
  import opened AgentHandlers
  import opened AgentProgress
  import opened AgentAnswers
  import opened Reconciliation
  import opened SessionScript
  import AgentManyKeys
  import Ledger
  import Policy
  import D = Distributor

  // ---- The target's side ----

  ghost predicate AllDecodable(ms: seq<Message>) {
    forall m :: m in ms ==> Decodable(m)
  }

  /** Everything the target answers to these messages, delivered once and in order. */
  ghost function Answers(cfg: Config, w: World, ms: seq<Message>, now: i64): seq<Reply>
    requires AllDecodable(ms)
    decreases |ms|
  {
    if ms == [] then [] else Handle(cfg, w, Says(ms[0], now)).replies + Answers(cfg, After(cfg, w, ms[0], now), ms[1..], now)
  }

  ghost function Afterwards(cfg: Config, w: World, ms: seq<Message>, now: i64): World
    requires AllDecodable(ms)
    decreases |ms|
  {
    if ms == [] then w else Afterwards(cfg, After(cfg, w, ms[0], now), ms[1..], now)
  }

  lemma FirstAnswer(cfg: Config, w: World, m: Message, rest: seq<Message>, now: i64)
    requires Decodable(m) && AllDecodable(rest)
    ensures AllDecodable([m] + rest)
    ensures Answers(cfg, w, [m] + rest, now) == Handle(cfg, w, Says(m, now)).replies + Answers(cfg, After(cfg, w, m, now), rest, now)
    ensures Afterwards(cfg, w, [m] + rest, now) == Afterwards(cfg, After(cfg, w, m, now), rest, now)
  {
    hide Handle, After, Decodable;
    var ms := [m] + rest;
    assert ms[0] == m && ms[1..] == rest;
  }

  /** The session works at this offer, under the target's present identity. */
  ghost predicate Serves(cfg: Config, w: World, m: PrepareMessage, g: Goal) {
    && Alive(cfg, w) && Newer(w, m) && Decodable(Prepare(m))
    && g.id == m.deployment && g.generation == m.generation && g.digest == m.digest && g.sizeBytes == m.sizeBytes
    && g.windowed == (cfg.guarantee == PrepareCommitAbort)
    && g.term == w.mem.identity.term && g.incarnation == w.mem.identity.incarnation
  }

  ghost predicate EndsLive(cfg: Config, w: World, ms: seq<Message>, m: PrepareMessage, now: i64) {
    AllDecodable(ms) && AgentManyKeys.Names(Afterwards(cfg, w, ms, now).files, m.key, m.generation, m.digest)
  }

  lemma StillServes(cfg: Config, w: World, w': World, m: PrepareMessage, g: Goal)
    requires Serves(cfg, w, m, g) && Alive(cfg, w') && OnlyTransfer(m, w, w')
    ensures Serves(cfg, w', m, g)
  {
  }

  lemma CommitAnswered(cfg: Config, w: World, m: PrepareMessage, g: Goal, content: Bytes, now: i64)
    requires Serves(cfg, w, m, g) && WindowReady(cfg, w, m) && Holding(w, m, content, m.sizeBytes, true, true)
    ensures EndsLive(cfg, w, CommitSaid(g), m, now) && CommitHeard(Answers(cfg, w, CommitSaid(g), now), g)
  {
    FollowUps(m);
    var c := ApplyCommit(m.deployment, m.generation, m.digest);
    CommitReplies(cfg, w, m, g, content, now);
    hide Alive, Holding, Handle, Decodable, WindowReady, After;
    CommitSwitches(cfg, w, m, content, now);
    FirstAnswer(cfg, w, c, [], now);
    assert CommitSaid(g) == [c] + [];
    assert Handle(cfg, w, Says(c, now)).replies + [] == Handle(cfg, w, Says(c, now)).replies;
  }

  lemma CommitReplies(cfg: Config, w: World, m: PrepareMessage, g: Goal, content: Bytes, now: i64)
    requires Serves(cfg, w, m, g) && WindowReady(cfg, w, m) && Holding(w, m, content, m.sizeBytes, true, true)
    ensures Decodable(ApplyCommit(m.deployment, m.generation, m.digest))
    ensures CommitHeard(Handle(cfg, w, Says(ApplyCommit(m.deployment, m.generation, m.digest), now)).replies, g)
  {
    hide Activate, Run, Alive;
  }

  lemma WindowAnswered(cfg: Config, w: World, m: PrepareMessage, g: Goal, content: Bytes, now: i64)
    requires Serves(cfg, w, m, g) && !w.mem.window.applyPrepared && Holding(w, m, content, m.sizeBytes, true, true)
    ensures EndsLive(cfg, w, WindowSaid(g), m, now) && WindowHeard(Answers(cfg, w, WindowSaid(g), now), g)
  {
    hide Alive, Holding, Handle, Decodable, After, CommitHeard, OnlyTransfer, Answers, Afterwards, AllDecodable, AgentManyKeys.Names, CommitSaid;
    FollowUps(m);
    if g.windowed {
      var a := ApplyPrepare(m.deployment, m.generation, m.digest);
      WindowOpens(cfg, w, m, content, now);
      StaysAlive(cfg, w, a, now);
      StillServes(cfg, w, After(cfg, w, a, now), m, g);
      CommitAnswered(cfg, After(cfg, w, a, now), m, g, content, now);
      FirstAnswer(cfg, w, a, CommitSaid(g), now);
      Dropped(ApplyPrepareAck(m.deployment, true, Success), Answers(cfg, After(cfg, w, a, now), CommitSaid(g), now));
    } else {
      assert [] + CommitSaid(g) == CommitSaid(g);
      CommitAnswered(cfg, w, m, g, content, now);
    }
  }

  lemma Dropped(r: Reply, rest: seq<Reply>)
    ensures ([r] + rest)[0] == r && ([r] + rest)[1..] == rest
  {
  }

  lemma StageAnswered(cfg: Config, w: World, m: PrepareMessage, g: Goal, content: Bytes, now: i64)
    requires Serves(cfg, w, m, g) && !w.mem.window.applyPrepared && m.sizeBytes == |content| && Holding(w, m, content, m.sizeBytes, true, false)
    ensures EndsLive(cfg, w, StageSaid(g), m, now) && StageHeard(Answers(cfg, w, StageSaid(g), now), g)
  {
    hide Alive, Holding, Handle, Decodable, After, WindowHeard, OnlyTransfer, Answers, Afterwards, AllDecodable, AgentManyKeys.Names, WindowSaid;
    FollowUps(m);
    var a := Stage(m.deployment, m.generation, m.digest);
    StagingPlaces(cfg, w, m, content, now);
    StaysAlive(cfg, w, a, now);
    StillServes(cfg, w, After(cfg, w, a, now), m, g);
    WindowAnswered(cfg, After(cfg, w, a, now), m, g, content, now);
    FirstAnswer(cfg, w, a, WindowSaid(g), now);
    Dropped(StageAck(m.deployment, true, Success), Answers(cfg, After(cfg, w, a, now), WindowSaid(g), now));
  }

  lemma VerdictAnswered(cfg: Config, w: World, m: PrepareMessage, g: Goal, content: Bytes, now: i64)
    requires Serves(cfg, w, m, g) && !w.mem.window.applyPrepared && m.sizeBytes == |content| && cfg.hash(content) == m.digest
    requires Holding(w, m, content, m.sizeBytes, false, false)
    ensures EndsLive(cfg, w, VerdictSaid(g), m, now) && VerdictHeard(Answers(cfg, w, VerdictSaid(g), now), g)
  {
    hide Alive, Holding, Handle, Decodable, After, StageHeard, OnlyTransfer, Answers, Afterwards, AllDecodable, AgentManyKeys.Names, StageSaid;
    FollowUps(m);
    var a := TransferComplete(m.deployment, m.digest, m.sizeBytes);
    CompletionVerifies(cfg, w, m, content, now);
    StaysAlive(cfg, w, a, now);
    StillServes(cfg, w, After(cfg, w, a, now), m, g);
    StageAnswered(cfg, After(cfg, w, a, now), m, g, content, now);
    FirstAnswer(cfg, w, a, StageSaid(g), now);
    Dropped(TransferResult(m.deployment, true, m.sizeBytes, Success), Answers(cfg, After(cfg, w, a, now), StageSaid(g), now));
  }

  lemma {:induction false} ChunksAnswered(cfg: Config, w: World, m: PrepareMessage, g: Goal, content: Bytes, chunk: nat, n: u64, now: i64)
    requires Serves(cfg, w, m, g) && !w.mem.window.applyPrepared && m.sizeBytes == |content| && cfg.hash(content) == m.digest
    requires 0 < chunk <= MAX_CHUNK_BYTES && n <= |content| && Holding(w, m, content, n, false, false)
    ensures EndsLive(cfg, w, ChunksSaid(g, m.stream, content, chunk, n), m, now)
    ensures InOrder(Answers(cfg, w, ChunksSaid(g, m.stream, content, chunk, n), now), g, m.stream, chunk, n)
    decreases |content| - n
  {
    hide Alive, Holding, Handle, Decodable, After, VerdictHeard, OnlyTransfer, Answers, Afterwards, AllDecodable, AgentManyKeys.Names, VerdictSaid;
    if n == |content| {
      VerdictAnswered(cfg, w, m, g, content, now);
    } else {
      var next := NextOffset(n, chunk, g.sizeBytes);
      var data := content[n..next];
      var a := Chunk(m.stream, n, data);
      var rest := ChunksSaid(g, m.stream, content, chunk, next);
      assert Decodable(a) by { SliceDecodes(m, n, data); }
      ChunkAdvances(cfg, w, m, content, n, data, now);
      StaysAlive(cfg, w, a, now);
      var w' := After(cfg, w, a, now);
      StillServes(cfg, w, w', m, g);
      ChunksAnswered(cfg, w', m, g, content, chunk, next, now);
      FirstAnswer(cfg, w, a, rest, now);
      Dropped(ChunkAck(m.stream, next, Success), Answers(cfg, w', rest, now));
    }
  }

  lemma SliceDecodes(m: PrepareMessage, offset: u64, data: Bytes)
    requires Decodable(Prepare(m)) && 0 < |data| <= MAX_CHUNK_BYTES
    ensures Decodable(Chunk(m.stream, offset, data))
  {
  }

  lemma WelcomeFacts(cfg: Config, w: World, m: PrepareMessage, content: Bytes)
    requires Welcome(cfg, w, m, content)
    ensures Decodable(Prepare(m)) && m.sizeBytes == |content| && cfg.hash(content) == m.digest && !w.mem.window.applyPrepared
    ensures Held(w, m) <= |content|
  {
  }

  /** To an offer it has no reason to refuse, the target keeps to the script: its answers to the conversation, which sends
      what it does not have yet, are what the distributor hopes to hear, and at the end the key is live at exactly the offered pair. */
  lemma TargetKeepsToTheScript(cfg: Config, w: World, m: PrepareMessage, g: Goal, content: Bytes, chunk: nat, now: i64)
    requires Serves(cfg, w, m, g) && Welcome(cfg, w, m, content) && 0 < chunk <= MAX_CHUNK_BYTES
    ensures var said := OfferSaid(g, m, content, chunk, Held(w, m));
            && EndsLive(cfg, w, said, m, now)
            && OfferInOrder(Answers(cfg, w, said, now), g, m.stream, chunk) && Answers(cfg, w, said, now)[0].resumeFrom == Held(w, m)
  {
    WelcomeFacts(cfg, w, m, content);
    hide Alive, Holding, Handle, Decodable, After, OnlyTransfer, Answers, Afterwards, AllDecodable, AgentManyKeys.Names, Welcome, InOrder, ChunksSaid, Held;
    OfferStarts(cfg, w, m, content, now);
    var w' := After(cfg, w, Prepare(m), now);
    StaysAlive(cfg, w, Prepare(m), now);
    StillServes(cfg, w, w', m, g);
    var n := Held(w, m);
    ChunksAnswered(cfg, w', m, g, content, chunk, n, now);
    assert g.id == m.deployment && g.sizeBytes == m.sizeBytes && Decodable(Prepare(m));
    OfferThenRest(cfg, w, m, g, ChunksSaid(g, m.stream, content, chunk, n), chunk, n, now);
  }

  lemma OfferThenRest(cfg: Config, w: World, m: PrepareMessage, g: Goal, rest: seq<Message>, chunk: nat, n: u64, now: i64)
    requires Decodable(Prepare(m)) && g.id == m.deployment && EndsLive(cfg, After(cfg, w, Prepare(m), now), rest, m, now)
    requires InOrder(Answers(cfg, After(cfg, w, Prepare(m), now), rest, now), g, m.stream, chunk, n)
    requires var c := w.mem.committed;
             Handle(cfg, w, Says(Prepare(m), now)).replies == [PrepareAck(m.deployment, m.stream, n, false, c.generation, c.digest, c)]
    ensures EndsLive(cfg, w, [Prepare(m)] + rest, m, now)
    ensures OfferInOrder(Answers(cfg, w, [Prepare(m)] + rest, now), g, m.stream, chunk)
    ensures Answers(cfg, w, [Prepare(m)] + rest, now)[0].resumeFrom == n
  {
    hide Handle, After, Decodable, Answers, Afterwards, InOrder, AgentManyKeys.Names;
    FirstAnswer(cfg, w, Prepare(m), rest, now);
    Dropped(Handle(cfg, w, Says(Prepare(m), now)).replies[0], Answers(cfg, After(cfg, w, Prepare(m), now), rest, now));
  }

  // ---- Both sides ----

  /** The conversation about a delivery of whose content the target holds the first `held` bytes. */
  function Everything(d: D.Distributor, r: Ledger.DeliveryRecord, term: u64, incarnation: Bytes, chunk: u32, report: Option<ReconcileReport>, held: u64): seq<Message>
    reads d`artifacts
  {
    if d.Complete(r) then OfferSaid(GoalOf(r, term, incarnation), d.OfferIn(r, chunk, report), d.artifacts[r.digest], chunk, held) else []
  }

  /** The target finds nothing to refuse, and the replies are its own to the conversation, every message of which arrives
      once and in order. */
  ghost predicate Carries(d: D.Distributor, r: Ledger.DeliveryRecord, replies: seq<Reply>, sends: seq<bool>, term: u64, incarnation: Bytes,
                          chunk: u32, report: Option<ReconcileReport>, cfg: Config, w: World, now: i64)
    reads d`artifacts
  {
    var m := d.OfferIn(r, chunk, report);
    && d.Complete(r) && chunk > 0 && Welcome(cfg, w, m, d.artifacts[r.digest]) && Serves(cfg, w, m, GoalOf(r, term, incarnation))
    && var said := Everything(d, r, term, incarnation, chunk, report, Held(w, m));
       AllDecodable(said) && replies == Answers(cfg, w, said, now) && Flows(sends, |said|)
  }

  lemma CarriedIsUneventful(d: D.Distributor, r: Ledger.DeliveryRecord, replies: seq<Reply>, sends: seq<bool>, term: u64, incarnation: Bytes,
                            chunk: u32, report: Option<ReconcileReport>, cfg: Config, w: World, now: i64)
    requires Carries(d, r, replies, sends, term, incarnation, chunk, report, cfg, w, now) && r.state != Verified && r.state != Staged
    ensures var m := d.OfferIn(r, chunk, report);
            var said := Everything(d, r, term, incarnation, chunk, report, Held(w, m));
            && d.UneventfulIn(r, replies, sends, term, incarnation, chunk)
            && d.ConversationIn(r, replies, term, incarnation, chunk, report) == said && EndsLive(cfg, w, said, m, now)
  {
    hide Answers, Welcome, Serves, EndsLive, ChunksHeard, ChunksFollow, ChunksSaid, InOrder, AllDecodable, Held;
    var m := d.OfferIn(r, chunk, report);
    assert chunk <= MAX_CHUNK_BYTES by { OfferedChunk(cfg, w, m, GoalOf(r, term, incarnation)); }
    TargetKeepsToTheScript(cfg, w, m, GoalOf(r, term, incarnation), d.artifacts[r.digest], chunk, now);
    InOrderFollows(replies[1..], GoalOf(r, term, incarnation), m.stream, d.artifacts[r.digest], chunk, Held(w, m));
  }

  lemma OfferedChunk(cfg: Config, w: World, m: PrepareMessage, g: Goal)
    requires Serves(cfg, w, m, g)
    ensures m.chunkBytes <= MAX_CHUNK_BYTES
  {
  }

  /** A delivery that is due, in a session that carries every message once and in order to a target with nothing to refuse,
      is acknowledged, and the target's live pointer names exactly its pair. */
  method DriveOnce(d: D.Distributor, s: D.Session, id: Id, ghost cfg: Config, ghost w: World, ghost now: i64) returns (st: D.Status)
    requires d.Valid() && id in d.deliveries && d.deliveries[id].target == s.target && d.ArtifactsFit()
    requires Policy.Decide(d.policy, d.DecisionFor(d.deliveries[id])) == Policy.Action.Offer
    requires Carries(d, d.deliveries[id], s.replies, s.sends, s.term, s.incarnation, d.ChunkSize(s), s.report, cfg, w, now)
    modifies d`deliveries, d`log, d`targets, s`sends, s`replies
    ensures d.Valid() && st == D.Done && id in d.deliveries && d.deliveries[id].state == Acknowledged
    ensures var r := old(d.deliveries)[id];
            var said := Everything(d, r, s.term, s.incarnation, d.ChunkSize(s), s.report, Held(w, d.OfferOf(s, r)));
            && Said(d.log) == Said(old(d.log)) + said && AllDecodable(said)
            && AgentManyKeys.Names(Afterwards(cfg, w, said, now).files, r.key, r.generation, r.digest)
  {
    hide Policy.Decide, Answers, Welcome, Serves, Held, Ledger.Lawful, Ledger.Books, Said, Afterwards, AllDecodable, OfferSaid;
    d.OwnId(id);
    Policy.ActsExactlyWhen(d.policy, d.DecisionFor(d.deliveries[id]));
    CarriedIsUneventful(d, d.deliveries[id], s.replies, s.sends, s.term, s.incarnation, d.ChunkSize(s), s.report, cfg, w, now);
    st := d.DriveDelivery(s, id);
  }

  // ---- A whole session ----

  /** What a whole session hears from a target in the world `w`: greeting, report, and the conversation. */
  ghost predicate SessionCarries(d: D.Distributor, s: D.Session, id: Id, hello: ControllerFence, cfg: Config, w: World, listed: seq<Id>, n: u32, now: i64)
    requires forall x :: x in listed ==> x in w.mem.transfers
    reads d`artifacts, d`deliveries, s`sends, s`replies
  {
    var w1 := Greeted(w, hello);
    var report := ReportOf(cfg, w1, listed, n);
    && id in d.deliveries && Greets(w, hello) && |s.replies| >= 2 && s.replies[0] == Greeting(w) && s.replies[1] == Report(report) && Flows(s.sends, 2)
    && Carries(d, d.deliveries[id], s.replies[2..], s.sends[2..], w.mem.identity.term, w.mem.identity.incarnation, d.ChunkSize(s), Some(report), cfg, w1, now)
  }

  /** The conversation after a report of a target in the world `w`. */
  ghost function Conversing(d: D.Distributor, r: Ledger.DeliveryRecord, chunk: u32, cfg: Config, w: World, listed: seq<Id>, n: u32): seq<Message>
    requires forall x :: x in listed ==> x in w.mem.transfers
    reads d`artifacts
  {
    var report := ReportOf(cfg, w, listed, n);
    Everything(d, r, w.mem.identity.term, w.mem.identity.incarnation, chunk, Some(report), Held(w, d.OfferIn(r, chunk, Some(report))))
  }

  /** The delivery is the only pending one of the target, wanted as it is, and neither there nor begun. */
  ghost predicate Starts(d: D.Distributor, s: D.Session, id: Id, cfg: Config, w: World)
    reads d`deliveries, d`targets, d`clock
  {
    && d.clock > 0 && D.Distributor.Sole(s.target, d.deliveries, id) && Index(d.deliveries[id].state) <= 2 && !d.Superseded(d.deliveries[id])
    && w.mem.identity.target == s.target && w.mem.identity.guarantee == cfg.guarantee
    && NotThere(w, d.deliveries[id].generation, d.deliveries[id].digest)
    && D.Distributor.Authentic(D.Distributor.KnownOf(d.targets, s.target), w.mem.identity.term, w.mem.identity.incarnation)
  }

  /** The target has neither committed nor remembered this pair. */
  predicate NotThere(w: World, g: u64, h: Digest) {
    && (IsSet(w.mem.committed) ==> w.mem.committed.generation < g) && !RecordedActivation(w.mem.findings, g, h)
  }

  lemma NothingToAdopt(cfg: Config, w: World, listed: seq<Id>, n: u32, i: ReconcileInput)
    requires (forall x :: x in listed ==> x in w.mem.transfers) && i.report == Some(ReportOf(cfg, w, listed, n))
    requires NotThere(w, i.desiredGeneration, i.desiredDigest)
    ensures ReconcileDelivery(i) != ReconcileOutcome.AdoptActivation
  {
    var r := i.report.value;
    forall f | f in r.findings ensures !(f.generation == i.desiredGeneration && f.digest == i.desiredDigest && IsActivationState(f.state)) {
      assert f in w.mem.findings;
    }
  }

  /** One whole session between the two: the target accepts the greeting, has not got the pair and holds no window; the
      delivery is the only pending one of the target and not begun at it. Then the session ends with the delivery
      acknowledged, exactly the expected messages said, and the live pointer at the pair. */
  method SessionOnce(d: D.Distributor, s: D.Session, id: Id, hello: ControllerFence, maxFindings: u32,
                     ghost cfg: Config, ghost w: World, ghost listed: seq<Id>, ghost now: i64) returns (st: D.Status)
    requires d.Valid() && d.ArtifactsFit() && Starts(d, s, id, cfg, w) && forall x :: x in listed ==> x in w.mem.transfers
    requires SessionCarries(d, s, id, hello, cfg, w, listed, maxFindings, now)
    modifies d`deliveries, d`log, d`targets, s`sends, s`replies, s`term, s`incarnation, s`report
    ensures d.Valid() && st == D.Done && id in d.deliveries && d.deliveries[id].state == Acknowledged
    ensures var r := old(d.deliveries)[id];
            var said := Conversing(d, r, d.ChunkSize(s), cfg, Greeted(w, hello), listed, maxFindings);
            && Said(d.log) == Said(old(d.log)) + ([Hello(hello), ReconcileRequest(maxFindings)] + said) && AllDecodable(said)
            && AgentManyKeys.Names(Afterwards(cfg, Greeted(w, hello), said, now).files, r.key, r.generation, r.digest)
  {
    hide Answers, Welcome, Serves, Held, Ledger.Lawful, Ledger.Books, Said, Afterwards, AllDecodable, OfferSaid, ReconcileDelivery, Starts;
    hide D.Distributor.Straightforward, D.Distributor.ConversationIn, D.Distributor.Sole, Conversing, Carries, SessionCarries, Greeted;
    SessionIsStraightforward(d, s, id, hello, maxFindings, cfg, w, listed, now);
    st := d.RunSession(s, hello, maxFindings);
  }

  lemma SessionIsStraightforward(d: D.Distributor, s: D.Session, id: Id, hello: ControllerFence, maxFindings: u32, cfg: Config, w: World, listed: seq<Id>, now: i64)
    requires Starts(d, s, id, cfg, w) && forall x :: x in listed ==> x in w.mem.transfers
    requires SessionCarries(d, s, id, hello, cfg, w, listed, maxFindings, now)
    ensures d.Straightforward(s, id) && d.Complete(d.deliveries[id])
    ensures var r, w1 := d.deliveries[id], Greeted(w, hello);
            var said := Conversing(d, r, d.ChunkSize(s), cfg, w1, listed, maxFindings);
            && d.ConversationIn(r, s.replies[2..], s.replies[0].term, s.replies[0].incarnation, d.ChunkSize(s), Some(s.replies[1].report)) == said
            && EndsLive(cfg, w1, said, d.OfferIn(r, d.ChunkSize(s), Some(s.replies[1].report)), now)
  {
    hide Answers, Welcome, Serves, Held, AllDecodable, OfferSaid, ReconcileDelivery, EndsLive, D.Distributor.Authentic;
    var r := d.deliveries[id];
    var w1 := Greeted(w, hello);
    var report := ReportOf(cfg, w1, listed, maxFindings);
    var term, incarnation := w.mem.identity.term, w.mem.identity.incarnation;
    CarriedIsUneventful(d, r, s.replies[2..], s.sends[2..], term, incarnation, d.ChunkSize(s), Some(report), cfg, w1, now);
    NothingToAdopt(cfg, w1, listed, maxFindings, D.Distributor.ReconcileQuestion(Some(report), term, incarnation, r));
    WelcomeMeans(cfg, w1, d.OfferIn(r, d.ChunkSize(s), Some(report)), d.artifacts[r.digest]);
    assert s.replies[1..][0] == s.replies[1];
  }

  lemma WelcomeMeans(cfg: Config, w: World, m: PrepareMessage, content: Bytes)
    requires Welcome(cfg, w, m, content)
    ensures GuaranteeSatisfies(cfg.guarantee, m.requirement) && !w.mem.window.applyPrepared && m.generation != 0
    ensures w.mem.committed.generation <= m.generation
  {
  }

  /** A lost acknowledgement is made up for: when the target reports that it committed the pair of a pending delivery, the
      session records the delivery as acknowledged. */
  method LostAcknowledgement(d: D.Distributor, s: D.Session, id: Id, maxFindings: u32, ghost cfg: Config, ghost w: World, ghost listed: seq<Id>) returns (st: D.Status)
    requires d.Valid() && id in d.deliveries && d.deliveries[id].target == s.target && IsPendingState(d.deliveries[id].state)
    requires d.deliveries[id].digest != NO_DIGEST && forall x :: x in listed ==> x in w.mem.transfers
    requires w.mem.committed.generation == d.deliveries[id].generation && w.mem.committed.digest == d.deliveries[id].digest && !w.mem.window.applyPrepared
    requires w.mem.identity.target == s.target && s.term == w.mem.identity.term && s.incarnation == w.mem.identity.incarnation
    requires s.replies != [] && s.replies[0] == Report(ReportOf(cfg, w, listed, maxFindings)) && Flows(s.sends, 1)
    modifies d`deliveries, d`log, d`targets, s`sends, s`replies, s`report
    ensures d.Valid() && st == D.Done && id in d.deliveries
    ensures d.deliveries[id].state == Acknowledged && d.deliveries[id].acknowledgedFromReconcile
  {
    hide Ledger.Lawful, Ledger.Books, Said, ReconcileDelivery;
    d.OwnId(id);
    ghost var before := d.deliveries;
    CommittedIsAdopted(cfg, w, listed, maxFindings,
                       D.Distributor.ReconcileQuestion(Some(ReportOf(cfg, w, listed, maxFindings)), s.term, s.incarnation, before[id]));
    st := d.Reconcile(s, maxFindings);
    assert D.Distributor.ApplyOne(before[id], d.deliveries[id], s.target, s.report, s.term, s.incarnation);
  }

  lemma CommittedIsAdopted(cfg: Config, w: World, listed: seq<Id>, n: u32, i: ReconcileInput)
    requires (forall x :: x in listed ==> x in w.mem.transfers) && i.report == Some(ReportOf(cfg, w, listed, n)) && !w.mem.window.applyPrepared
    requires i.sessionTerm == w.mem.identity.term && i.sessionIncarnation == w.mem.identity.incarnation
    requires i.desiredGeneration != 0 && i.desiredDigest != NO_DIGEST
    requires w.mem.committed.generation == i.desiredGeneration && w.mem.committed.digest == i.desiredDigest
    ensures ReconcileDelivery(i) == ReconcileOutcome.AdoptActivation
  {
  }
}
