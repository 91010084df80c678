/** Distributor and targets together: evidence is never invented. */
module EvidenceRuns {
  import opened Prelude
  import opened Lifecycle
  import opened AgentState
  import opened Messages
  import opened AgentModel
  import opened AgentInvariants
  import opened AgentHandlers
  import opened AgentRuns
  import opened Reconciliation
  import opened Ledger

  // ---- What a target says is true ----

  /** Every activation a reply speaks of really was live at the target. */
  ghost predicate Truthful(names: Derivation, target: Id, reply: Reply, switches: seq<Switch>) {
    match reply
    case PrepareAck(id, _, _, duplicate, _, _, _) =>
      duplicate ==> forall k, g, d :: names.delivery(target, k, g, d) == id ==> WasLive(switches, g, d)
    case ApplyCommitAck(_, committed, _, g, d) => committed && g != 0 ==> WasLive(switches, g, d)
    case DeliveryAck(a) => a.generation != 0 ==> WasLive(switches, a.generation, a.digest)
    case Report(r) =>
      && (r.committed.generation != 0 ==> WasLive(switches, r.committed.generation, r.committed.digest))
      && forall f :: f in r.findings ==> WasLive(switches, f.generation, f.digest)
    case _ => true
  }

  predicate FromDistributor(names: Derivation, target: Id, m: Message) {
    m.Prepare? ==> m.offer.deployment == names.delivery(target, m.offer.key, m.offer.generation, m.offer.digest)
  }

  lemma LiveGrows(a: seq<Switch>, b: seq<Switch>, g: u64, d: Digest)
    requires a <= b && WasLive(a, g, d)
    ensures WasLive(b, g, d)
  {
    var i :| 0 <= i < |a| && a[i].generation == g && a[i].digest == d;
    assert b[i] == a[i];
  }

  /** Truth lasts: the history of a live pointer only grows. */
  lemma TruthLasts(names: Derivation, target: Id, reply: Reply, a: seq<Switch>, b: seq<Switch>)
    requires a <= b && Truthful(names, target, reply, a)
    ensures Truthful(names, target, reply, b)
  {
    forall g, d | WasLive(a, g, d) ensures WasLive(b, g, d) { LiveGrows(a, b, g, d); }
  }

  lemma {:induction false} SwitchesGrow(w: World, es: seq<Effect>)
    ensures w.switches <= Run(w, es).switches
    decreases |es|
  {
    if es != [] { SwitchesGrow(Do(w, es[0]), es[1..]); }
  }

  lemma SwitchedIsLive(w: World, k: Id, g: u64, d: Digest)
    requires Switched(w, k, g, d)
    ensures WasLive(w.switches, g, d)
  {
    var i :| 0 <= i < |w.switches| && w.switches[i] == Switch(k, g, d);
  }

  lemma FindingIsLive(cfg: Config, w: World, f: AppliedFinding)
    requires Alive(cfg, w) && f in w.mem.findings
    ensures WasLive(w.switches, f.generation, f.digest)
  {
    assert f in w.dur.findings && Switched(w, f.key, f.generation, f.digest);
    SwitchedIsLive(w, f.key, f.generation, f.digest);
  }

  lemma CommittedIsLive(cfg: Config, w: World)
    requires Alive(cfg, w)
    ensures IsSet(w.mem.committed) ==> WasLive(w.switches, w.mem.committed.generation, w.mem.committed.digest)
  {
    assert w.mem.committed == w.dur.committed;
  }

  lemma PrepareTruth(names: Derivation, cfg: Config, target: Id, w: World, m: PrepareMessage, now: i64, reply: Reply)
    requires Injective(names) && Alive(cfg, w) && FromDistributor(names, target, Prepare(m))
    requires reply in PrepareOutcome(cfg, w, m, now).replies
    ensures Truthful(names, target, reply, w.switches)
  {
    if reply.PrepareAck? && reply.duplicateSuppressed {
      var f := FindFinding(w.mem.findings, m.key, m.digest).value;
      FindingIsLive(cfg, w, f);
      forall k, g, d | names.delivery(target, k, g, d) == reply.deployment ensures WasLive(w.switches, g, d) {
        assert k == m.key && g == m.generation && d == m.digest;
      }
    }
  }

  lemma CommitTruth(names: Derivation, cfg: Config, target: Id, w: World, id: Id, g: u64, d: Digest, now: i64, reply: Reply)
    requires Alive(cfg, w) && reply in ApplyCommitOutcome(cfg, w, id, g, d, now).replies
    ensures Truthful(names, target, reply, Run(w, ApplyCommitOutcome(cfg, w, id, g, d, now).effects).switches)
  {
    hide Activate, Apply, Run, Alive;
    var es := ApplyCommitOutcome(cfg, w, id, g, d, now).effects;
    SwitchesGrow(w, es);
    CommittedIsLive(cfg, w);
    var after := Run(w, es).switches;
    if IsSet(w.mem.committed) { LiveGrows(w.switches, after, w.mem.committed.generation, w.mem.committed.digest); }
    if RecordedActivation(w.mem.findings, g, d) {
      var f :| f in w.mem.findings && f.generation == g && f.digest == d && IsActivationState(f.state);
      FindingIsLive(cfg, w, f);
      LiveGrows(w.switches, after, g, d);
    }
    if Admits(cfg, w, id, g, d) { ActivationIsLive(cfg, w, id, now); }
  }

  lemma ActivationIsLive(cfg: Config, w: World, id: Id, now: i64)
    requires id in w.mem.transfers
    requires cfg.guarantee == PrepareCommitAbort ==> w.mem.window.applyPrepared
    ensures var r := w.mem.transfers[id];
            WasLive(Run(w, Activate(w, r, cfg.guarantee == PrepareCommitAbort, now)).switches, r.generation, r.digest)
  {
    hide Activate, CommitGeneration, Apply;
    var r := w.mem.transfers[id];
    var explicit := cfg.guarantee == PrepareCommitAbort;
    ActivateShape(w, r, explicit, now);
    var switch := SwitchCurrent(r.key, Pointer(r.generation, r.digest, r.artifact));
    var rest := (if explicit then [RemovePending(r.key)] else []) +
                CommitGeneration(w.mem.window.applyPrepared || explicit, w.mem.counters.activations, w.mem.counters, r, now);
    OneEffect(cfg, w, switch);
    RunConcat(w, [switch], rest);
    var w1 := Do(w, switch);
    SwitchesGrow(w1, rest);
    assert w1.switches[|w.switches|] == Switch(r.key, r.generation, r.digest);
    LiveGrows(w1.switches, Run(w1, rest).switches, r.generation, r.digest);
  }

  lemma ReportTruth(names: Derivation, cfg: Config, target: Id, w: World, listed: seq<Id>, n: u32)
    requires Alive(cfg, w) && forall d :: d in listed ==> d in w.mem.transfers
    ensures Truthful(names, target, Report(ReportOf(cfg, w, listed, n)), w.switches)
  {
    CommittedIsLive(cfg, w);
    var r := ReportOf(cfg, w, listed, n);
    forall f | f in r.findings ensures WasLive(w.switches, f.generation, f.digest) {
      FindingIsLive(cfg, w, f);
    }
  }

  predicate Plain(reply: Reply) {
    !reply.PrepareAck? && !reply.ApplyCommitAck? && !reply.DeliveryAck? && !reply.Report?
  }

  /** The other handlers say nothing about activations. */
  lemma OtherRepliesArePlain(cfg: Config, w: World, i: Input, reply: Reply)
    requires ValidInput(w, i) && reply in Handle(cfg, w, i).replies
    requires !i.message.Prepare? && !i.message.ApplyCommit? && !i.message.ReconcileRequest?
    ensures Plain(reply)
  {
    hide PrepareOutcome, ApplyCommitOutcome, Apply;
    match i.message
    case Chunk(s, o, data) => assert reply in ChunkOutcome(w, s, o, data, i.now).replies;
    case TransferComplete(d, h, n) => assert reply in CompleteOutcome(cfg, w, d, h, n, i.now).replies;
    case Stage(d, g, h) => assert reply in StageOutcome(w, d, g, h, i.now).replies;
    case ApplyPrepare(d, g, h) => assert reply in ApplyPrepareOutcome(cfg, w, d, g, h).replies;
    case ApplyAbort(d, g) => assert reply in ApplyAbortOutcome(w, d, g).replies;
    case Retire(d, g) => assert reply in RetireOutcome(w, d, g).replies;
    case Hello(f) => assert reply in HelloOutcome(w, f).replies;
  }

  /** Whatever a live target answers, to whatever the distributor sends it, is true once it is sent. */
  lemma RepliesAreTrue(names: Derivation, cfg: Config, target: Id, w: World, i: Input, reply: Reply)
    requires Injective(names) && Alive(cfg, w) && ValidInput(w, i) && FromDistributor(names, target, i.message)
    requires reply in Handle(cfg, w, i).replies
    ensures Truthful(names, target, reply, Run(w, Handle(cfg, w, i).effects).switches)
  {
    hide PrepareOutcome, ApplyCommitOutcome, ChunkOutcome, CompleteOutcome, StageOutcome, ApplyPrepareOutcome, ApplyAbortOutcome;
    hide RetireOutcome, HelloOutcome, Run, WasLive, Injective, Alive, ReportOf;
    var after := Run(w, Handle(cfg, w, i).effects).switches;
    SwitchesGrow(w, Handle(cfg, w, i).effects);
    match i.message
    case Prepare(m) =>
      PrepareTruth(names, cfg, target, w, m, i.now, reply);
      TruthLasts(names, target, reply, w.switches, after);
    case ApplyCommit(d, g, h) => CommitTruth(names, cfg, target, w, d, g, h, i.now, reply);
    case ReconcileRequest(n) =>
      ReportTruth(names, cfg, target, w, i.listed, n);
      TruthLasts(names, target, reply, w.switches, after);
    case _ => OtherRepliesArePlain(cfg, w, i, reply);
  }

  // ---- The two processes together ----

  /** The distributor's history, the targets' processes, and everything a target ever sent. What is in `said` may be
      delivered late, twice, out of order or never: sessions can be cut anywhere. */
  datatype System = System(log: seq<Entry>, targets: map<Id, Process>, said: map<Id, set<Reply>>)

  datatype Step =
    | Records(entry: Entry)
    | Acts(target: Id, event: Event)

  datatype Network = Network(names: Derivation, maxAttempts: nat, configs: map<Id, Config>)

  function Start(net: Network): System {
    System([], map t | t in net.configs :: Process(FRESH, false), map t | t in net.configs :: {})
  }

  ghost predicate Enabled(net: Network, s: System, step: Step) {
    match step
    case Records(e) =>
      && Allowed(net.names, net.maxAttempts, s.log, e)
      && (e.Received? ==> e.peer in s.said && e.reply in s.said[e.peer])
    case Acts(t, e) =>
      && t in net.configs && t in s.targets && t in s.said && AgentRuns.Enabled(net.configs[t], s.targets[t], e)
      && (e.Handled? ==> Sent(t, e.input.message) in s.log)
      && (e.Cut? ==> Sent(t, e.input.message) in s.log)
  }

  ghost function Next(net: Network, s: System, step: Step): System
    requires Enabled(net, s, step)
  {
    match step
    case Records(e) => s.(log := s.log + [e])
    case Acts(t, e) =>
      var after := s.(targets := s.targets[t := AgentRuns.Next(net.configs[t], s.targets[t], e)]);
      if e.Handled? then
        after.(said := s.said[t := s.said[t] + set r | r in Handle(net.configs[t], s.targets[t].w, e.input).replies])
      else after
  }

  /** A run of the whole system from nothing: the distributor takes its steps, the targets theirs. */
  ghost predicate Trace(net: Network, ss: seq<System>, steps: seq<Step>) {
    && Injective(net.names) && net.maxAttempts > 0
    && |ss| == |steps| + 1 && ss[0] == Start(net)
    && forall i :: 0 <= i < |steps| ==> Enabled(net, ss[i], steps[i]) && ss[i + 1] == Next(net, ss[i], steps[i])
  }

  /** Every target is consistent, everything said is true of the history of its live pointers, and everything received
      was said. */
  ghost predicate Truth(net: Network, s: System) {
    && (forall t :: t in s.targets ==> t in net.configs && t in s.said && Consistent(net.configs[t], s.targets[t]))
    && (forall t, r :: t in s.said && r in s.said[t] ==> t in s.targets && Truthful(net.names, t, r, s.targets[t].w.switches))
    && (forall e :: e in s.log && e.Received? ==> e.peer in s.said && e.reply in s.said[e.peer])
  }

  lemma ActGrows(cfg: Config, p: Process, e: Event)
    requires AgentRuns.Enabled(cfg, p, e)
    ensures p.w.switches <= AgentRuns.Next(cfg, p, e).w.switches
  {
    hide Handle, Boot, Run;
    match e
    case Handled(i) => SwitchesGrow(p.w, Handle(cfg, p.w, i).effects);
    case Cut(i, n) => SwitchesGrow(p.w, Handle(cfg, p.w, i).effects[..n]);
    case Booted(l) => SwitchesGrow(Reload(p.w), Boot(cfg, Reload(p.w), l));
    case BootCut(l, n) => SwitchesGrow(Reload(p.w), Boot(cfg, Reload(p.w), l)[..n]);
  }

  lemma ActKeepsTruth(net: Network, s: System, t: Id, e: Event)
    requires Injective(net.names) && Honest(net.names, s.log) && Truth(net, s) && Enabled(net, s, Acts(t, e))
    ensures Truth(net, Next(net, s, Acts(t, e)))
  {
    hide Truthful, AgentRuns.Next, AgentRuns.Enabled, Consistent, Handle;
    var cfg, p := net.configs[t], s.targets[t];
    var s' := Next(net, s, Acts(t, e));
    StepConsistent(cfg, p, e);
    ActGrows(cfg, p, e);
    forall x, r | x in s'.said && r in s'.said[x]
      ensures x in s'.targets && Truthful(net.names, x, r, s'.targets[x].w.switches)
    {
      if r in s.said[x] {
        TruthLasts(net.names, x, r, s.targets[x].w.switches, s'.targets[x].w.switches);
      } else {
        FreshReply(net, s, t, e, r);
      }
    }
  }

  lemma FreshReply(net: Network, s: System, t: Id, e: Event, r: Reply)
    requires Injective(net.names) && Honest(net.names, s.log) && Truth(net, s) && Enabled(net, s, Acts(t, e))
    requires e.Handled? && r in Handle(net.configs[t], s.targets[t].w, e.input).replies
    ensures Truthful(net.names, t, r, AgentRuns.Next(net.configs[t], s.targets[t], e).w.switches)
  {
    hide Truthful, Handle, Run;
    var cfg, p := net.configs[t], s.targets[t];
    var sent := Sent(t, e.input.message);
    var i :| 0 <= i < |s.log| && s.log[i] == sent;
    assert HonestEntry(net.names, s.log[i]);
    RepliesAreTrue(net.names, cfg, t, p.w, e.input, r);
  }

  lemma StepKeepsTruth(net: Network, s: System, step: Step)
    requires Injective(net.names) && Honest(net.names, s.log) && Truth(net, s) && Enabled(net, s, step)
    ensures Truth(net, Next(net, s, step))
  {
    hide Truthful, Consistent;
    match step
    case Records(e) =>
    case Acts(t, e) => ActKeepsTruth(net, s, t, e);
  }

  /** The distributor's history in a run is one its steps produce. */
  lemma {:induction false} HistoryIsLawful(net: Network, ss: seq<System>, steps: seq<Step>, i: nat)
    requires Trace(net, ss, steps) && i < |ss|
    ensures Lawful(net.names, net.maxAttempts, ss[i].log)
    decreases i
  {
    hide Lawful, Allowed, Handle, AgentRuns.Next, AgentRuns.Enabled;
    if i == 0 {
      StartIsLawful(net);
    } else {
      HistoryIsLawful(net, ss, steps, i - 1);
      if steps[i - 1].Records? {
        LawfulSnoc(net.names, net.maxAttempts, ss[i - 1].log, steps[i - 1].entry);
      }
    }
  }

  lemma StartIsLawful(net: Network)
    ensures Lawful(net.names, net.maxAttempts, Start(net).log)
  {
  }

  lemma {:induction false} TruthHolds(net: Network, ss: seq<System>, steps: seq<Step>, i: nat)
    requires Trace(net, ss, steps) && i < |ss|
    ensures Truth(net, ss[i])
    decreases i
  {
    hide Truth, Next, Enabled, Lawful, Honest;
    if i == 0 {
      StartIsTrue(net);
    } else {
      TruthHolds(net, ss, steps, i - 1);
      HistoryIsLawful(net, ss, steps, i - 1);
      EverythingSentIsHonest(net.names, net.maxAttempts, ss[i - 1].log);
      StepKeepsTruth(net, ss[i - 1], steps[i - 1]);
    }
  }

  lemma StartIsTrue(net: Network)
    ensures Truth(net, Start(net))
  {
  }

  lemma ProofIsTruth(net: Network, s: System, r: DeliveryRecord)
    requires Truth(net, s) && Evidenced(s.log, r) && Derived(net.names, r)
    ensures r.target in s.targets && WasLive(s.targets[r.target].w.switches, r.generation, r.digest)
  {
    hide Consistent, WasLive;
    var i :| 0 <= i < |s.log| && ProvedAt(s.log[i], r);
    var e := s.log[i];
    assert e in s.log;
    assert Truthful(net.names, r.target, e.reply, s.targets[r.target].w.switches);
  }

  /** Evidence is never invented. In every run of the distributor and any number of targets, with sessions cut
      anywhere, either side crashing and restarting, and replies lost, repeated or reordered: when a delivery is
      recorded as applied or acknowledged, the live pointer of that very target had already been switched to exactly its
      generation and digest. */
  lemma EvidenceIsNeverInvented(net: Network, ss: seq<System>, steps: seq<Step>, i: nat)
    requires Trace(net, ss, steps) && i < |steps|
    requires steps[i].Records? && steps[i].entry.Moved? && IsActivationState(steps[i].entry.record.state)
    ensures var r := steps[i].entry.record;
            && r.target in ss[i].targets
            && exists j :: 0 <= j < |ss[i].targets[r.target].w.switches|
                 && ss[i].targets[r.target].w.switches[j].generation == r.generation
                 && ss[i].targets[r.target].w.switches[j].digest == r.digest
  {
    hide Truth, Lawful, Books, Evidenced;
    var r := steps[i].entry.record;
    TruthHolds(net, ss, steps, i);
    HistoryIsLawful(net, ss, steps, i);
    AllAreTracked(net.names, net.maxAttempts, ss[i].log);
    ProofIsTruth(net, ss[i], r);
    assert WasLive(ss[i].targets[r.target].w.switches, r.generation, r.digest);
  }
}
