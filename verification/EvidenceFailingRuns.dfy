/** Runs of the whole system: every run of an agent about planned deliveries is part of one, and in one of them the
    evidence for a delivery is about another key. */
module EvidenceFailingRuns {
  import opened Prelude
  import opened Lifecycle
  import opened AgentState
  import opened Messages
  import opened AgentModel
  import AgentRuns
  import AgentProgress
  import opened AgentFailingRuns
  import opened Ledger
  import opened EvidenceRuns

  // ---- States the system reaches ----

  ghost predicate Arrives(net: Network, ss: seq<System>, steps: seq<Step>, s: System) {
    EvidenceRuns.Trace(net, ss, steps) && ss[|ss| - 1] == s
  }

  ghost predicate SystemReached(net: Network, s: System) {
    exists ss, steps :: Arrives(net, ss, steps, s)
  }

  lemma StartIsReached(net: Network)
    requires Injective(net.names) && net.maxAttempts > 0
    ensures SystemReached(net, Start(net))
  {
    hide Injective;
    assert Arrives(net, [Start(net)], [], Start(net));
  }

  lemma OneMore(net: Network, ss: seq<System>, steps: seq<Step>, s: System, step: Step)
    requires Arrives(net, ss, steps, s) && EvidenceRuns.Enabled(net, s, step)
    ensures Arrives(net, ss + [EvidenceRuns.Next(net, s, step)], steps + [step], EvidenceRuns.Next(net, s, step))
  {
    hide EvidenceRuns.Enabled, EvidenceRuns.Next, Injective;
    var ss', steps' := ss + [EvidenceRuns.Next(net, s, step)], steps + [step];
    forall i | 0 <= i < |steps'| ensures EvidenceRuns.Enabled(net, ss'[i], steps'[i]) && ss'[i + 1] == EvidenceRuns.Next(net, ss'[i], steps'[i]) {
      if i < |steps| { assert ss'[i] == ss[i] && ss'[i + 1] == ss[i + 1] && steps'[i] == steps[i]; }
    }
  }

  lemma StepIsReached(net: Network, s: System, step: Step)
    requires SystemReached(net, s) && EvidenceRuns.Enabled(net, s, step)
    ensures SystemReached(net, EvidenceRuns.Next(net, s, step))
  {
    hide EvidenceRuns.Enabled, EvidenceRuns.Next, Arrives;
    var ss, steps :| Arrives(net, ss, steps, s);
    OneMore(net, ss, steps, s, step);
  }

  lemma RecordIsReached(net: Network, s: System, e: Entry) returns (s': System)
    requires SystemReached(net, s) && Allowed(net.names, net.maxAttempts, s.log, e)
    requires e.Received? ==> e.peer in s.said && e.reply in s.said[e.peer]
    ensures SystemReached(net, s') && s' == s.(log := s.log + [e])
    ensures Books(s'.log) == if Writes(e) then Books(s.log)[e.record.id := e.record] else Books(s.log)
  {
    hide SystemReached, Allowed;
    StepIsReached(net, s, Records(e));
    s' := EvidenceRuns.Next(net, s, Records(e));
    Snoc(s.log, e);
  }

  // ---- An agent's run inside the system ----

  /** The distributor sends the message of the event, if it has one, and the target acts. */
  lemma EventIsPlayed(net: Network, t: Id, s: System, e: AgentRuns.Event) returns (s': System)
    requires SystemReached(net, s) && t in net.configs && t in s.targets && t in s.said
    requires AgentRuns.Enabled(net.configs[t], s.targets[t], e)
    requires e.Handled? || e.Cut? ==> MaySend(Books(s.log), t, e.input.message)
    ensures SystemReached(net, s') && t in s'.targets && t in s'.said && Books(s'.log) == Books(s.log)
    ensures s'.targets[t] == AgentRuns.Next(net.configs[t], s.targets[t], e)
    ensures e.Handled? ==> forall r :: r in Handle(net.configs[t], s.targets[t].w, e.input).replies ==> r in s'.said[t]
  {
    hide SystemReached, MaySend, Handle, AgentRuns.Enabled, AgentRuns.Next, Books;
    var ready := s;
    if e.Handled? || e.Cut? {
      ready := RecordIsReached(net, s, Sent(t, e.input.message));
      Snoc(s.log, Sent(t, e.input.message));
      assert ready.log[|s.log|] == Sent(t, e.input.message);
    }
    StepIsReached(net, ready, Acts(t, e));
    s' := EvidenceRuns.Next(net, ready, Acts(t, e));
  }

  /** The offers are for deliveries on the books of this target. */
  predicate OnTheBooks(books: map<Id, DeliveryRecord>, t: Id, ms: set<PrepareMessage>) {
    forall m :: m in ms ==>
      m.deployment in books && books[m.deployment].key == m.key && Ledger.Names(books[m.deployment], t, m.generation, m.digest)
  }

  lemma AboutMaySend(books: map<Id, DeliveryRecord>, t: Id, ms: set<PrepareMessage>, message: Message)
    requires OnTheBooks(books, t, ms) && About(ms, message)
    ensures MaySend(books, t, message)
  {
  }

  /** Every run of an agent that is about deliveries on the distributor's books is part of a run of the system. */
  lemma {:induction false} AgentRunIsPlayed(net: Network, t: Id, s: System, ms: set<PrepareMessage>, ps: seq<AgentRuns.Process>, es: seq<AgentRuns.Event>, n: nat)
    returns (s': System)
    requires SystemReached(net, s) && t in net.configs && t in s.targets && t in s.said && s.targets[t] == AgentRuns.Process(FRESH, false)
    requires AgentRuns.Trace(net.configs[t], ps, es) && n < |ps|
    requires OnTheBooks(Books(s.log), t, ms) && forall e :: e in es ==> AgentFailingRuns.Concerns(ms, e)
    ensures SystemReached(net, s') && t in s'.targets && t in s'.said && s'.targets[t] == ps[n] && Books(s'.log) == Books(s.log)
    decreases n
  {
    hide SystemReached, AgentRuns.Enabled, AgentRuns.Next, Books, OnTheBooks, About, MaySend;
    if n == 0 {
      s' := s;
    } else {
      var before := AgentRunIsPlayed(net, t, s, ms, ps, es, n - 1);
      var e := es[n - 1];
      assert e in es;
      if e.Handled? || e.Cut? { AboutMaySend(Books(s.log), t, ms, e.input.message); }
      s' := EventIsPlayed(net, t, before, e);
    }
  }

  lemma ReachedIsPlayed(net: Network, t: Id, s: System, ms: set<PrepareMessage>, p: AgentRuns.Process) returns (s': System)
    requires SystemReached(net, s) && t in net.configs && t in s.targets && t in s.said && s.targets[t] == AgentRuns.Process(FRESH, false)
    requires OnTheBooks(Books(s.log), t, ms) && Reached(net.configs[t], ms, p)
    ensures SystemReached(net, s') && t in s'.targets && t in s'.said && s'.targets[t] == p && Books(s'.log) == Books(s.log)
  {
    hide SystemReached, AgentRuns.Enabled, AgentRuns.Next, Books, OnTheBooks, AgentFailingRuns.Concerns;
    var ps, es :| Reaches(net.configs[t], ms, p, ps, es);
    s' := AgentRunIsPlayed(net, t, s, ms, ps, es, |ps| - 1);
  }

  // ---- Evidence about another key ----

  /** The record planned for an offer. */
  predicate PlannedFor(net: Network, t: Id, r: DeliveryRecord, m: PrepareMessage) {
    && r.id == m.deployment && r.target == t && r.key == m.key && r.generation == m.generation && r.digest == m.digest
    && r.state == Prepared && r.failures == 0 && Derived(net.names, r)
  }

  lemma BothPlanned(net: Network, t: Id, m1: PrepareMessage, m2: PrepareMessage, r1: DeliveryRecord, r2: DeliveryRecord) returns (s: System)
    requires Injective(net.names) && net.maxAttempts > 0 && t in net.configs
    requires PlannedFor(net, t, r1, m1) && PlannedFor(net, t, r2, m2) && m1.deployment != m2.deployment
    ensures SystemReached(net, s) && t in s.targets && t in s.said && s.targets[t] == AgentRuns.Process(FRESH, false)
    ensures Books(s.log) == map[r1.id := r1, r2.id := r2] && OnTheBooks(Books(s.log), t, {m1, m2})
  {
    hide SystemReached, Injective, Derived;
    StartIsReached(net);
    var s1 := RecordIsReached(net, Start(net), Planned(r1));
    s := RecordIsReached(net, s1, Planned(r2));
  }

  /** Where two deliveries of one target ask for the same pair under two keys, whichever keys, pair and target: there is a
      run in which the second is recorded as applied although no live pointer of its key was ever switched. */
  lemma EvidenceCanNameAnotherKey(net: Network, t: Id, m1: PrepareMessage, m2: PrepareMessage, r1: DeliveryRecord, r2: DeliveryRecord, content: Bytes)
    returns (ss: seq<System>, steps: seq<Step>)
    requires Injective(net.names) && net.maxAttempts > 0 && t in net.configs && SamePairOffers(net.configs[t], m1, m2, content)
    requires PlannedFor(net, t, r1, m1) && PlannedFor(net, t, r2, m2)
    ensures EvidenceRuns.Trace(net, ss, steps) && |steps| > 0 && steps[|steps| - 1] == Records(Moved(r2.(state := Applied), Prepared))
    ensures var s := ss[|steps| - 1];
            t in s.targets && forall x :: x in s.targets[t].w.switches ==> x.key != r2.key
  {
    assert m1.deployment != m2.deployment;
    hide SystemReached, Reached, Injective, Derived, Handle, AgentProgress.CommitSucceeds, SamePairOffers, Books, OnTheBooks;
    hide Allowed, Proves, PrepareOutcome, Decodable;
    var cfg := net.configs[t];
    var planned := BothPlanned(net, t, m1, m2, r1, r2);
    var staged, after := SuppressedRun(cfg, m1, m2, content);
    var s1 := ReachedIsPlayed(net, t, planned, {m1, m2}, AgentRuns.Process(staged, true));
    var s2, ack := CommitIsAnswered(net, t, s1, m2, r2);
    var s3 := RecordIsReached(net, s2, Received(t, ack));
    MayBeApplied(net, s2.log, t, ack, r2);
    ss, steps := Extended(net, s3, Records(Moved(r2.(state := Applied), Prepared)));
  }

  lemma MayBeApplied(net: Network, log: seq<Entry>, t: Id, ack: Reply, r: DeliveryRecord)
    requires r.target == t && Proves(ack, r.(state := Applied)) && r.state == Prepared
    requires r.id in Books(log + [Received(t, ack)]) && Books(log + [Received(t, ack)])[r.id] == r
    ensures Allowed(net.names, net.maxAttempts, log + [Received(t, ack)], Moved(r.(state := Applied), Prepared))
  {
    hide Books;
    assert ProvedAt((log + [Received(t, ack)])[|log|], r.(state := Applied));
  }

  lemma Extended(net: Network, s: System, step: Step) returns (ss: seq<System>, steps: seq<Step>)
    requires SystemReached(net, s) && EvidenceRuns.Enabled(net, s, step)
    ensures EvidenceRuns.Trace(net, ss, steps) && |steps| > 0 && steps[|steps| - 1] == step && ss[|steps| - 1] == s
  {
    hide EvidenceRuns.Enabled, EvidenceRuns.Next, Injective;
    var before, done :| Arrives(net, before, done, s);
    OneMore(net, before, done, s, step);
    ss, steps := before + [EvidenceRuns.Next(net, s, step)], done + [step];
    assert ss[|steps| - 1] == before[|before| - 1];
  }

  /** The commit is sent and its acknowledgement comes back. */
  lemma CommitIsAnswered(net: Network, t: Id, s: System, m: PrepareMessage, r: DeliveryRecord) returns (s': System, ack: Reply)
    requires SystemReached(net, s) && t in net.configs && t in s.targets && t in s.said && s.targets[t].up && Decodable(Prepare(m))
    requires m.deployment in Books(s.log) && Books(s.log)[m.deployment] == r && r.target == t && r.generation == m.generation && r.digest == m.digest
    requires AgentProgress.CommitSucceeds(net.configs[t], s.targets[t].w, m, 0)
    ensures SystemReached(net, s') && t in s'.targets && t in s'.said && Books(s'.log) == Books(s.log)
    ensures s'.targets[t] == AgentRuns.Process(AgentProgress.AfterCommit(net.configs[t], s.targets[t].w, m, 0), true)
    ensures ack in s'.said[t] && Proves(ack, r.(state := Applied))
  {
    hide SystemReached, Handle, Books;
    AgentProgress.FollowUps(m);
    var i := AgentProgress.Says(ApplyCommit(m.deployment, m.generation, m.digest), 0);
    ack := Handle(net.configs[t], s.targets[t].w, i).replies[0];
    s' := EventIsPlayed(net, t, s, AgentRuns.Handled(i));
  }
}
