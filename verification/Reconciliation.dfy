/** What a live report lets the distributor conclude about one delivery (src/reconciliation.cpp). */
module Reconciliation {
  import opened Prelude
  import opened Lifecycle
  import opened AgentState
  import opened Messages

  datatype ReconcileOutcome =
    | DriveNormally
    | AdoptActivation
    | ResumeAt(offset: u64)
    | RetireStale(generation: u64)
    | ResolvePrepareWindow
    | FenceAuthority
    | UnknownAtTarget

  datatype ReconcileInput = ReconcileInput(
    report: Option<ReconcileReport>, sessionTerm: u64, sessionIncarnation: Bytes,
    desiredGeneration: u64, desiredDigest: Digest, deployment: Id)

  function FindTransferStatus(transfers: seq<TransferStatus>, deployment: Id): (r: Option<TransferStatus>)
    ensures r.Some? ==> r.value in transfers && r.value.deployment == deployment
    ensures r.None? ==> forall t :: t in transfers ==> t.deployment != deployment
  {
    if transfers == [] then None
    else if transfers[0].deployment == deployment then Some(transfers[0])
    else FindTransferStatus(transfers[1..], deployment)
  }

  predicate ProvedByFinding(findings: seq<AppliedFinding>, generation: u64, digest: Digest) {
    exists f :: f in findings && f.generation == generation && f.digest == digest && IsActivationState(f.state)
  }

  /** `reportProvesActivation`: the live pointer, or failing that a finding. */
  predicate ReportProvesActivation(r: ReconcileReport, generation: u64, digest: Digest) {
    && generation != 0 && digest != NO_DIGEST
    && ((r.committed.generation == generation && r.committed.digest == digest)
        || ProvedByFinding(r.findings, generation, digest))
  }

  function ReconcileDelivery(i: ReconcileInput): ReconcileOutcome {
    match i.report
    case None => DriveNormally
    case Some(r) =>
      if r.term != i.sessionTerm || r.incarnation != i.sessionIncarnation then FenceAuthority
      else if r.window.applyPrepared then ResolvePrepareWindow
      else if r.committed.generation != 0 && r.committed.generation > i.desiredGeneration then RetireStale(r.committed.generation)
      else if ReportProvesActivation(r, i.desiredGeneration, i.desiredDigest) then AdoptActivation
      else
        var t := FindTransferStatus(r.transfers, i.deployment);
        if t.Some? && t.value.bytesReceived > 0 && t.value.generation == i.desiredGeneration
           && t.value.digest == i.desiredDigest && t.value.bytesReceived < t.value.totalBytes then
          ResumeAt(t.value.bytesReceived)
        else if t.Some? && t.value.verified && t.value.staged && t.value.generation == i.desiredGeneration
                && t.value.digest == i.desiredDigest then DriveNormally
        else if t.None? && r.committed.generation == 0 && r.findings == [] then UnknownAtTarget
        else DriveNormally
  }
}

/** Reconciliation against what the target's own state machine can report. */
module ReconcileSoundness {
  import opened Prelude
  import opened Lifecycle
  import opened AgentState
  import opened Messages
  import opened AgentModel
  import opened KeyPaths
  import opened AgentInvariants
  import opened AgentHandlers
  import opened AgentRuns
  import opened AgentLineage
  import AgentManyKeys
  import AgentFailingRuns
  import opened Reconciliation

  /** Every finding of a serving one-key agent is at most as new as the committed pair, and at the same generation it
      names the same digest. */
  lemma FindingsBelowCommitted(cfg: Config, k: Id, w: World, f: AppliedFinding)
    requires Serving(cfg, k, w) && f in w.mem.findings
    ensures IsSet(w.mem.committed) && f.generation <= w.mem.committed.generation
    ensures f.generation == w.mem.committed.generation ==> f.digest == w.mem.committed.digest
  {
    assert f in w.dur.findings && Switched(w, f.key, f.generation, f.digest);
    var s := Switch(f.key, f.generation, f.digest);
    var i :| 0 <= i < |w.switches| && w.switches[i] == s;
    var last := |w.switches| - 1;
    assert i < last ==> w.switches[i].generation < w.switches[last].generation;
  }

  /** When a report of a one-key target leads to adoption, on either branch, the target's committed pair is exactly
      the one the delivery asked for, and so is its live pointer. */
  lemma AdoptionIsCurrent(cfg: Config, k: Id, ps: seq<Process>, es: seq<Event>, n: nat, listed: seq<Id>, maxFindings: u32, i: ReconcileInput)
    requires Visited(cfg.liveRoot, k) && KeyedTrace(cfg, k, ps, es) && n < |ps| && ps[n].up
    requires forall d :: d in listed ==> d in ps[n].w.mem.transfers
    requires i.report == Some(ReportOf(cfg, ps[n].w, listed, maxFindings)) && ReconcileDelivery(i) == AdoptActivation
    ensures var w := ps[n].w;
            && w.mem.committed.generation == i.desiredGeneration && w.mem.committed.digest == i.desiredDigest
            && k in w.files.current
            && w.files.current[k].generation == i.desiredGeneration && w.files.current[k].digest == i.desiredDigest
  {
    TraceFenced(cfg, k, ps, es, n);
    var w := ps[n].w;
    var r := i.report.value;
    assert w.mem.committed == w.dur.committed && w.mem.findings == w.dur.findings;
    assert r.committed == w.mem.committed;
    if !(r.committed.generation == i.desiredGeneration && r.committed.digest == i.desiredDigest) {
      var f :| f in r.findings && f.generation == i.desiredGeneration && f.digest == i.desiredDigest;
      FindingsBelowCommitted(cfg, k, w, f);
    }
  }

  /** The findings branch therefore never decides anything for such a target: whenever it would, the committed pair
      already has. */
  lemma FindingsNeverDecide(cfg: Config, k: Id, ps: seq<Process>, es: seq<Event>, n: nat, listed: seq<Id>, maxFindings: u32, g: u64, d: Digest)
    requires Visited(cfg.liveRoot, k) && KeyedTrace(cfg, k, ps, es) && n < |ps| && ps[n].up
    requires forall x :: x in listed ==> x in ps[n].w.mem.transfers
    ensures var r := ReportOf(cfg, ps[n].w, listed, maxFindings);
            (!(r.committed.generation != 0 && r.committed.generation > g) && ReportProvesActivation(r, g, d) <==>
              g != 0 && d != NO_DIGEST && r.committed.generation == g && r.committed.digest == d)
  {
    TraceFenced(cfg, k, ps, es, n);
    var w := ps[n].w;
    var r := ReportOf(cfg, w, listed, maxFindings);
    assert w.mem.committed == w.dur.committed && w.mem.findings == w.dur.findings;
    if ProvedByFinding(r.findings, g, d) {
      var f :| f in r.findings && f.generation == g && f.digest == d;
      FindingsBelowCommitted(cfg, k, w, f);
    }
  }

  /** What reconciliation decides on a report of such a target under its own authority: an open window comes first, a newer
      committed generation retires, and an activation is adopted exactly when the live pointer names the pair. */
  lemma DecidedByThePointer(cfg: Config, k: Id, ps: seq<Process>, es: seq<Event>, n: nat, listed: seq<Id>, maxFindings: u32, i: ReconcileInput)
    requires Visited(cfg.liveRoot, k) && KeyedTrace(cfg, k, ps, es) && n < |ps| && ps[n].up
    requires forall d :: d in listed ==> d in ps[n].w.mem.transfers
    requires i.report == Some(ReportOf(cfg, ps[n].w, listed, maxFindings))
    requires i.sessionTerm == ps[n].w.mem.identity.term && i.sessionIncarnation == ps[n].w.mem.identity.incarnation
    ensures var w := ps[n].w;
            var newer := k in w.files.current && w.files.current[k].generation > i.desiredGeneration;
            && (ReconcileDelivery(i) == ResolvePrepareWindow <==> w.mem.window.applyPrepared)
            && (ReconcileDelivery(i).RetireStale? <==> !w.mem.window.applyPrepared && newer)
            && (ReconcileDelivery(i) == AdoptActivation <==>
                  !w.mem.window.applyPrepared && i.desiredDigest != NO_DIGEST
                  && AgentManyKeys.Names(w.files, k, i.desiredGeneration, i.desiredDigest))
  {
    hide Visited, KeyedTrace, ReportProvesActivation;
    var w := ps[n].w;
    ServingAgrees(cfg, k, ps, es, n);
    FindingsNeverDecide(cfg, k, ps, es, n, listed, maxFindings, i.desiredGeneration, i.desiredDigest);
    ServingFacts(cfg, k, ps, es, n);
  }

  lemma ServingFacts(cfg: Config, k: Id, ps: seq<Process>, es: seq<Event>, n: nat)
    requires Visited(cfg.liveRoot, k) && KeyedTrace(cfg, k, ps, es) && n < |ps| && ps[n].up
    ensures ps[n].w.mem.committed == ps[n].w.dur.committed
    ensures k in ps[n].w.files.current ==> ps[n].w.files.current[k].generation != 0
  {
    TraceFenced(cfg, k, ps, es, n);
  }

  /** In every run with one key, what reconciliation adopts is what the live pointer names. */
  ghost predicate AdoptionsAreTrue(cfg: Config, k: Id) {
    forall ps: seq<Process>, es: seq<Event>, n: nat, maxFindings: u32, i: ReconcileInput ::
      KeyedTrace(cfg, k, ps, es) && n < |ps| && ps[n].up
      && i.report == Some(ReportOf(cfg, ps[n].w, [], maxFindings)) && ReconcileDelivery(i) == AdoptActivation ==>
        AgentManyKeys.Names(ps[n].w.files, k, i.desiredGeneration, i.desiredDigest)
  }

  /** That, too, holds exactly for the keys recovery visits. */
  lemma AdoptionIff(cfg: Config, k: Id, content: Bytes)
    requires k != UNSET && AgentFailingRuns.Deliverable(cfg, content)
    ensures AdoptionsAreTrue(cfg, k) <==> Visited(cfg.liveRoot, k)
  {
    hide Visited, KeyedTrace, AgentFailingRuns.Reached;
    if Visited(cfg.liveRoot, k) {
      forall ps: seq<Process>, es: seq<Event>, n: nat, maxFindings: u32, i: ReconcileInput |
        KeyedTrace(cfg, k, ps, es) && n < |ps| && ps[n].up
        && i.report == Some(ReportOf(cfg, ps[n].w, [], maxFindings)) && ReconcileDelivery(i) == AdoptActivation
        ensures AgentManyKeys.Names(ps[n].w.files, k, i.desiredGeneration, i.desiredDigest)
      {
        AdoptionIsCurrent(cfg, k, ps, es, n, [], maxFindings, i);
      }
    } else {
      var torn, behind, back := AgentFailingRuns.UnvisitedRun(cfg, k, content);
      var ps, es := AgentFailingRuns.ReachedIsKeyed(cfg, AgentFailingRuns.UnvisitedOffers(cfg, k, content), k, Process(behind, true));
      var r := ReportOf(cfg, behind, [], 0);
      var i := ReconcileInput(Some(r), r.term, r.incarnation, 3, cfg.hash(content), UNSET);
      assert ReconcileDelivery(i) == AdoptActivation;
      assert !AgentManyKeys.Names(ps[|ps| - 1].w.files, k, 3, cfg.hash(content));
    }
  }
}
