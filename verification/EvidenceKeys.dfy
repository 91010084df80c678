/** Whose pointer the evidence is about: what a target made live, it was offered, and an offer is for a planned delivery. */
module EvidenceKeys {
  import opened Prelude
  import opened Lifecycle
  import opened AgentState
  import opened Messages
  import opened AgentModel
  import opened KeyPaths
  import opened AgentInvariants
  import opened AgentHandlers
  import opened AgentRecovery
  import AgentRuns
  import opened Ledger
  import opened EvidenceRuns

  type Triple = (Id, u64, Digest)

  function TripleOf(t: TransferRecord): Triple {
    (t.key, t.generation, t.digest)
  }

  /** Everything the agent holds or ever made live was offered to it. */
  predicate Offered(w: World, offers: set<Triple>) {
    && (forall d :: d in w.mem.transfers ==> TripleOf(w.mem.transfers[d]) in offers)
    && (forall d :: d in w.dur.transfers ==> TripleOf(w.dur.transfers[d]) in offers)
    && (forall s :: s in w.switches ==> (s.key, s.generation, s.digest) in offers)
  }

  predicate OfferedEffect(offers: set<Triple>, e: Effect) {
    match e
    case Commit(AgentTransferUpsert(t)) => TripleOf(t) in offers
    case Remember(t) => TripleOf(t) in offers
    case SwitchCurrent(k, p) => (k, p.generation, p.digest) in offers
    case _ => true
  }

  lemma OneKeepsOffered(w: World, e: Effect, offers: set<Triple>)
    requires Offered(w, offers) && OfferedEffect(offers, e)
    ensures Offered(Do(w, e), offers)
  {
  }

  lemma {:induction false} RunKeepsOffered(w: World, es: seq<Effect>, offers: set<Triple>)
    requires Offered(w, offers) && forall e :: e in es ==> OfferedEffect(offers, e)
    ensures Offered(Run(w, es), offers)
    decreases |es|
  {
    hide Offered, OfferedEffect, Do;
    if es != [] {
      assert es[0] in es;
      OneKeepsOffered(w, es[0], offers);
      RunKeepsOffered(Do(w, es[0]), es[1..], offers);
    }
  }

  /** What a message adds to the offers. */
  function OfferOf(m: Message): set<Triple> {
    if m.Prepare? then {(m.offer.key, m.offer.generation, m.offer.digest)} else {}
  }

  lemma PrepareOffered(cfg: Config, w: World, m: PrepareMessage, now: i64, e: Effect, offers: set<Triple>)
    requires Offered(w, offers) && e in PrepareOutcome(cfg, w, m, now).effects
    ensures OfferedEffect(offers + {(m.key, m.generation, m.digest)}, e)
  {
  }

  lemma ChunkOffered(w: World, stream: u64, offset: u64, data: Bytes, now: i64, e: Effect, offers: set<Triple>)
    requires Offered(w, offers) && e in ChunkOutcome(w, stream, offset, data, now).effects
    ensures OfferedEffect(offers, e)
  {
  }

  lemma CompleteOffered(cfg: Config, w: World, d: Id, h: Digest, n: u64, now: i64, e: Effect, offers: set<Triple>)
    requires Offered(w, offers) && e in CompleteOutcome(cfg, w, d, h, n, now).effects
    ensures OfferedEffect(offers, e)
  {
  }

  lemma StageOffered(w: World, d: Id, g: u64, h: Digest, now: i64, e: Effect, offers: set<Triple>)
    requires Offered(w, offers) && e in StageOutcome(w, d, g, h, now).effects
    ensures OfferedEffect(offers, e)
  {
  }

  lemma CommitOffered(cfg: Config, w: World, d: Id, g: u64, h: Digest, now: i64, e: Effect, offers: set<Triple>)
    requires Offered(w, offers) && e in ApplyCommitOutcome(cfg, w, d, g, h, now).effects
    ensures OfferedEffect(offers, e)
  {
  }

  lemma HandleOffered(cfg: Config, w: World, i: Input, e: Effect, offers: set<Triple>)
    requires ValidInput(w, i) && Offered(w, offers) && e in Handle(cfg, w, i).effects
    ensures OfferedEffect(offers + OfferOf(i.message), e)
  {
    hide PrepareOutcome, ChunkOutcome, CompleteOutcome, StageOutcome, ApplyCommitOutcome, Offered, Do, Apply, Run;
    match i.message
    case Hello(f) =>
    case Prepare(m) => PrepareOffered(cfg, w, m, i.now, e, offers);
    case Chunk(s, o, data) => ChunkOffered(w, s, o, data, i.now, e, offers);
    case TransferComplete(d, h, n) => CompleteOffered(cfg, w, d, h, n, i.now, e, offers);
    case Stage(d, g, h) => StageOffered(w, d, g, h, i.now, e, offers);
    case ApplyPrepare(d, g, h) => assert e in ApplyPrepareOutcome(cfg, w, d, g, h).effects;
    case ApplyCommit(d, g, h) => CommitOffered(cfg, w, d, g, h, i.now, e, offers);
    case ApplyAbort(d, g) => assert e in ApplyAbortOutcome(w, d, g).effects;
    case ReconcileRequest(n) =>
    case Retire(d, g) => assert e in RetireOutcome(w, d, g).effects;
  }

  // ---- Start-up ----

  lemma {:induction false} StraysOffered(w0: World, names: seq<Id>, e: Effect, offers: set<Triple>)
    requires e in Strays(w0, names)
    ensures OfferedEffect(offers, e)
    decreases |names|
  {
    if e in Strays(w0, names[1..]) { StraysOffered(w0, names[1..], e, offers); }
  }

  lemma {:induction false} TransferStepsOffered(w0: World, ds: seq<Id>, e: Effect, offers: set<Triple>)
    requires Known(w0, ds) && Offered(w0, offers) && e in Resizes(w0, ds) + Discards(w0, ds) + Checkpoints(w0, ds)
    ensures OfferedEffect(offers, e)
    decreases |ds|
  {
    if e in Resizes(w0, ds[1..]) + Discards(w0, ds[1..]) + Checkpoints(w0, ds[1..]) {
      TransferStepsOffered(w0, ds[1..], e, offers);
    }
  }

  lemma RecoverKeyOffered(cfg: Config, w: World, k: Id, e: Effect, offers: set<Triple>)
    requires e in RecoverKey(cfg, w, k)
    ensures OfferedEffect(offers, e)
  {
    hide Run, Do, Apply;
  }

  lemma {:induction false} RecoverKeysOffered(cfg: Config, w: World, keys: seq<Id>, e: Effect, offers: set<Triple>)
    requires e in RecoverKeys(cfg, w, keys)
    ensures OfferedEffect(offers, e)
    decreases |keys|
  {
    hide Run, RecoverKey, Skipped, OfferedEffect;
    if Skipped(cfg.liveRoot, keys[0]) {
      RecoverKeysOffered(cfg, w, keys[1..], e, offers);
    } else if e in RecoverKeys(cfg, Run(w, RecoverKey(cfg, w, keys[0])), keys[1..]) {
      RecoverKeysOffered(cfg, Run(w, RecoverKey(cfg, w, keys[0])), keys[1..], e, offers);
    } else {
      RecoverKeyOffered(cfg, w, keys[0], e, offers);
    }
  }

  lemma BootOffered(cfg: Config, w: World, l: Listing, e: Effect, offers: set<Triple>)
    requires w.mem == w.dur && CanBoot(w.mem) && ValidListing(cfg, w, l) && Offered(w, offers) && e in Boot(cfg, w, l)
    ensures OfferedEffect(offers, e)
  {
    hide Listed, Skipped, Run;
    var w0 := Do(w, Commit(AgentIdentity(NextIdentity(cfg, w.mem, l.incarnation))));
    var w1 := Run(w0, RecoverTransfers(w0, l));
    assert Offered(w0, offers);
    if e in RecoverLive(cfg, w1, l) {
      if e in RecoverKeys(cfg, w1, l.keys) { RecoverKeysOffered(cfg, w1, l.keys, e, offers); }
    } else if e in RecoverTransfers(w0, l) {
      if e in Strays(w0, l.staged) { StraysOffered(w0, l.staged, e, offers); }
      else { TransferStepsOffered(w0, l.transfers, e, offers); }
    }
  }

  lemma EventKeepsOffered(cfg: Config, p: AgentRuns.Process, e: AgentRuns.Event, offers: set<Triple>)
    requires AgentRuns.Enabled(cfg, p, e) && Offered(p.w, offers)
    requires e.Handled? || e.Cut? ==> OfferOf(e.input.message) <= offers
    ensures Offered(AgentRuns.Next(cfg, p, e).w, offers)
  {
    hide Handle, Boot, Run, OfferedEffect, ValidListing;
    match e
    case Handled(i) => HandleKeepsOffered(cfg, p.w, i, |Handle(cfg, p.w, i).effects|, offers);
    case Cut(i, n) => HandleKeepsOffered(cfg, p.w, i, n, offers);
    case Booted(l) => BootKeepsOffered(cfg, Reload(p.w), l, |Boot(cfg, Reload(p.w), l)|, offers);
    case BootCut(l, n) => BootKeepsOffered(cfg, Reload(p.w), l, n, offers);
  }

  lemma HandleKeepsOffered(cfg: Config, w: World, i: Input, n: nat, offers: set<Triple>)
    requires ValidInput(w, i) && Offered(w, offers) && OfferOf(i.message) <= offers && n <= |Handle(cfg, w, i).effects|
    ensures Offered(Run(w, Handle(cfg, w, i).effects[..n]), offers)
    ensures Handle(cfg, w, i).effects[..|Handle(cfg, w, i).effects|] == Handle(cfg, w, i).effects
  {
    hide Handle, Run, OfferedEffect, Offered;
    var es := Handle(cfg, w, i).effects;
    assert offers + OfferOf(i.message) == offers;
    forall e | e in es[..n] ensures OfferedEffect(offers, e) { HandleOffered(cfg, w, i, e, offers); }
    RunKeepsOffered(w, es[..n], offers);
  }

  lemma BootKeepsOffered(cfg: Config, w: World, l: Listing, n: nat, offers: set<Triple>)
    requires w.mem == w.dur && CanBoot(w.mem) && ValidListing(cfg, w, l) && Offered(w, offers) && n <= |Boot(cfg, w, l)|
    ensures Offered(Run(w, Boot(cfg, w, l)[..n]), offers)
    ensures Boot(cfg, w, l)[..|Boot(cfg, w, l)|] == Boot(cfg, w, l)
  {
    hide Boot, Run, OfferedEffect, Offered, ValidListing;
    var es := Boot(cfg, w, l);
    forall e | e in es[..n] ensures OfferedEffect(offers, e) { BootOffered(cfg, w, l, e, offers); }
    RunKeepsOffered(w, es[..n], offers);
  }

  // ---- The two processes together ----

  /** What the distributor offered to a target. */
  function OffersTo(log: seq<Entry>, t: Id): set<Triple> {
    set e | e in log && e.Sent? && e.peer == t && e.message.Prepare? :: (e.message.offer.key, e.message.offer.generation, e.message.offer.digest)
  }

  ghost predicate AllOffered(s: System) {
    forall t :: t in s.targets ==> Offered(s.targets[t].w, OffersTo(s.log, t))
  }

  lemma MoreOffers(w: World, few: set<Triple>, many: set<Triple>)
    requires Offered(w, few) && few <= many
    ensures Offered(w, many)
  {
  }

  lemma OffersGrow(log: seq<Entry>, e: Entry, t: Id)
    ensures OffersTo(log, t) <= OffersTo(log + [e], t)
  {
  }

  lemma SentIsOffered(log: seq<Entry>, t: Id, m: Message)
    requires Sent(t, m) in log
    ensures OfferOf(m) <= OffersTo(log, t)
  {
  }

  lemma StepKeepsOffered(net: Network, s: System, step: Step)
    requires AllOffered(s) && EvidenceRuns.Enabled(net, s, step)
    ensures AllOffered(EvidenceRuns.Next(net, s, step))
  {
    hide Offered, OffersTo, OfferOf, AgentRuns.Next, AgentRuns.Enabled, Handle, Allowed;
    match step
    case Records(e) =>
      forall t | t in s.targets ensures Offered(s.targets[t].w, OffersTo(s.log + [e], t)) {
        OffersGrow(s.log, e, t);
        MoreOffers(s.targets[t].w, OffersTo(s.log, t), OffersTo(s.log + [e], t));
      }
    case Acts(t, e) =>
      if e.Handled? || e.Cut? { SentIsOffered(s.log, t, e.input.message); }
      EventKeepsOffered(net.configs[t], s.targets[t], e, OffersTo(s.log, t));
  }

  lemma StartIsOffered(net: Network)
    ensures AllOffered(Start(net))
  {
  }

  lemma {:induction false} OffersHold(net: Network, ss: seq<System>, steps: seq<Step>, i: nat)
    requires Trace(net, ss, steps) && i < |ss|
    ensures AllOffered(ss[i])
    decreases i
  {
    hide AllOffered, EvidenceRuns.Next, EvidenceRuns.Enabled;
    if i == 0 {
      StartIsOffered(net);
    } else {
      OffersHold(net, ss, steps, i - 1);
      StepKeepsOffered(net, ss[i - 1], steps[i - 1]);
    }
  }

  /** A record is never lost, and what identifies it never changes. */
  lemma {:induction false} BooksLast(names: Derivation, max: nat, log: seq<Entry>, n: nat, id: Id)
    requires Lawful(names, max, log) && n <= |log| && id in Books(log[..n])
    ensures id in Books(log) && SameDelivery(Books(log[..n])[id], Books(log)[id])
    decreases |log|
  {
    hide Evidenced, IsLegalTransition, Derived, PaidFor;
    if n == |log| {
      assert log[..n] == log;
    } else {
      var before := log[..|log| - 1];
      assert before[..n] == log[..n];
      BooksLast(names, max, before, n, id);
    }
  }

  /** What was offered to a target is the content of a planned delivery of that target. */
  lemma OffersArePlanned(names: Derivation, max: nat, log: seq<Entry>, t: Id, offer: Triple) returns (id: Id)
    requires Lawful(names, max, log) && offer in OffersTo(log, t)
    ensures id in Books(log)
    ensures var b := Books(log)[id]; b.target == t && b.key == offer.0 && b.generation == offer.1 && b.digest == offer.2
  {
    hide Lawful, Books;
    var e :| e in log && e.Sent? && e.peer == t && e.message.Prepare?
             && (e.message.offer.key, e.message.offer.generation, e.message.offer.digest) == offer;
    var i :| 0 <= i < |log| && log[i] == e;
    LawfulAt(names, max, log, i);
    id := e.message.offer.deployment;
    assert MaySend(Books(log[..i]), t, e.message);
    BooksLast(names, max, log, i, id);
  }

  /** No other delivery of the target asks for the same generation and digest under another key. */
  predicate OnlyKey(books: map<Id, DeliveryRecord>, r: DeliveryRecord) {
    forall id :: id in books && books[id].target == r.target && books[id].generation == r.generation && books[id].digest == r.digest ==>
      books[id].key == r.key
  }

  /** Evidence names the key, too: when a delivery is recorded as applied or acknowledged, the pair was made live under the
      key of a planned delivery of that target for the same pair, and so under the delivery's own key unless another one
      asks for the same pair under another key. */
  lemma EvidenceNamesTheKey(net: Network, ss: seq<System>, steps: seq<Step>, i: nat)
    requires Trace(net, ss, steps) && i < |steps|
    requires steps[i].Records? && steps[i].entry.Moved? && IsActivationState(steps[i].entry.record.state)
    ensures var r := steps[i].entry.record;
            && r.target in ss[i].targets
            && (exists id :: id in Books(ss[i].log) && Books(ss[i].log)[id].target == r.target
                  && Switch(Books(ss[i].log)[id].key, r.generation, r.digest) in ss[i].targets[r.target].w.switches)
            && (OnlyKey(Books(ss[i].log), r) ==> Switch(r.key, r.generation, r.digest) in ss[i].targets[r.target].w.switches)
  {
    assert |ss| == |steps| + 1;
    hide Lawful, Books, Trace, OffersTo;
    var r := steps[i].entry.record;
    EvidenceIsNeverInvented(net, ss, steps, i);
    OffersHold(net, ss, steps, i);
    HistoryIsLawful(net, ss, steps, i);
    var switches := ss[i].targets[r.target].w.switches;
    var j :| 0 <= j < |switches| && switches[j].generation == r.generation && switches[j].digest == r.digest;
    var s := switches[j];
    assert s in switches && s == Switch(s.key, r.generation, r.digest);
    var id := OffersArePlanned(net.names, net.maxAttempts, ss[i].log, r.target, (s.key, r.generation, r.digest));
  }
}
