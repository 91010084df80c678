/** The distributor (src/distributor.cpp): it drives deliveries over sessions with targets, and records a delivery as
    applied or acknowledged only on what a target said. */
module Distributor {
  import opened Prelude
  import opened Lifecycle
  import opened AgentState
  import opened Messages
  import opened Reconciliation
  import opened Ledger
  import opened Policy
  import opened AgentModel
  import opened SessionScript

  datatype Status = Done | Stop(code: Code)

  /** What is recorded about a target. */
  datatype TargetRuntime = TargetRuntime(
    klass: TargetClass, guarantee: Guarantee, term: u64, incarnation: Bytes, committed: Pointer,
    lastContact: i64, contactCurrent: bool, applyPrepared: bool)

  const NEW_TARGET: TargetRuntime := TargetRuntime(Unspecified, AtomicActivate, 0, Zeros(16), NOTHING, 0, false, false)

  predicate IsTerminalRejection(c: Code) {
    || c == GuaranteeUnsupported || c == SchemaUnsupported || c == OversizePayload || c == InvalidArgument
    || c == UnsupportedVersion || c == UnsupportedFeature || c == PolicyDenied || c == CapabilityMismatch
  }

  /** One session: the authority it authenticated, the report it fetched, and what the network will do next. */
  class Session {
    const target: Id
    const peerMaxPayload: u32
    var term: u64
    var incarnation: Bytes
    var report: Option<ReconcileReport>
    var sends: seq<bool>
    var replies: seq<Reply>

    constructor (target: Id, peerMaxPayload: u32, sends: seq<bool>, replies: seq<Reply>)
      ensures this.target == target && this.peerMaxPayload == peerMaxPayload && this.sends == sends && this.replies == replies && report == None
    {
      this.target, this.peerMaxPayload, this.sends, this.replies := target, peerMaxPayload, sends, replies;
      term, incarnation, report := 0, Zeros(16), None;
    }

    method Push() returns (ok: bool)
      modifies `sends
      ensures ok == (old(sends) != [] && old(sends)[0])
      ensures sends == if old(sends) == [] then [] else old(sends)[1..]
    {
      if sends == [] { return false; }
      ok, sends := sends[0], sends[1..];
    }

    method Pull() returns (reply: Option<Reply>)
      modifies `replies
      ensures reply.None? <==> old(replies) == []
      ensures reply.None? ==> replies == []
      ensures reply.Some? ==> old(replies) == [reply.value] + replies
    {
      if replies == [] { return None; }
      reply, replies := Some(replies[0]), replies[1..];
    }
  }

  /** Only the delivery `id` changed, and nothing about it that is fixed. */
  predicate OnlyMoves(before: map<Id, DeliveryRecord>, after: map<Id, DeliveryRecord>, id: Id) {
    && after.Keys == before.Keys
    && (forall x :: x in before && x != id ==> after[x] == before[x])
    && (id in before ==> SameDelivery(before[id], after[id]))
  }

  /** What a session may change, at one moment. */
  datatype Snapshot = Snapshot(
    deliveries: map<Id, DeliveryRecord>, log: seq<Entry>, targets: map<Id, TargetRuntime>, sends: seq<bool>, replies: seq<Reply>)

  /** Deliveries only changed in state and bookkeeping. */
  predicate NoneLost(before: map<Id, DeliveryRecord>, after: map<Id, DeliveryRecord>) {
    after.Keys == before.Keys && forall x :: x in before ==> SameDelivery(before[x], after[x])
  }

  class Distributor {
    const names: Derivation
    const policy: DistributorPolicy
    const chunkBytes: nat
    const epoch: u64
    var deliveries: map<Id, DeliveryRecord>
    var targets: map<Id, TargetRuntime>
    var artifacts: map<Digest, Bytes>
    var clock: i64
    ghost var log: seq<Entry>

    /** The history consists of the steps the distributor may take, and the records are what it wrote. */
    ghost predicate Valid()
      reads `deliveries, `log
    {
      && Policy.Valid(policy)
      && Lawful(names, policy.maxAttempts, log)
      && deliveries == Books(log)
    }

    ghost predicate Current(r: DeliveryRecord)
      reads `deliveries
    {
      r.id in deliveries && deliveries[r.id] == r
    }

    /** The session's report, if there is one, was received from the session's target. */
    ghost predicate Knows(s: Session)
      reads `log, s`report
    {
      s.report.Some? ==> Received(s.target, Report(s.report.value)) in log
    }

    // ---- History ----

    /** Entries that write no record. */
    ghost method Note(e: Entry)
      requires Valid() && !Writes(e) && Allowed(names, policy.maxAttempts, log, e)
      modifies `log
      ensures Valid() && log == old(log) + [e]
    {
      hide Lawful, Books, Allowed, Said;
      LawfulSnoc(names, policy.maxAttempts, log, e);
      log := log + [e];
    }

    /** Entries that write one. */
    ghost method Write(e: Entry)
      requires Policy.Valid(policy) && Lawful(names, policy.maxAttempts, log) && Writes(e) && Allowed(names, policy.maxAttempts, log, e)
      requires deliveries == Books(log)[e.record.id := e.record]
      modifies `log
      ensures Valid() && log == old(log) + [e]
    {
      hide Lawful, Books, Allowed, Said;
      LawfulSnoc(names, policy.maxAttempts, log, e);
      log := log + [e];
    }

    method Send(s: Session, m: Message) returns (ok: bool)
      requires Valid() && MaySend(deliveries, s.target, m)
      modifies `log, s`sends
      ensures Valid() && ok == (old(s.sends) != [] && old(s.sends)[0])
      ensures s.sends == if old(s.sends) == [] then [] else old(s.sends)[1..]
      ensures Said(log) == Said(old(log)) + if ok then [m] else []
      ensures log == if ok then old(log) + [Sent(s.target, m)] else old(log)
    {
      hide Lawful, Books, Said;
      ok := s.Push();
      SaidSnoc(log, Sent(s.target, m));
      if ok { Note(Sent(s.target, m)); }
    }

    method Receive(s: Session) returns (reply: Option<Reply>)
      requires Valid()
      modifies `log, s`replies
      ensures Valid() && Said(log) == Said(old(log))
      ensures reply.None? <==> old(s.replies) == []
      ensures reply.None? ==> log == old(log) && s.replies == old(s.replies)
      ensures reply.Some? ==> log == old(log) + [Received(s.target, reply.value)] && old(s.replies) == [reply.value] + s.replies
    {
      hide Lawful, Books, Said;
      reply := s.Pull();
      if reply.Some? { SaidSnoc(log, Received(s.target, reply.value)); }
      if reply.Some? { Note(Received(s.target, reply.value)); }
    }

    /** What a session about `r` may change in what is recorded of its target: the committed pair may follow, not go back. */
    predicate Settled(before: map<Id, TargetRuntime>, after: map<Id, TargetRuntime>, r: DeliveryRecord)
      reads `clock
    {
      && after.Keys == before.Keys && (forall t :: t in before && t != r.target ==> after[t] == before[t])
      && (r.target in before ==> Follows(before[r.target], after[r.target], Pointer(r.generation, r.digest, r.artifact)))
    }

    predicate Follows(before: TargetRuntime, after: TargetRuntime, p: Pointer)
      reads `clock
    {
      && (after.lastContact == before.lastContact || after.lastContact == clock)
      && after == before.(committed := after.committed, lastContact := after.lastContact)
      && (after.committed == before.committed || (after.committed == p && before.committed.generation <= p.generation))
    }

    lemma SettledTwice(a: map<Id, TargetRuntime>, b: map<Id, TargetRuntime>, c: map<Id, TargetRuntime>, r: DeliveryRecord, x: DeliveryRecord)
      requires Settled(a, b, r) && Settled(b, c, x) && SameDelivery(r, x)
      ensures Settled(a, c, r)
    {
      assert Pointer(x.generation, x.digest, x.artifact) == Pointer(r.generation, r.digest, r.artifact);
      if r.target in a {
        var t, u, v := a[r.target], b[r.target], c[r.target];
        assert v == t.(committed := v.committed, lastContact := v.lastContact);
      }
    }

    /** The delivery is acknowledged, and this is what was said on the way. */
    ghost predicate Finished(was: seq<Entry>, before: map<Id, TargetRuntime>, r: DeliveryRecord, said: seq<Message>)
      reads `deliveries, `log, `targets, `clock
    {
      && r.id in deliveries && deliveries[r.id].state == Acknowledged
      && Said(log) == Said(was) + said && Settled(before, targets, r)
    }

    /** What was said before counts, too. */
    lemma FinishedSince(was: seq<Entry>, mid: seq<Entry>, before: map<Id, TargetRuntime>, r: DeliveryRecord, x: DeliveryRecord, first: seq<Message>, rest: seq<Message>)
      requires Finished(mid, before, x, rest) && x.id == r.id && x.target == r.target && x.generation == r.generation
      requires x.digest == r.digest && x.artifact == r.artifact
      requires Said(mid) == Said(was) + first
      ensures Finished(was, before, r, first + rest)
    {
      hide Said;
      assert (Said(was) + first) + rest == Said(was) + (first + rest);
    }

    // ---- Recording ----

    ghost predicate WroteOne(before: seq<Entry>)
      reads `log
    {
      |log| == |before| + 1 && before <= log && Writes(log[|before|])
    }

    /** A change of the stored record that the lifecycle does not see: one more failure, or none. */
    method UpsertDelivery(r: DeliveryRecord)
      requires Valid() && r.id in deliveries && SameDelivery(deliveries[r.id], r) && r.state == deliveries[r.id].state
      requires r.failures == deliveries[r.id].failures
               || (r.state == Failed && r.failures as int == deliveries[r.id].failures + 1)
      modifies `deliveries, `log
      ensures Valid() && deliveries == old(deliveries)[r.id := r] && Said(log) == Said(old(log))
      ensures log == old(log) + [if r.failures == old(deliveries)[r.id].failures then Entry.Touched(r) else Entry.Charged(r)]
    {
      hide Lawful, Books, Said;
      ghost var e := if r.failures == deliveries[r.id].failures then Entry.Touched(r) else Entry.Charged(r);
      SaidSnoc(log, e);
      deliveries := deliveries[r.id := r];
      Write(e);
    }

    method RecordTransition(r: DeliveryRecord, goal: DeliveryState, code: Code) returns (s: Status, after: DeliveryRecord)
      requires Valid() && r.id in deliveries && SameDelivery(deliveries[r.id], r) && deliveries[r.id].state == r.state
      requires IsActivationState(goal) ==> Evidenced(log, r)
      requires IsLegalTransition(r.state, goal) ==> PaidFor(policy.maxAttempts, deliveries[r.id], r.(state := goal))
      modifies `deliveries, `log
      ensures Valid() && Said(log) == Said(old(log))
      ensures s == (if IsLegalTransition(r.state, goal) then Done else Stop(InvalidTransition))
      ensures s == Done ==> after == r.(state := goal, lastError := code, updatedAt := clock)
      ensures s == Done ==> deliveries == old(deliveries)[r.id := after] && log == old(log) + [Moved(after, r.state)]
      ensures s != Done ==> after == r && deliveries == old(deliveries) && log == old(log)
    {
      hide Lawful, Books, Evidenced, Said;
      after := r;
      match ApplyTransition(r.state, goal) {
        case Err(_) => return Stop(InvalidTransition), r;
        case Ok(state) =>
          after := r.(state := state, lastError := code, updatedAt := clock);
      }
      if IsActivationState(goal) { SameEvidence(log, r, after); }
      ghost var e := Moved(after, r.state);
      SaidSnoc(log, e);
      deliveries := deliveries[r.id := after];
      Write(e);
      s := Done;
    }

    /** The failure is counted first; a delivery already failed only gets its evidence refreshed. */
    method RecordFailure(r: DeliveryRecord, code: Code) returns (s: Status, after: DeliveryRecord)
      requires Valid() && Current(r)
      modifies `deliveries, `log
      ensures Valid() && old(log) <= log
      ensures log == old(log) || WroteOne(old(log))
      ensures s == Done <==> r.failures < U32_LIMIT - 1 && r.attempt < U64_LIMIT - 1
                             && (r.state == Failed || IsLegalTransition(r.state, Failed))
      ensures s == Done ==> after == r.(state := Failed, failures := r.failures + 1, attempt := r.attempt + 1,
                                        lastError := code, updatedAt := clock)
      ensures s == Done ==> deliveries == old(deliveries)[r.id := after]
      ensures s != Done ==> deliveries == old(deliveries) && log == old(log)
    {
      after := r;
      if r.failures == U32_LIMIT - 1 { return Stop(ArithmeticOverflow), r; }
      if r.attempt == U64_LIMIT - 1 { return Stop(ArithmeticOverflow), r; }
      var counted := r.(failures := r.failures + 1, attempt := r.attempt + 1, lastError := code);
      if r.state == Failed {
        after := counted.(updatedAt := clock);
        UpsertDelivery(after);
        return Done, after;
      }
      s, after := RecordTransition(counted, Failed, code);
    }

    method RecordRejected(r: DeliveryRecord, code: Code) returns (s: Status, after: DeliveryRecord)
      requires Valid() && Current(r)
      modifies `deliveries, `log
      ensures Valid() && old(log) <= log
      ensures s == Done <==> r.state == Rejected || IsLegalTransition(r.state, Rejected)
      ensures s == Done ==> Current(after) && SameDelivery(r, after) && after.state == Rejected && after.failures == r.failures
      ensures OnlyMoves(old(deliveries), deliveries, r.id) && (s != Done ==> deliveries == old(deliveries))
    {
      hide Lawful, Books, Evidenced, Said;
      if r.state == Rejected {
        after := r.(updatedAt := clock);
        UpsertDelivery(after);
        return Done, after;
      }
      s, after := RecordTransition(r, Rejected, code);
      if s == Done {
        after := after.(lastError := code);
        UpsertDelivery(after);
      }
    }

    method RecordRetired(r: DeliveryRecord) returns (s: Status, after: DeliveryRecord)
      requires Valid() && Current(r)
      modifies `deliveries, `log
      ensures Valid() && old(log) <= log && Said(log) == Said(old(log))
      ensures s == Done <==> r.state == Retired || IsLegalTransition(r.state, Retired)
      ensures s == Done ==> Current(after) && SameDelivery(r, after) && after.state == Retired
      ensures s == Done && r.state != Retired ==> after.superseded && after.id == r.id
      ensures OnlyMoves(old(deliveries), deliveries, r.id) && (s != Done ==> deliveries == old(deliveries))
    {
      hide Lawful, Books, Evidenced, Said;
      if r.state == Retired { return Done, r; }
      s, after := RecordTransition(r, Retired, Refused);
      if s == Done {
        after := after.(superseded := true);
        UpsertDelivery(after);
      }
    }

    /** The delivery becomes Applied on the evidence at hand, and the recorded target generation may follow it, but
        never backwards. */
    method AdoptActivation(r: DeliveryRecord) returns (s: Status, after: DeliveryRecord)
      requires Valid() && Current(r) && Evidenced(log, r)
      modifies `deliveries, `log, `targets
      ensures Valid() && old(log) <= log && Evidenced(log, after) && Said(log) == Said(old(log)) && Settled(old(targets), targets, r)
      ensures s == Done <==> IsActivationState(r.state) || IsLegalTransition(r.state, Applied)
      ensures s == Done ==>
                after == if IsActivationState(r.state) then r else r.(state := Applied, lastError := Success, updatedAt := clock)
      ensures s == Done ==> deliveries == old(deliveries)[r.id := after]
      ensures s != Done ==> after == r && deliveries == old(deliveries) && targets == old(targets)
      ensures targets.Keys == old(targets.Keys) && forall t :: t in targets && t != r.target ==> targets[t] == old(targets)[t]
      ensures r.target in targets ==> targets[r.target].committed.generation >= old(targets)[r.target].committed.generation
      ensures s == Done && r.target in targets && old(targets)[r.target].committed.generation <= r.generation ==>
                targets[r.target].committed == Pointer(r.generation, r.digest, r.artifact)
    {
      hide Lawful, Books, Evidenced, Said;
      s, after := Done, r;
      if !IsActivationState(r.state) {
        s, after := RecordTransition(r, Applied, Success);
        if s != Done { return; }
        EvidenceKept(old(log), Moved(after, r.state), r, after);
      }
      if r.target !in targets { return; }
      var runtime := targets[r.target];
      if IsSet(runtime.committed) && runtime.committed.generation > r.generation { return; }
      targets := targets[r.target := runtime.(committed := Pointer(r.generation, r.digest, r.artifact), lastContact := clock)];
    }

    static lemma EvidenceKept(log: seq<Entry>, e: Entry, r: DeliveryRecord, after: DeliveryRecord)
      requires Evidenced(log, r) && SameDelivery(r, after)
      ensures Evidenced(log + [e], after)
    {
      EvidenceGrows(log, e, r);
      SameEvidence(log + [e], r, after);
    }

    /** Acknowledged is only recorded on evidence, and only from Applied. */
    method Acknowledge(r: DeliveryRecord, fromReconciliation: bool) returns (s: Status, after: DeliveryRecord)
      requires Valid() && Current(r) && Evidenced(log, r)
      modifies `deliveries, `log
      ensures Valid() && old(log) <= log && Said(log) == Said(old(log))
      ensures s == Done <==> r.state == Acknowledged || r.state == Applied
      ensures s == Done ==> Current(after) && SameDelivery(r, after) && after.state == Acknowledged && after.failures == r.failures
      ensures s == Done && r.state == Applied ==> after.acknowledgedFromReconcile == fromReconciliation
      ensures s == Done && r.state == Acknowledged ==> after.acknowledgedFromReconcile == (r.acknowledgedFromReconcile || fromReconciliation)
      ensures OnlyMoves(old(deliveries), deliveries, r.id) && (s != Done ==> deliveries == old(deliveries))
    {
      hide Lawful, Books, Evidenced, Said;
      s, after := Done, r;
      if r.state == Acknowledged {
        if fromReconciliation && !r.acknowledgedFromReconcile {
          after := r.(acknowledgedFromReconcile := true);
          UpsertDelivery(after);
        }
        return;
      }
      if IsLegalTransition(r.state, Acknowledged) { StepShape(r.state, Acknowledged); }
      s, after := RecordTransition(r, Acknowledged, Success);
      if s == Done {
        after := after.(acknowledgedFromReconcile := fromReconciliation);
        UpsertDelivery(after);
      }
    }

    // ---- Sessions that fail, targets that restart ----

    /** The deliveries that satisfy a test, oldest generation first. */
    method InOrder(ids: set<Id>) returns (order: seq<Id>)
      requires ids <= deliveries.Keys
      ensures Lists(order, ids) && Distinct(order)
      ensures forall i, j :: 0 <= i < j < |order| ==> !Older(deliveries[order[j]], deliveries[order[i]])
    {
      order := [];
      var rest := ids;
      while rest != {}
        invariant rest <= ids
        invariant forall x :: x in order <==> x in ids && x !in rest
        invariant Distinct(order)
        invariant forall i, j :: 0 <= i < j < |order| ==> !Older(deliveries[order[j]], deliveries[order[i]])
        invariant forall x, i :: x in rest && 0 <= i < |order| ==> !Older(deliveries[x], deliveries[order[i]])
        decreases rest
      {
        var least :| least in rest;
        var others := rest - {least};
        OlderIsOrder(deliveries[least], deliveries[least], deliveries[least]);
        while others != {}
          invariant least in rest && others <= rest
          invariant forall x :: x in rest && x !in others ==> !Older(deliveries[x], deliveries[least])
          decreases others
        {
          var x :| x in others;
          others := others - {x};
          if Older(deliveries[x], deliveries[least]) {
            forall y | y in rest && y !in others ensures !Older(deliveries[y], deliveries[x]) {
              OlderIsOrder(deliveries[y], deliveries[x], deliveries[least]);
            }
            least := x;
          } else {
            OlderIsOrder(deliveries[least], deliveries[least], deliveries[least]);
          }
        }
        rest := rest - {least};
        order := order + [least];
      }
    }

    static predicate Older(a: DeliveryRecord, b: DeliveryRecord) {
      a.generation < b.generation || (a.generation == b.generation && Before(a.id, b.id))
    }

    static lemma OlderIsOrder(a: DeliveryRecord, b: DeliveryRecord, c: DeliveryRecord)
      ensures Older(a, b) && Older(b, c) ==> Older(a, c)
      ensures !Older(a, a) && !Older(b, b)
      ensures Older(a, b) ==> !Older(b, a)
    {
      NotBefore(a.id);
      NotBefore(b.id);
      if Before(a.id, b.id) && Before(b.id, c.id) { BeforeTransitive(a.id, b.id, c.id); }
      if Before(a.id, b.id) && Before(b.id, a.id) { BeforeTransitive(a.id, b.id, a.id); }
    }

    static lemma {:induction false} NotBefore(a: Id)
      ensures !Before(a, a)
    {
      if a != "" { NotBefore(a[1..]); }
    }

    static function Refreshed(r: DeliveryRecord, clock: i64): DeliveryRecord {
      r.(failures := 0, attempt := Next64(r.attempt), updatedAt := clock)
    }

    /** Every delivery of `chosen` was replaced by `change`, the others were left alone. */
    ghost predicate Replaced(before: map<Id, DeliveryRecord>, chosen: seq<Id>, change: DeliveryRecord -> DeliveryRecord)
      reads `deliveries
    {
      && deliveries.Keys == before.Keys
      && forall id :: id in before ==> deliveries[id] == if id in chosen then change(before[id]) else before[id]
    }

    lemma ReplacedOne(before: map<Id, DeliveryRecord>, order: seq<Id>, i: nat, change: DeliveryRecord -> DeliveryRecord, now: map<Id, DeliveryRecord>)
      requires i < |order| && Distinct(order) && order[i] in before
      requires now.Keys == before.Keys
      requires forall id :: id in before ==> now[id] == if id in order[..i] then change(before[id]) else before[id]
      requires deliveries == now[order[i] := change(now[order[i]])]
      ensures Replaced(before, order[..i + 1], change)
    {
      assert order[..i + 1] == order[..i] + [order[i]] && order[i] !in order[..i];
    }

    lemma ReplacedKeeps(before: map<Id, DeliveryRecord>, chosen: seq<Id>, change: DeliveryRecord -> DeliveryRecord)
      requires Replaced(before, chosen, change) && forall r :: SameDelivery(r, change(r))
      ensures NoneLost(before, deliveries)
    {
    }

    /** A restarted target gets a fresh budget for each of its failed deliveries, and nothing else changes. */
    method RearmAfterRestart(target: Id)
      requires Valid()
      modifies `deliveries, `log
      ensures Valid() && old(log) <= log && NoneLost(old(deliveries), deliveries) && Said(log) == Said(old(log))
      ensures forall id :: id in deliveries ==>
                var was := old(deliveries)[id];
                deliveries[id] == if was.target == target && was.state == Failed then Refreshed(was, clock) else was
    {
      hide Lawful, Books, Refreshed, NoneLost, Distinct, Said;
      var order := InOrder(set id | id in deliveries && deliveries[id].target == target && deliveries[id].state == Failed);
      ghost var before := deliveries;
      ghost var at := clock;
      ghost var change := r => Refreshed(r, at);
      for i := 0 to |order|
        invariant Valid() && old(log) <= log && Replaced(before, order[..i], change) && Said(log) == Said(old(log))
      {
        assert order[i] in order;
        NewlyListed(order, i);
        ghost var now := deliveries;
        Rearm(order[i]);
        ReplacedOne(before, order, i, change, now);
      }
      assert order[..|order|] == order;
      forall r ensures SameDelivery(r, change(r)) { RefreshedSame(r, clock); }
      ReplacedKeeps(before, order, change);
    }

    static lemma NewlyListed(order: seq<Id>, i: nat)
      requires i < |order| && Distinct(order)
      ensures order[i] !in order[..i]
    {
    }

    static lemma RefreshedSame(r: DeliveryRecord, clock: i64)
      ensures SameDelivery(r, Refreshed(r, clock))
    {
    }

    static lemma ChargedSame(r: DeliveryRecord, code: Code, clock: i64)
      ensures SameDelivery(r, Charged(r, code, clock))
    {
    }

    method Rearm(id: Id)
      requires Valid() && id in deliveries && deliveries[id].state == Failed
      modifies `deliveries, `log
      ensures Valid() && log == old(log) + [Rearmed(Refreshed(old(deliveries)[id], clock))] && Said(log) == Said(old(log))
      ensures deliveries == old(deliveries)[id := Refreshed(old(deliveries)[id], clock)]
    {
      hide Lawful, Books, Said;
      OwnId(id);
      var r := Refreshed(deliveries[id], clock);
      SaidSnoc(log, Rearmed(r));
      deliveries := deliveries[id := r];
      Write(Rearmed(r));
    }

    /** What one failed session costs a delivery. */
    static function Charged(r: DeliveryRecord, code: Code, clock: i64): DeliveryRecord {
      if r.failures < U32_LIMIT - 1 && r.attempt < U64_LIMIT - 1 && (r.state == Failed || IsLegalTransition(r.state, Failed)) then
        r.(state := Failed, failures := r.failures + 1, attempt := r.attempt + 1, lastError := code, updatedAt := clock)
      else r
    }

    /** A session that never got established costs every pending delivery of its target one attempt. */
    method RecordSessionFailure(target: Id, code: Code)
      requires Valid()
      modifies `deliveries, `log, `targets
      ensures Valid() && old(log) <= log && NoneLost(old(deliveries), deliveries)
      ensures forall id :: id in deliveries ==>
                var was := old(deliveries)[id];
                deliveries[id] == if was.target == target && IsPendingState(was.state) then Charged(was, code, clock) else was
      ensures targets == if target in old(targets) then old(targets)[target := old(targets)[target].(contactCurrent := false)] else old(targets)
    {
      hide Lawful, Books, Charged, NoneLost, Said;
      ChargePending(target, code);
      if target in targets {
        targets := targets[target := targets[target].(contactCurrent := false)];
      }
    }

    method ChargePending(target: Id, code: Code)
      requires Valid()
      modifies `deliveries, `log
      ensures Valid() && old(log) <= log && NoneLost(old(deliveries), deliveries)
      ensures forall id :: id in deliveries ==>
                var was := old(deliveries)[id];
                deliveries[id] == if was.target == target && IsPendingState(was.state) then Charged(was, code, clock) else was
    {
      hide Lawful, Books, Charged, NoneLost, Distinct, Said;
      var order := InOrder(set id | id in deliveries && deliveries[id].target == target && IsPendingState(deliveries[id].state));
      ghost var before := deliveries;
      ghost var at := clock;
      ghost var change := r => Charged(r, code, at);
      ChargeEach(order, code);
      forall r ensures SameDelivery(r, change(r)) { ChargedSame(r, code, at); }
      ReplacedKeeps(before, order, change);
    }

    method ChargeEach(order: seq<Id>, code: Code)
      requires Valid() && Distinct(order) && forall id :: id in order ==> id in deliveries
      modifies `deliveries, `log
      ensures Valid() && old(log) <= log
      ensures var at := clock; Replaced(old(deliveries), order, r => Charged(r, code, at))
    {
      hide Lawful, Books, Charged, Distinct, Said;
      ghost var before := deliveries;
      ghost var at := clock;
      ghost var change := r => Charged(r, code, at);
      for i := 0 to |order|
        invariant Valid() && old(log) <= log && Replaced(before, order[..i], change)
      {
        NewlyListed(order, i);
        ghost var now := deliveries;
        ChargeOne(order[i], code);
        ReplacedOne(before, order, i, change, now);
      }
      assert order[..|order|] == order;
    }

    method ChargeOne(id: Id, code: Code)
      requires Valid() && id in deliveries
      modifies `deliveries, `log
      ensures Valid() && old(log) <= log
      ensures deliveries == old(deliveries)[id := Charged(old(deliveries)[id], code, clock)]
    {
      hide Lawful, Books, Said;
      OwnId(id);
      var s, after := RecordFailure(deliveries[id], code);
    }

    lemma OwnId(id: Id)
      requires Valid() && id in deliveries
      ensures deliveries[id].id == id && Derived(names, deliveries[id])
    {
      AllAreTracked(names, policy.maxAttempts, log);
    }

    // ---- Reconciliation ----

    static function ReconcileQuestion(s: Option<ReconcileReport>, term: u64, incarnation: Bytes, r: DeliveryRecord): ReconcileInput {
      ReconcileInput(s, term, incarnation, r.generation, r.digest, r.id)
    }

    /** What reconciliation makes of one pending delivery, given the decision about it. */
    static predicate Reconciled(was: DeliveryRecord, now: DeliveryRecord, outcome: ReconcileOutcome) {
      match outcome
      case AdoptActivation => now.state == Acknowledged && now.acknowledgedFromReconcile && now.failures == was.failures
      case RetireStale(_) => now.state == Retired && now.superseded
      case _ => now == was
    }

    lemma ReportIsEvidence(s: Session, r: DeliveryRecord)
      requires Valid() && Knows(s) && s.target == r.target && r.generation != 0
      requires ReconcileDelivery(ReconcileQuestion(s.report, s.term, s.incarnation, r)) == ReconcileOutcome.AdoptActivation
      ensures Evidenced(log, r)
    {
      hide Lawful, Books, Said;
      var e := Received(s.target, Report(s.report.value));
      var i :| 0 <= i < |log| && log[i] == e;
      assert ProvedAt(log[i], r);
    }

    /** One step of `applyReconcileReport`. */
    method ReconcileOne(s: Session, r: DeliveryRecord) returns (st: Status)
      requires Valid() && Current(r) && Knows(s) && s.target == r.target && IsPendingState(r.state)
      modifies `deliveries, `log, `targets, s`sends, s`replies
      ensures Valid() && old(log) <= log && OnlyMoves(old(deliveries), deliveries, r.id) && Settled(old(targets), targets, r)
      ensures var outcome := ReconcileDelivery(ReconcileQuestion(s.report, s.term, s.incarnation, r));
              && (st == Done ==> Reconciled(r, deliveries[r.id], outcome))
              && (outcome != ReconcileOutcome.AdoptActivation ==> targets == old(targets))
              && (outcome != ReconcileOutcome.ResolvePrepareWindow ==>
                    s.sends == old(s.sends) && s.replies == old(s.replies) && Said(log) == Said(old(log)))
              && (outcome != ReconcileOutcome.ResolvePrepareWindow && outcome != ReconcileOutcome.FenceAuthority ==> st == Done)
              && (outcome == ReconcileOutcome.ResolvePrepareWindow && st == Done ==>
                    s.report.Some? && old(log) + [Sent(s.target, AbortFor(s.report.value.window, r))] <= log)
    {
      hide Lawful, Books, Evidenced, ReconcileDelivery, OnlyMoves, Said, Settled;
      SettledAlready(targets, r);
      OwnId(r.id);
      OnlyMovesSelf(deliveries, r.id);
      var outcome := ReconcileDelivery(ReconcileQuestion(s.report, s.term, s.incarnation, r));
      match outcome {
        case AdoptActivation =>
          ReportIsEvidence(s, r);
          st := AdoptAndAcknowledge(r, true);
        case RetireStale(_) =>
          var retired: DeliveryRecord;
          st, retired := RecordRetired(r);
        case ResolvePrepareWindow =>
          WindowNeedsReport(ReconcileQuestion(s.report, s.term, s.incarnation, r));
          st := AbortWindow(s, r);
        case FenceAuthority =>
          st := Stop(FencedIncarnation);
        case _ =>
          st := Done;
      }
    }

    lemma SettledAlready(ts: map<Id, TargetRuntime>, r: DeliveryRecord)
      ensures Settled(ts, ts, r)
    {
    }

    /** The abort of the window the report tells of; the delivery's generation stands in for a missing one. */
    static function AbortFor(w: Window, r: DeliveryRecord): Message {
      ApplyAbort(w.deployment, if w.generation != 0 then w.generation else r.generation)
    }

    static lemma WindowNeedsReport(i: ReconcileInput)
      ensures ReconcileDelivery(i) == ResolvePrepareWindow ==> i.report.Some?
    {
    }

    static lemma OnlyMovesSelf(ds: map<Id, DeliveryRecord>, id: Id)
      ensures OnlyMoves(ds, ds, id)
    {
    }

    /** Adoption, a fresh copy of the record, then the acknowledgement. */
    method AdoptAndAcknowledge(r: DeliveryRecord, fromReconciliation: bool) returns (st: Status)
      requires Valid() && Current(r) && Evidenced(log, r)
      modifies `deliveries, `log, `targets
      ensures Valid() && old(log) <= log && OnlyMoves(old(deliveries), deliveries, r.id)
      ensures Said(log) == Said(old(log)) && Settled(old(targets), targets, r)
      ensures st == Done <==> IsActivationState(r.state) || IsLegalTransition(r.state, Applied)
      ensures st == Done ==> deliveries[r.id].state == Acknowledged && deliveries[r.id].failures == r.failures
      ensures st == Done && r.state != Acknowledged ==> deliveries[r.id].acknowledgedFromReconcile == fromReconciliation
      ensures st != Done ==> deliveries == old(deliveries)
    {
      hide Lawful, Books, Evidenced, Said;
      var applied: DeliveryRecord;
      st, applied := AdoptActivation(r);
      if st != Done { return; }
      st, applied := Acknowledge(deliveries[r.id], fromReconciliation);
    }

    /** A window the target still holds is aborted, so that it returns to a defined state. */
    method AbortWindow(s: Session, r: DeliveryRecord) returns (st: Status)
      requires Valid() && s.report.Some?
      modifies `log, s`sends, s`replies
      ensures Valid() && old(log) <= log
      ensures st == Done <==> old(s.sends) != [] && old(s.sends)[0] && old(s.replies) != [] && old(s.replies)[0].ApplyAbortAck?
      ensures st == Done ==> old(log) + [Sent(s.target, AbortFor(s.report.value.window, r))] <= log
      ensures Said(log) == Said(old(log)) + if old(s.sends) != [] && old(s.sends)[0] then [AbortFor(s.report.value.window, r)] else []
    {
      hide Lawful, Books, Said;
      var window := s.report.value.window;
      var generation := if window.generation != 0 then window.generation else r.generation;
      var sent := Send(s, ApplyAbort(window.deployment, generation));
      if !sent { return Stop(ConnectionClosed); }
      var reply := Receive(s);
      if reply.None? { return Stop(ConnectionClosed); }
      st := if reply.value.ApplyAbortAck? then Done else Stop(UnexpectedMessage);
    }

    /** `applyReconcileReport`: the pending deliveries of the session's target, oldest generation first. */
    method ApplyReconcileReport(s: Session) returns (st: Status)
      requires Valid() && Knows(s)
      modifies `deliveries, `log, `targets, s`sends, s`replies
      ensures Valid() && old(log) <= log && NoneLost(old(deliveries), deliveries) && Told(old(targets), targets, s.target)
      ensures st == Done ==> ReportApplied(s, old(deliveries), deliveries)
      ensures st == Done ==> AbortsSaid(s, old(deliveries), old(log), log)
      ensures NothingAdopted(s, old(deliveries)) ==> targets == old(targets)
      ensures Calm(s) ==> st == Done && Said(log) == Said(old(log)) && s.sends == old(s.sends) && s.replies == old(s.replies)
    {
      hide Lawful, Books, ReconcileDelivery, Reconciled, Said, Settled, Told, AbortsSaid, Calm, OnlyMoves, NoneLost, AbortFor, ReportApplied, Sofar;
      hide NothingAdopted;
      ghost var first := Now(s);
      var order := InOrder(set id | id in deliveries && deliveries[id].target == s.target && IsPendingState(deliveries[id].state));
      NothingYet(s, order);
      st := Done;
      for i := 0 to |order|
        invariant Valid() && Knows(s) && st == Done && Sofar(s, first, Now(s), order, i)
      {
        NextPending(s, first, order, i);
        OwnId(order[i]);
        ghost var before := Now(s);
        CalmOutcome(s, deliveries[order[i]]);
        st := ReconcileOne(s, deliveries[order[i]]);
        MovedFacts(before.deliveries, deliveries, order[i]);
        SofarOn(s, first, before, Now(s), order, i);
        if st != Done { return; }
      }
      Finally(s, first, order);
    }

    /** What a session may change. */
    ghost function Now(s: Session): Snapshot
      reads `deliveries, `log, `targets, s`sends, s`replies
    {
      Snapshot(deliveries, log, targets, s.sends, s.replies)
    }

    /** After the first `i` of the pending deliveries. */
    ghost predicate Sofar(s: Session, a: Snapshot, b: Snapshot, order: seq<Id>, i: nat)
      reads s`report, s`term, s`incarnation, `clock
    {
      && a.log <= b.log && NoneLost(a.deliveries, b.deliveries) && Told(a.targets, b.targets, s.target)
      && (NothingAdopted(s, a.deliveries) ==> b.targets == a.targets)
      && (Calm(s) ==> Said(b.log) == Said(a.log) && b.sends == a.sends && b.replies == a.replies)
      && Worked(s, a.deliveries, b.deliveries, order, i) && AbortsSaidFor(s, a.deliveries, order[..i], a.log, b.log)
    }

    /** No pending delivery of the session's target is adopted. */
    ghost predicate NothingAdopted(s: Session, ds: map<Id, DeliveryRecord>)
      reads s`report, s`term, s`incarnation
    {
      forall id :: id in ds && ds[id].target == s.target && IsPendingState(ds[id].state) ==>
        ReconcileDelivery(ReconcileQuestion(s.report, s.term, s.incarnation, ds[id])) != ReconcileOutcome.AdoptActivation
    }

    lemma NothingYet(s: Session, order: seq<Id>)
      requires Distinct(order)
      requires Lists(order, set id | id in deliveries && deliveries[id].target == s.target && IsPendingState(deliveries[id].state))
      ensures Sofar(s, Now(s), Now(s), order, 0)
    {
      hide Said, Worked, AbortsSaidFor, Distinct, Lists;
      ToldAlready(targets, s.target);
      NoneLostYet();
      NoAborts(s, deliveries, log);
      NothingWorked(s, deliveries, order);
    }

    lemma NextPending(s: Session, a: Snapshot, order: seq<Id>, i: nat)
      requires Sofar(s, a, Now(s), order, i) && i < |order|
      ensures order[i] in deliveries && deliveries[order[i]].target == s.target && IsPendingState(deliveries[order[i]].state)
    {
      hide Said, NoneLost, Told, AbortsSaidFor;
      WorkedFacts(s, a.deliveries, order, i);
    }

    /** One more delivery reconciled, or the end of it. */
    lemma SofarOn(s: Session, a: Snapshot, b: Snapshot, c: Snapshot, order: seq<Id>, i: nat)
      requires Sofar(s, a, b, order, i) && i < |order| && order[i] in b.deliveries && b.deliveries[order[i]].target == s.target
      requires c == Now(s) && OnlyMoves(b.deliveries, c.deliveries, order[i]) && b.log <= c.log && Settled(b.targets, c.targets, b.deliveries[order[i]])
      requires Calm(s) ==> Said(c.log) == Said(b.log) && c.sends == b.sends && c.replies == b.replies
      requires var outcome := ReconcileDelivery(ReconcileQuestion(s.report, s.term, s.incarnation, b.deliveries[order[i]]));
               outcome != ReconcileOutcome.AdoptActivation ==> c.targets == b.targets
      ensures a.log <= c.log && NoneLost(a.deliveries, c.deliveries) && Told(a.targets, c.targets, s.target)
      ensures NothingAdopted(s, a.deliveries) ==> c.targets == a.targets
      ensures var r := b.deliveries[order[i]];
              var outcome := ReconcileDelivery(ReconcileQuestion(s.report, s.term, s.incarnation, r));
              order[i] in c.deliveries && Reconciled(r, c.deliveries[order[i]], outcome)
              && (outcome == ReconcileOutcome.ResolvePrepareWindow ==>
                    s.report.Some? && b.log + [Sent(s.target, AbortFor(s.report.value.window, r))] <= c.log) ==>
                Sofar(s, a, c, order, i + 1)
    {
      hide Said, NoneLost, Told, AbortsSaidFor, Settled, Worked, Reconciled, ReconcileDelivery, OnlyMoves, Calm, AbortFor, WindowFirst;
      var id := order[i];
      WorkedFactsOf(s, a.deliveries, b.deliveries, order, i);
      StillLost(a.deliveries, b.deliveries, id);
      ToldOn(a.targets, b.targets, c.targets, s.target, b.deliveries[id]);
      CalmOutcome(s, b.deliveries[id]);
      var outcome := ReconcileDelivery(ReconcileQuestion(s.report, s.term, s.incarnation, b.deliveries[id]));
      if id in c.deliveries && Reconciled(b.deliveries[id], c.deliveries[id], outcome) { WorkedOn(s, a.deliveries, b.deliveries, order, i); }
      if Blocked(s, b.deliveries[id]) ==> s.report.Some? && b.log + [Sent(s.target, AbortFor(s.report.value.window, b.deliveries[id]))] <= c.log {
        AbortsOn(s, a.deliveries, order[..i], id, a.log, b.log, c.log);
      }
      assert order[..i + 1] == order[..i] + [id];
    }

    lemma Finally(s: Session, a: Snapshot, order: seq<Id>)
      requires Sofar(s, a, Now(s), order, |order|)
      ensures ReportApplied(s, a.deliveries, deliveries) && AbortsSaid(s, a.deliveries, a.log, log)
      ensures a.log <= log && NoneLost(a.deliveries, deliveries) && Told(a.targets, targets, s.target)
      ensures NothingAdopted(s, a.deliveries) ==> targets == a.targets
      ensures Calm(s) ==> Said(log) == Said(a.log) && s.sends == a.sends && s.replies == a.replies
    {
      hide Said, NoneLost, Told, Calm, ReportApplied, AbortsSaid, AbortsSaidFor;
      assert order[..|order|] == order;
      AllWorked(s, a.deliveries, order);
      AllAborts(s, a.deliveries, order, a.log, log);
    }

    /** The first `i` of the pending deliveries are as the report decides, everything else is as it was. */
    ghost predicate Worked(s: Session, before: map<Id, DeliveryRecord>, after: map<Id, DeliveryRecord>, order: seq<Id>, i: nat)
      reads s`report, s`term, s`incarnation
    {
      && i <= |order| && Distinct(order) && after.Keys == before.Keys
      && (forall id :: id in order <==> id in before && before[id].target == s.target && IsPendingState(before[id].state))
      && forall id :: id in before ==>
           if id in order[..i] then Reconciled(before[id], after[id], ReconcileDelivery(ReconcileQuestion(s.report, s.term, s.incarnation, before[id])))
           else after[id] == before[id]
    }

    lemma NothingWorked(s: Session, before: map<Id, DeliveryRecord>, order: seq<Id>)
      requires deliveries == before && Distinct(order)
      requires Lists(order, set id | id in before && before[id].target == s.target && IsPendingState(before[id].state))
      ensures Worked(s, before, deliveries, order, 0)
      ensures forall id :: id in before && before[id].target == s.target && IsPendingState(before[id].state) ==> id in order
    {
    }

    lemma WorkedFacts(s: Session, before: map<Id, DeliveryRecord>, order: seq<Id>, i: nat)
      requires Worked(s, before, deliveries, order, i) && i < |order|
      ensures order[i] in before && order[i] in deliveries && deliveries[order[i]] == before[order[i]]
      ensures before[order[i]].target == s.target && IsPendingState(before[order[i]].state)
    {
      WorkedFactsOf(s, before, deliveries, order, i);
    }

    lemma WorkedFactsOf(s: Session, before: map<Id, DeliveryRecord>, now: map<Id, DeliveryRecord>, order: seq<Id>, i: nat)
      requires Worked(s, before, now, order, i) && i < |order|
      ensures order[i] in before && order[i] in now && now[order[i]] == before[order[i]]
      ensures before[order[i]].target == s.target && IsPendingState(before[order[i]].state)
    {
      NewlyListed(order, i);
      assert order[i] in order;
    }

    lemma WorkedOn(s: Session, before: map<Id, DeliveryRecord>, now: map<Id, DeliveryRecord>, order: seq<Id>, i: nat)
      requires Worked(s, before, now, order, i) && i < |order| && OnlyMoves(now, deliveries, order[i])
      requires order[i] in before && order[i] in deliveries
      requires Reconciled(before[order[i]], deliveries[order[i]], ReconcileDelivery(ReconcileQuestion(s.report, s.term, s.incarnation, before[order[i]])))
      ensures Worked(s, before, deliveries, order, i + 1)
    {
      hide Reconciled, ReconcileDelivery;
      NewlyListed(order, i);
      assert order[..i + 1] == order[..i] + [order[i]];
    }

    lemma AllWorked(s: Session, before: map<Id, DeliveryRecord>, order: seq<Id>)
      requires Worked(s, before, deliveries, order, |order|)
      ensures ReportApplied(s, before, deliveries)
    {
      hide Reconciled, ReconcileDelivery;
      assert order[..|order|] == order;
    }

    static lemma LostKeysOf(before: map<Id, DeliveryRecord>, after: map<Id, DeliveryRecord>)
      requires NoneLost(before, after)
      ensures after.Keys == before.Keys
    {
    }

    /** Each pending delivery of the session's target is as the report decides, and no other delivery changed. */
    static predicate ApplyOne(was: DeliveryRecord, now: DeliveryRecord, target: Id, report: Option<ReconcileReport>, term: u64, incarnation: Bytes) {
      if was.target == target && IsPendingState(was.state)
      then Reconciled(was, now, ReconcileDelivery(ReconcileQuestion(report, term, incarnation, was)))
      else now == was
    }

    ghost predicate ReportApplied(s: Session, before: map<Id, DeliveryRecord>, after: map<Id, DeliveryRecord>)
      reads s`report, s`term, s`incarnation
    {
      after.Keys == before.Keys && forall id :: id in before ==> ApplyOne(before[id], after[id], s.target, s.report, s.term, s.incarnation)
    }

    /** The report tells of an open window that has to be resolved first. */
    static predicate WindowFirst(report: Option<ReconcileReport>, term: u64, incarnation: Bytes) {
      report.Some? && report.value.term == term && report.value.incarnation == incarnation && report.value.window.applyPrepared
    }

    predicate Blocked(s: Session, r: DeliveryRecord)
      reads s`report, s`term, s`incarnation
    {
      r.target == s.target && IsPendingState(r.state) && WindowFirst(s.report, s.term, s.incarnation)
    }

    /** For every delivery an open window holds up, the abort of that window was said. */
    ghost predicate AbortsSaid(s: Session, before: map<Id, DeliveryRecord>, was: seq<Entry>, now: seq<Entry>)
      reads s`report, s`term, s`incarnation
    {
      was <= now && forall id :: id in before && Blocked(s, before[id]) ==> AbortSaid(s, before[id], was, now)
    }

    ghost predicate AbortSaid(s: Session, r: DeliveryRecord, was: seq<Entry>, now: seq<Entry>)
      requires was <= now
      reads s`report
    {
      s.report.Some? && Sent(s.target, AbortFor(s.report.value.window, r)) in now[|was|..]
    }

    ghost predicate AbortsSaidFor(s: Session, before: map<Id, DeliveryRecord>, ids: seq<Id>, was: seq<Entry>, now: seq<Entry>)
      reads s`report, s`term, s`incarnation
    {
      was <= now && forall id :: id in ids && id in before && Blocked(s, before[id]) ==> AbortSaid(s, before[id], was, now)
    }

    lemma NoAborts(s: Session, before: map<Id, DeliveryRecord>, log: seq<Entry>)
      ensures AbortsSaidFor(s, before, [], log, log)
    {
    }

    lemma AllAborts(s: Session, before: map<Id, DeliveryRecord>, ids: seq<Id>, was: seq<Entry>, now: seq<Entry>)
      requires AbortsSaidFor(s, before, ids, was, now)
      requires forall id :: id in before && before[id].target == s.target && IsPendingState(before[id].state) ==> id in ids
      ensures AbortsSaid(s, before, was, now)
    {
    }

    lemma AbortsOn(s: Session, before: map<Id, DeliveryRecord>, ids: seq<Id>, id: Id, was: seq<Entry>, mid: seq<Entry>, now: seq<Entry>)
      requires AbortsSaidFor(s, before, ids, was, mid) && mid <= now && id in before
      requires Blocked(s, before[id]) ==> s.report.Some? && mid + [Sent(s.target, AbortFor(s.report.value.window, before[id]))] <= now
      ensures AbortsSaidFor(s, before, ids + [id], was, now)
    {
      SaidSince(was, mid, now);
    }

    /** The report is the session's own and tells of no open window. */
    predicate Calm(s: Session)
      reads s`report, s`term, s`incarnation
    {
      s.report.None? || (s.report.value.term == s.term && s.report.value.incarnation == s.incarnation && !s.report.value.window.applyPrepared)
    }

    lemma CalmOutcome(s: Session, r: DeliveryRecord)
      ensures var outcome := ReconcileDelivery(ReconcileQuestion(s.report, s.term, s.incarnation, r));
              && (Calm(s) ==> outcome != ReconcileOutcome.ResolvePrepareWindow && outcome != ReconcileOutcome.FenceAuthority)
              && (WindowFirst(s.report, s.term, s.incarnation) ==> outcome == ReconcileOutcome.ResolvePrepareWindow)
    {
    }

    static lemma SaidSince(was: seq<Entry>, mid: seq<Entry>, now: seq<Entry>)
      requires was <= mid <= now
      ensures forall e :: e in mid[|was|..] ==> e in now[|was|..]
      ensures forall e :: mid + [e] <= now ==> e in now[|was|..]
    {
      assert now[|was|..] == mid[|was|..] + now[|mid|..];
      forall e | mid + [e] <= now ensures e in now[|was|..] {
        assert now[|mid|] == (mid + [e])[|mid|] == e;
        assert now[|was|..][|mid| - |was|] == e;
      }
    }

    /** What reconciliation may change in the target's record: the committed pair may follow a delivery, forwards. */
    predicate Told(before: map<Id, TargetRuntime>, after: map<Id, TargetRuntime>, target: Id)
      reads `clock
    {
      && after.Keys == before.Keys && (forall t :: t in before && t != target ==> after[t] == before[t])
      && (target in before ==>
            && after[target] == before[target].(committed := after[target].committed, lastContact := after[target].lastContact)
            && (after[target].lastContact == before[target].lastContact || after[target].lastContact == clock)
            && (after[target].committed == before[target].committed
                || after[target].committed.generation >= before[target].committed.generation))
    }

    lemma ToldAlready(ts: map<Id, TargetRuntime>, target: Id)
      ensures Told(ts, ts, target)
    {
    }

    lemma ToldOn(a: map<Id, TargetRuntime>, b: map<Id, TargetRuntime>, c: map<Id, TargetRuntime>, target: Id, r: DeliveryRecord)
      requires Told(a, b, target) && Settled(b, c, r) && r.target == target
      ensures Told(a, c, target)
    {
    }

    lemma StillLost(before: map<Id, DeliveryRecord>, now: map<Id, DeliveryRecord>, id: Id)
      requires NoneLost(before, now) && OnlyMoves(now, deliveries, id)
      ensures NoneLost(before, deliveries)
    {
    }

    /** The first answer is a report of the session's target, under the session's own authority. */
    static predicate OwnReport(replies: seq<Reply>, target: Id, term: u64, incarnation: Bytes) {
      && replies != [] && replies[0].Report? && replies[0].report.target == target
      && replies[0].report.term == term && replies[0].report.incarnation == incarnation
    }

    /** What is recorded of a target that reported just now. */
    predicate Recorded(t: TargetRuntime, r: ReconcileReport)
      reads `clock
    {
      && t == TargetRuntime(r.klass, r.guarantee, r.term, r.incarnation, t.committed, clock, true, r.window.applyPrepared)
      && (t.committed == r.committed || t.committed.generation >= r.committed.generation)
    }

    /** `reconcile`: fetches the target's report, which counts only under the session's own authority, records what it says
        and applies it to every pending delivery of the target. */
    method Reconcile(s: Session, maxFindings: u32) returns (st: Status)
      requires Valid()
      modifies `deliveries, `log, `targets, s`sends, s`replies, s`report
      ensures Valid() && old(log) <= log && NoneLost(old(deliveries), deliveries)
      ensures st == Done ==>
                && old(s.sends) != [] && old(s.sends)[0] && OwnReport(old(s.replies), s.target, s.term, s.incarnation)
                && s.report == Some(old(s.replies)[0].report) && Knows(s)
                && ReportApplied(s, old(deliveries), deliveries) && AbortsSaid(s, old(deliveries), old(log), log)
                && targets.Keys == old(targets).Keys + {s.target} && Recorded(targets[s.target], s.report.value)
                && (NothingAdopted(s, old(deliveries)) ==> targets[s.target].committed == s.report.value.committed)
                && forall t :: t in old(targets) && t != s.target ==> targets[t] == old(targets)[t]
      ensures old(s.sends) != [] && old(s.sends)[0] && OwnReport(old(s.replies), s.target, s.term, s.incarnation)
              && !old(s.replies)[0].report.window.applyPrepared ==>
                && st == Done && Said(log) == Said(old(log)) + [ReconcileRequest(maxFindings)]
                && s.sends == old(s.sends)[1..] && s.replies == old(s.replies)[1..]
    {
      hide Lawful, Books, ReconcileDelivery, Reconciled, Said, ReportApplied, AbortsSaid, NothingAdopted;
      ghost var was := log;
      var sent := Send(s, ReconcileRequest(maxFindings));
      if !sent { return Stop(ConnectionClosed); }
      var reply := Receive(s);
      if reply.None? { return Stop(ConnectionClosed); }
      if !reply.value.Report? { return Stop(UnexpectedMessage); }
      var report := reply.value.report;
      if report.target != s.target { return Stop(Unauthorized); }
      s.report := Some(report);
      if report.term != s.term || report.incarnation != s.incarnation { return Stop(FencedIncarnation); }
      targets := targets[s.target := TargetRuntime(report.klass, report.guarantee, report.term, report.incarnation,
                                                   report.committed, clock, true, report.window.applyPrepared)];
      ghost var mid := log;
      st := ApplyReconcileReport(s);
      if st == Done { AbortsSince(s, old(deliveries), was, mid, log); }
    }

    lemma AbortsSince(s: Session, before: map<Id, DeliveryRecord>, was: seq<Entry>, mid: seq<Entry>, now: seq<Entry>)
      requires was <= mid && AbortsSaid(s, before, mid, now)
      ensures AbortsSaid(s, before, was, now)
    {
      assert now[|was|..] == now[|was|..|mid|] + now[|mid|..];
    }

    static function KnownOf(ts: map<Id, TargetRuntime>, target: Id): TargetRuntime {
      if target in ts then ts[target] else NEW_TARGET
    }

    /** The target presents a newer boot term than the one known, or the known incarnation of the same one. */
    static predicate Authentic(known: TargetRuntime, term: u64, incarnation: Bytes) {
      known.term == 0 || term > known.term
      || (term == known.term && (known.incarnation == Zeros(16) || incarnation == known.incarnation))
    }

    static predicate Welcomed(replies: seq<Reply>, target: Id, known: TargetRuntime) {
      replies != [] && replies[0].HelloAck? && replies[0].target == target && Authentic(known, replies[0].term, replies[0].incarnation)
    }

    /** A target that presents an older boot term than one already seen, or another incarnation of the same term, is
        fenced; one that presents a newer term has restarted. */
    method Handshake(s: Session, hello: ControllerFence) returns (st: Status)
      requires Valid()
      modifies `deliveries, `log, `targets, s`sends, s`replies, s`term, s`incarnation
      ensures Valid() && old(log) <= log && NoneLost(old(deliveries), deliveries)
      ensures st == Done <==> old(s.sends) != [] && old(s.sends)[0] && Welcomed(old(s.replies), s.target, KnownOf(old(targets), s.target))
      ensures st == Done ==> var ack, known := old(s.replies)[0], KnownOf(old(targets), s.target);
                && s.term == ack.term && s.incarnation == ack.incarnation
                && targets == old(targets)[s.target := known.(klass := ack.klass, guarantee := ack.guarantee, term := ack.term,
                                                                incarnation := ack.incarnation, committed := ack.committed,
                                                                lastContact := clock, contactCurrent := true)]
                && Said(log) == Said(old(log)) + [Hello(hello)] && s.sends == old(s.sends)[1..] && s.replies == old(s.replies)[1..]
                && forall id :: id in deliveries ==>
                     var was := old(deliveries)[id];
                     deliveries[id] == if known.term != 0 && ack.term > known.term && was.target == s.target && was.state == Failed
                                       then Refreshed(was, clock) else was
      ensures st != Done ==> deliveries == old(deliveries) && targets == old(targets)
    {
      hide Lawful, Books, Said, Refreshed;
      var sent := Send(s, Hello(hello));
      if !sent { return Stop(ConnectionClosed); }
      var reply := Receive(s);
      if reply.None? { return Stop(ConnectionClosed); }
      if reply.value.AuthReject? { return Stop(reply.value.code); }
      if !reply.value.HelloAck? { return Stop(UnexpectedMessage); }
      var ack := reply.value;
      if ack.target != s.target { return Stop(Unauthorized); }
      s.term, s.incarnation := ack.term, ack.incarnation;
      var known := if s.target in targets then targets[s.target] else NEW_TARGET;
      if known.term != 0 && ack.term < known.term { return Stop(FencedIncarnation); }
      if known.term != 0 && ack.term == known.term && known.incarnation != Zeros(16) && ack.incarnation != known.incarnation {
        return Stop(FencedIncarnation);
      }
      var restarted := known.term != 0 && ack.term > known.term;
      targets := targets[s.target := known.(klass := ack.klass, guarantee := ack.guarantee, term := ack.term,
                                            incarnation := ack.incarnation, committed := ack.committed,
                                            lastContact := clock, contactCurrent := true)];
      if restarted { RearmAfterRestart(s.target); }
      st := Done;
    }

    // ---- Driving one delivery ----

    /** Evidence that has just arrived. */
    lemma JustProved(before: seq<Entry>, r: DeliveryRecord, reply: Reply)
      requires log == before + [Received(r.target, reply)] && Proves(reply, r)
      ensures Evidenced(log, r)
    {
      assert log[|before|] == Received(r.target, reply);
      assert ProvedAt(log[|before|], r);
    }

    /** `awaitAcknowledgement`: the next frame decides. An acknowledgement counts only if it describes this very
        delivery under the session's authority; if nothing arrives the delivery stays as it is. */
    method AwaitAcknowledgement(s: Session, r: DeliveryRecord) returns (st: Status)
      requires Valid() && Current(r) && s.target == r.target
      modifies `deliveries, `log, `targets, s`replies
      ensures Valid() && old(log) <= log && OnlyMoves(old(deliveries), deliveries, r.id)
      ensures |s.replies| <= |old(s.replies)|
      ensures AckHeard(old(s.replies), GoalOf(r, s.term, s.incarnation)) && r.state == Applied ==>
                st == Done && Finished(old(log), old(targets), r, [])
      ensures old(s.replies) == [] ==> st == Done && deliveries == old(deliveries)
      ensures old(s.replies) != [] ==> var first := old(s.replies)[0];
                && (deliveries[r.id].state == Acknowledged && r.state != Acknowledged ==>
                      AckHeard(old(s.replies), GoalOf(r, s.term, s.incarnation)))
                && (first.DeliveryNack? && st == Done ==> deliveries[r.id] == Charged(r, first.code, clock))
    {
      hide Lawful, Books, Evidenced, OnlyMoves, Said;
      OnlyMovesSelf(deliveries, r.id);
      ghost var before := log;
      var reply := Receive(s);
      if reply.None? { return Done; }
      match reply.value {
        case DeliveryAck(ack) =>
          if ack.deployment != r.id || ack.generation != r.generation || ack.digest != r.digest { return Stop(ProtocolViolation); }
          if ack.term != s.term || ack.incarnation != s.incarnation { return Stop(FencedIncarnation); }
          JustProved(before, r, reply.value);
          ghost var now := deliveries;
          st := AdoptAndAcknowledge(r, ack.evidenceFromReconcile);
          MovedFacts(now, deliveries, r.id);
          assert Said(log) == Said(before) + [];
        case DeliveryNack(_, code) =>
          st := Fail(r, code);
        case _ =>
          st := Stop(UnexpectedMessage);
      }
    }

    method Fail(r: DeliveryRecord, code: Code) returns (st: Status)
      requires Valid() && Current(r)
      modifies `deliveries, `log
      ensures Valid() && old(log) <= log && OnlyMoves(old(deliveries), deliveries, r.id)
      ensures log == old(log) || WroteOne(old(log))
      ensures st == Done ==> deliveries[r.id] == Charged(r, code, clock) && deliveries[r.id].state == Failed
      ensures st == Done ==> deliveries[r.id].failures == r.failures + 1
      ensures st != Done ==> deliveries == old(deliveries)
    {
      hide Lawful, Books, WroteOne, IsLegalTransition, OnlyMoves, SameDelivery, Said;
      OnlyMovesSelf(deliveries, r.id);
      var after: DeliveryRecord;
      st, after := RecordFailure(r, code);
      FailedOnly(old(deliveries), r, after);
    }

    static lemma FailedOnly(ds: map<Id, DeliveryRecord>, r: DeliveryRecord, after: DeliveryRecord)
      requires r.id in ds && ds[r.id] == r
      ensures var changed := r.(state := after.state, failures := after.failures, attempt := after.attempt,
                                lastError := after.lastError, updatedAt := after.updatedAt);
              after == changed ==> OnlyMoves(ds, ds[r.id := after], r.id)
    {
    }

    static function FailureCode(code: Code, fallback: Code): Code {
      if code == Success then fallback else code
    }

    /** The artifact is staged at the target. `more` says that the delivery may go on. */
    method StageArtifact(s: Session, r: DeliveryRecord) returns (st: Status, more: bool)
      requires Valid() && Current(r) && s.target == r.target && r.state == Verified
      modifies `deliveries, `log, s`sends, s`replies
      ensures Valid() && old(log) <= log && OnlyMoves(old(deliveries), deliveries, r.id) && |s.replies| <= |old(s.replies)|
      ensures more ==> st == Done && deliveries[r.id].state == Staged
      ensures more <==> old(s.sends) != [] && old(s.sends)[0] && old(s.replies) != []
                        && old(s.replies)[0].StageAck? && old(s.replies)[0].staged
      ensures more ==> s.replies == old(s.replies)[1..] && s.sends == old(s.sends)[1..]
      ensures more ==> Said(log) == Said(old(log)) + [Stage(r.id, r.generation, r.digest)]
      ensures !more ==> deliveries[r.id].state == r.state || deliveries[r.id].state == Failed
    {
      hide Lawful, Books, OnlyMoves, Said;
      OnlyMovesSelf(deliveries, r.id);
      more := false;
      var sent := Send(s, Stage(r.id, r.generation, r.digest));
      if !sent { return Stop(ConnectionClosed), false; }
      var reply := Receive(s);
      if reply.None? { return Stop(ConnectionClosed), false; }
      match reply.value {
        case DeliveryNack(_, code) =>
          st := Fail(r, code);
        case StageAck(_, staged, code) =>
          if !staged {
            st := Fail(r, FailureCode(code, ApplyFailed));
          } else {
            st := Advance(r, Staged);
            more := true;
          }
        case _ =>
          st := Stop(UnexpectedMessage);
      }
    }

    /** One step along the happy path before activation. */
    method Advance(r: DeliveryRecord, goal: DeliveryState) returns (st: Status)
      requires Valid() && Current(r) && !IsActivationState(goal) && goal != Prepared && goal != Failed
      modifies `deliveries, `log
      ensures Valid() && old(log) <= log && OnlyMoves(old(deliveries), deliveries, r.id)
      ensures st == (if IsLegalTransition(r.state, goal) then Done else Stop(InvalidTransition)) && Said(log) == Said(old(log))
      ensures st == Done ==> deliveries[r.id] == r.(state := goal, lastError := Success, updatedAt := clock)
      ensures st != Done ==> deliveries == old(deliveries)
    {
      hide Lawful, Books, Evidenced, Said;
      var after: DeliveryRecord;
      st, after := RecordTransition(r, goal, Success);
    }

    /** A prepare/commit target opens its window first. */
    method OpenPrepareWindow(s: Session, r: DeliveryRecord) returns (st: Status, more: bool)
      requires Valid() && Current(r) && s.target == r.target
      modifies `deliveries, `log, s`sends, s`replies
      ensures Valid() && old(log) <= log && OnlyMoves(old(deliveries), deliveries, r.id) && |s.replies| <= |old(s.replies)|
      ensures more <==> old(s.sends) != [] && old(s.sends)[0] && old(s.replies) != []
                        && old(s.replies)[0].ApplyPrepareAck? && old(s.replies)[0].prepared
      ensures more ==> st == Done && deliveries[r.id] == r.(updatedAt := clock) && s.replies == old(s.replies)[1..] && s.sends == old(s.sends)[1..]
      ensures more ==> Said(log) == Said(old(log)) + [ApplyPrepare(r.id, r.generation, r.digest)]
      ensures !more ==> deliveries[r.id].state == r.state || deliveries[r.id].state == Failed
    {
      hide Lawful, Books, OnlyMoves, Said;
      OnlyMovesSelf(deliveries, r.id);
      more := false;
      var sent := Send(s, ApplyPrepare(r.id, r.generation, r.digest));
      if !sent { return Stop(ConnectionClosed), false; }
      var reply := Receive(s);
      if reply.None? { return Stop(ConnectionClosed), false; }
      match reply.value {
        case DeliveryNack(_, code) =>
          st := Fail(r, code);
        case ApplyPrepareAck(_, prepared, code) =>
          if !prepared {
            st := Fail(r, FailureCode(code, NotPrepared));
          } else {
            UpsertDelivery(r.(updatedAt := clock));
            TouchedOnly(old(deliveries), r, clock);
            st, more := Done, true;
          }
        case _ =>
          st := Stop(UnexpectedMessage);
      }
    }

    static lemma TouchedOnly(ds: map<Id, DeliveryRecord>, r: DeliveryRecord, clock: i64)
      requires r.id in ds && ds[r.id] == r
      ensures OnlyMoves(ds, ds[r.id := r.(updatedAt := clock)], r.id)
    {
    }

    /** The activation boundary: a commit is believed only when the target names exactly this generation and digest. */
    method CommitActivation(s: Session, r: DeliveryRecord) returns (st: Status)
      requires Valid() && Current(r) && s.target == r.target
      modifies `deliveries, `log, `targets, s`sends, s`replies
      ensures Valid() && old(log) <= log && OnlyMoves(old(deliveries), deliveries, r.id) && |s.replies| <= |old(s.replies)|
      ensures IsActivationState(deliveries[r.id].state) && !IsActivationState(r.state) ==>
                && old(s.replies) != [] && old(s.replies)[0].ApplyCommitAck? && old(s.replies)[0].isCommitted
                && old(s.replies)[0].committedGeneration == r.generation && old(s.replies)[0].committedDigest == r.digest
      ensures old(s.replies) != [] && old(s.sends) != [] && old(s.sends)[0] && st == Done ==> var first := old(s.replies)[0];
                && (first.DeliveryNack? && first.code == StaleGeneration ==> deliveries[r.id].state == Retired)
                && (first.DeliveryNack? && first.code != StaleGeneration ==> deliveries[r.id] == Charged(r, first.code, clock))
                && (first.ApplyCommitAck? && !first.isCommitted ==>
                      deliveries[r.id] == Charged(r, FailureCode(first.code, ApplyFailed), clock))
                && (first.ApplyCommitAck? && first.isCommitted && !(first.committedGeneration == r.generation && first.committedDigest == r.digest) ==>
                      deliveries[r.id] == Charged(r, Conflict, clock))
      ensures var goal := GoalOf(r, s.term, s.incarnation);
              CommitHeard(old(s.replies), goal) && Flows(old(s.sends), 1) && IsPreActivation(r.state) ==>
                st == Done && Finished(old(log), old(targets), r, CommitSaid(goal))
    {
      hide Lawful, Books, Evidenced, OnlyMoves, Said, Settled, AckHeard, Finished, SameDelivery;
      ghost var was, first, goal := log, targets, GoalOf(r, s.term, s.incarnation);
      OnlyMovesSelf(deliveries, r.id);
      var sent := Send(s, ApplyCommit(r.id, r.generation, r.digest));
      if !sent { return Stop(ConnectionClosed); }
      ghost var before := log;
      var reply := Receive(s);
      if reply.None? { return Stop(ConnectionClosed); }
      ghost var mid := log;
      st := TakeCommitAnswer(s, r, reply.value, before);
      if Finished(mid, first, r, []) { FinishedSince(was, mid, first, r, r, CommitSaid(goal), []); }
      assert CommitSaid(goal) + [] == CommitSaid(goal);
    }

    /** The answer to a commit: refused, of another pair, or believed. */
    method TakeCommitAnswer(s: Session, r: DeliveryRecord, reply: Reply, ghost before: seq<Entry>) returns (st: Status)
      requires Valid() && Current(r) && s.target == r.target && log == before + [Received(r.target, reply)]
      modifies `deliveries, `log, `targets, s`replies
      ensures Valid() && old(log) <= log && OnlyMoves(old(deliveries), deliveries, r.id) && |s.replies| <= |old(s.replies)|
      ensures IsActivationState(deliveries[r.id].state) && !IsActivationState(r.state) ==> Confirms(reply, GoalOf(r, s.term, s.incarnation))
      ensures st == Done ==>
                && (reply.DeliveryNack? && reply.code == StaleGeneration ==> deliveries[r.id].state == Retired)
                && (reply.DeliveryNack? && reply.code != StaleGeneration ==> deliveries[r.id] == Charged(r, reply.code, clock))
                && (reply.ApplyCommitAck? && !reply.isCommitted ==> deliveries[r.id] == Charged(r, FailureCode(reply.code, ApplyFailed), clock))
                && (reply.ApplyCommitAck? && reply.isCommitted && !(reply.committedGeneration == r.generation && reply.committedDigest == r.digest) ==>
                      deliveries[r.id] == Charged(r, Conflict, clock))
      ensures var goal := GoalOf(r, s.term, s.incarnation);
              Confirms(reply, goal) && AckHeard(old(s.replies), goal) && IsPreActivation(r.state) ==>
                st == Done && Finished(old(log), old(targets), r, [])
    {
      hide Lawful, Books, Evidenced, OnlyMoves, Said, Settled, AckHeard, Finished;
      OnlyMovesSelf(deliveries, r.id);
      match reply {
        case DeliveryNack(_, code) =>
          if code == StaleGeneration {
            var retired: DeliveryRecord;
            st, retired := RecordRetired(r);
          } else {
            st := Fail(r, code);
          }
        case ApplyCommitAck(_, committed, code, g, h) =>
          if !committed {
            st := Fail(r, FailureCode(code, ApplyFailed));
          } else if g != r.generation || h != r.digest {
            st := Fail(r, Conflict);
          } else {
            JustProved(before, r, reply);
            st := AdoptAndAwait(s, r);
          }
        case _ =>
          st := Stop(UnexpectedMessage);
      }
    }

    /** The activation is recorded, and its acknowledgement awaited. */
    method AdoptAndAwait(s: Session, r: DeliveryRecord) returns (st: Status)
      requires Valid() && Current(r) && s.target == r.target && Evidenced(log, r)
      modifies `deliveries, `log, `targets, s`replies
      ensures Valid() && old(log) <= log && OnlyMoves(old(deliveries), deliveries, r.id) && |s.replies| <= |old(s.replies)|
      ensures AckHeard(old(s.replies), GoalOf(r, s.term, s.incarnation)) && IsPreActivation(r.state) ==>
                st == Done && Finished(old(log), old(targets), r, [])
    {
      hide Lawful, Books, Evidenced, Said, AckHeard, Settled, OnlyMoves;
      ghost var before := deliveries;
      ghost var first := targets;
      var applied: DeliveryRecord;
      st, applied := AdoptActivation(r);
      AdoptedOnly(before, r, applied);
      if st != Done { return; }
      ghost var second := targets;
      ghost var middle := deliveries;
      OwnId(r.id);
      st := AwaitAcknowledgement(s, deliveries[r.id]);
      MovedTwice(before, middle, deliveries, r.id);
      if Settled(second, targets, applied) { SettledTwice(first, second, targets, r, applied); }
    }

    static lemma AdoptedOnly(ds: map<Id, DeliveryRecord>, r: DeliveryRecord, after: DeliveryRecord)
      requires r.id in ds && ds[r.id] == r
      ensures OnlyMoves(ds, ds, r.id)
      ensures SameDelivery(r, after) ==> OnlyMoves(ds, ds[r.id := after], r.id)
    {
    }

    static lemma MovedTwice(a: map<Id, DeliveryRecord>, b: map<Id, DeliveryRecord>, c: map<Id, DeliveryRecord>, id: Id)
      requires OnlyMoves(a, b, id) && OnlyMoves(b, c, id)
      ensures OnlyMoves(a, c, id)
    {
    }

    /** Staged if it still had to be, prepared if the target needs it, then committed with exactly this content. */
    static predicate Activates(replies: seq<Reply>, r: DeliveryRecord) {
      if r.state == Verified then replies != [] && replies[0].StageAck? && replies[0].staged && Commits(replies[1..], r)
      else Commits(replies, r)
    }

    static predicate Commits(replies: seq<Reply>, r: DeliveryRecord) {
      var prepared: nat := if r.effectiveGuarantee == PrepareCommitAbort then 1 else 0;
      && |replies| > prepared
      && (prepared == 1 ==> replies[0].ApplyPrepareAck? && replies[0].prepared)
      && var commit := replies[prepared];
         commit.ApplyCommitAck? && commit.isCommitted && commit.committedGeneration == r.generation && commit.committedDigest == r.digest
    }

    /** `activateDelivery`: only the target's answers, in that order, make a delivery applied. */
    method ActivateDelivery(s: Session, r: DeliveryRecord) returns (st: Status)
      requires Valid() && Current(r) && s.target == r.target
      modifies `deliveries, `log, `targets, s`sends, s`replies
      ensures Valid() && old(log) <= log && OnlyMoves(old(deliveries), deliveries, r.id) && |s.replies| <= |old(s.replies)|
      ensures IsActivationState(deliveries[r.id].state) && !IsActivationState(r.state) ==> Activates(old(s.replies), r)
      ensures var goal := GoalOf(r, s.term, s.incarnation);
              && (r.state == Verified && StageHeard(old(s.replies), goal) && Flows(old(s.sends), |StageSaid(goal)|) ==>
                    st == Done && Finished(old(log), old(targets), r, StageSaid(goal)))
              && (r.state == Staged && WindowHeard(old(s.replies), goal) && Flows(old(s.sends), |WindowSaid(goal)|) ==>
                    st == Done && Finished(old(log), old(targets), r, WindowSaid(goal)))
    {
      hide Lawful, Books, Evidenced, Said, Settled, WindowHeard, Finished, OnlyMoves, WindowSaid;
      ghost var was, before, first, goal := log, deliveries, targets, GoalOf(r, s.term, s.incarnation);
      ghost var sends := s.sends;
      var more := true;
      if r.state == Verified {
        st, more := StageArtifact(s, r);
        MovedFacts(before, deliveries, r.id);
        if !more { return; }
        if Flows(sends, |StageSaid(goal)|) { FlowsOn(sends, |StageSaid(goal)|); }
      }
      MovedFacts(before, deliveries, r.id);
      ghost var mid, middle, x := log, deliveries, deliveries[r.id];
      OwnId(r.id);
      st := CommitInWindow(s, deliveries[r.id]);
      MovedTwice(before, middle, deliveries, r.id);
      if r.state == Verified && Finished(mid, first, x, WindowSaid(goal)) {
        FinishedSince(was, mid, first, r, x, [Stage(r.id, r.generation, r.digest)], WindowSaid(goal));
      }
    }

    /** The part of `activateDelivery` that follows the staging. */
    method CommitInWindow(s: Session, r: DeliveryRecord) returns (st: Status)
      requires Valid() && Current(r) && s.target == r.target
      modifies `deliveries, `log, `targets, s`sends, s`replies
      ensures Valid() && old(log) <= log && OnlyMoves(old(deliveries), deliveries, r.id) && |s.replies| <= |old(s.replies)|
      ensures IsActivationState(deliveries[r.id].state) && !IsActivationState(r.state) ==> Commits(old(s.replies), r)
      ensures var goal := GoalOf(r, s.term, s.incarnation);
              IsPreActivation(r.state) && WindowHeard(old(s.replies), goal) && Flows(old(s.sends), |WindowSaid(goal)|) ==>
                st == Done && Finished(old(log), old(targets), r, WindowSaid(goal))
    {
      hide Lawful, Books, Evidenced, Said, Settled, CommitHeard, Finished, OnlyMoves, CommitSaid;
      ghost var was, before, first, goal := log, deliveries, targets, GoalOf(r, s.term, s.incarnation);
      ghost var sends := s.sends;
      if r.effectiveGuarantee == PrepareCommitAbort {
        var more;
        st, more := OpenPrepareWindow(s, r);
        MovedFacts(before, deliveries, r.id);
        if !more { return; }
        OwnId(r.id);
        if Flows(sends, |WindowSaid(goal)|) { FlowsOn(sends, |WindowSaid(goal)|); }
      }
      MovedFacts(before, deliveries, r.id);
      ghost var mid, middle, x := log, deliveries, deliveries[r.id];
      WindowParts(goal);
      st := CommitActivation(s, deliveries[r.id]);
      MovedTwice(before, middle, deliveries, r.id);
      if Finished(mid, first, x, CommitSaid(goal)) {
        FinishedSince(was, mid, first, r, x, if goal.windowed then [ApplyPrepare(r.id, r.generation, r.digest)] else [], CommitSaid(goal));
      }
    }

    static lemma WindowParts(goal: Goal)
      ensures |CommitSaid(goal)| == 1 && |WindowSaid(goal)| == (if goal.windowed then 2 else 1)
      ensures !goal.windowed ==> WindowSaid(goal) == CommitSaid(goal) && [] + CommitSaid(goal) == CommitSaid(goal)
    {
    }

    static lemma MovedFacts(before: map<Id, DeliveryRecord>, after: map<Id, DeliveryRecord>, id: Id)
      requires (id in before || id in after) && (OnlyMoves(before, after, id) || before == after)
      ensures id in before && id in after && SameDelivery(before[id], after[id]) && OnlyMoves(before, after, id)
    {
    }

    // ---- Offering and transferring ----

    /** Every chunk sent since `before` is a true slice of the artifact, on the delivery's own stream. */
    ghost predicate TrueSlices(before: seq<Entry>, stream: u64, content: Bytes)
      reads `log
    {
      && before <= log
      && forall e :: e in log[|before|..] && e.Sent? && e.message.Chunk? ==> TrueSlice(e.message, stream, content)
    }

    static predicate TrueSlice(m: Message, stream: u64, content: Bytes)
      requires m.Chunk?
    {
      m.stream == stream && m.offset + |m.data| <= |content| && m.data == content[m.offset..m.offset + |m.data|]
    }

    lemma StillTrue(before: seq<Entry>, was: seq<Entry>, stream: u64, content: Bytes, e: Entry)
      requires before <= was && log == was + [e]
      requires forall x :: x in was[|before|..] && x.Sent? && x.message.Chunk? ==> TrueSlice(x.message, stream, content)
      requires e.Sent? && e.message.Chunk? ==> TrueSlice(e.message, stream, content)
      ensures TrueSlices(before, stream, content)
    {
      assert log[|before|..] == was[|before|..] + [e];
    }

    /** The streaming loop. The target's byte count is authoritative: the sender moves to wherever it says, back or
        forward, and gives up when it does not move. `complete` says that every declared byte was accepted. */
    method StreamArtifact(s: Session, r: DeliveryRecord, stream: u64, chunk: nat, start: u64) returns (st: Status, complete: bool)
      requires Valid() && Current(r) && s.target == r.target && r.digest in artifacts && chunk > 0
      requires |artifacts[r.digest]| < U64_LIMIT
      modifies `deliveries, `log, s`sends, s`replies
      ensures Valid() && old(log) <= log && OnlyMoves(old(deliveries), deliveries, r.id) && |s.replies| <= |old(s.replies)|
      ensures TrueSlices(old(log), stream, artifacts[r.digest])
      ensures complete ==> st == Done && deliveries == old(deliveries)
      ensures complete && start < r.sizeBytes ==> |s.replies| < |old(s.replies)|
      ensures Smooth(old(s.replies), old(s.sends), GoalOf(r, s.term, s.incarnation), stream, artifacts[r.digest], chunk, start) ==>
                var goal := GoalOf(r, s.term, s.incarnation);
                && complete && VerdictHeard(s.replies, goal) && Flows(s.sends, |VerdictSaid(goal)|)
                && Said(log) + VerdictSaid(goal) == Said(old(log)) + ChunksFollow(goal, stream, artifacts[r.digest], chunk, start, old(s.replies))
    {
      hide Lawful, Books, OnlyMoves, Said, Smooth;
      OnlyMovesSelf(deliveries, r.id);
      var content := artifacts[r.digest];
      ghost var goal := GoalOf(r, s.term, s.incarnation);
      ghost var smooth := Smooth(s.replies, s.sends, goal, stream, content, chunk, start);
      var offset: u64 := start;
      complete := false;
      while offset < r.sizeBytes
        invariant Valid() && old(log) <= log && deliveries == old(deliveries) && artifacts == old(artifacts)
        invariant TrueSlices(old(log), stream, content) && |s.replies| <= |old(s.replies)|
        invariant offset == start || |s.replies| < |old(s.replies)|
        invariant !complete
        invariant smooth ==> Smooth(s.replies, s.sends, goal, stream, content, chunk, offset)
        invariant smooth ==> Said(log) + Remaining(goal, stream, content, chunk, offset, s.replies)
                               == Said(old(log)) + Remaining(goal, stream, content, chunk, start, old(s.replies))
        decreases |s.replies|
      {
        if smooth { SmoothOn(s.replies, s.sends, goal, stream, content, chunk, offset); }
        ghost var said, heard := Said(log), s.replies;
        if offset >= |content| {
          st := FailQuietly(r, IntegrityFailure, old(log), stream, content);
          return;
        }
        var data := content[offset..Min(offset + chunk, |content|)];
        ghost var was := log;
        var sent := Send(s, Chunk(stream, offset, data));
        if !sent { return Stop(ConnectionClosed), false; }
        StillTrue(old(log), was, stream, content, Sent(s.target, Chunk(stream, offset, data)));
        was := log;
        var reply := Receive(s);
        if reply.None? { return Stop(ConnectionClosed), false; }
        StillTrue(old(log), was, stream, content, Received(s.target, reply.value));
        match reply.value {
          case DeliveryNack(_, code) =>
            st := FailQuietly(r, code, old(log), stream, content);
            return;
          case ChunkAck(named, received, code) =>
            if named != stream { return Stop(ProtocolViolation), false; }
            if code != ReorderedFrame && code != Success {
              st := FailQuietly(r, code, old(log), stream, content);
              return;
            }
            if received == offset {
              st := FailQuietly(r, ProtocolViolation, old(log), stream, content);
              return;
            }
            if smooth { SaidOn(said, goal, stream, content, chunk, offset, heard); }
            offset := received;
          case _ =>
            return Stop(UnexpectedMessage), false;
        }
      }
      if smooth { SmoothEnd(s.replies, s.sends, goal, stream, content, chunk, offset); }
      st, complete := Done, true;
    }

    /** The chunks from `offset` on are accepted one by one, and the conversation goes on as it should. */
    static predicate Smooth(replies: seq<Reply>, sends: seq<bool>, goal: Goal, stream: u64, content: Bytes, chunk: nat, offset: u64) {
      && chunk > 0 && |content| == goal.sizeBytes && ChunksHeard(replies, goal, stream, chunk, offset)
      && Flows(sends, |ChunksFollow(goal, stream, content, chunk, offset, replies)|)
    }

    static function Remaining(goal: Goal, stream: u64, content: Bytes, chunk: nat, offset: u64, replies: seq<Reply>): seq<Message> {
      if |content| == goal.sizeBytes then ChunksFollow(goal, stream, content, chunk, offset, replies) else []
    }

    static lemma SmoothOn(replies: seq<Reply>, sends: seq<bool>, goal: Goal, stream: u64, content: Bytes, chunk: nat, offset: u64)
      requires Smooth(replies, sends, goal, stream, content, chunk, offset) && offset < goal.sizeBytes
      ensures && |content| == goal.sizeBytes && replies != [] && replies[0].ChunkAck? && replies[0].stream == stream
              && (replies[0].code == Success || replies[0].code == ReorderedFrame) && replies[0].bytesReceived != offset
              && sends != [] && sends[0] && Smooth(replies[1..], sends[1..], goal, stream, content, chunk, replies[0].bytesReceived)
    {
      FlowsOn(sends, |ChunksFollow(goal, stream, content, chunk, offset, replies)|);
    }

    static lemma SaidOn(said: seq<Message>, goal: Goal, stream: u64, content: Bytes, chunk: nat, offset: u64, replies: seq<Reply>)
      requires chunk > 0 && |content| == goal.sizeBytes && offset < goal.sizeBytes && replies != [] && replies[0].ChunkAck?
      ensures said + [Chunk(stream, offset, content[offset..NextOffset(offset, chunk, goal.sizeBytes)])]
              + Remaining(goal, stream, content, chunk, replies[0].bytesReceived, replies[1..])
              == said + Remaining(goal, stream, content, chunk, offset, replies)
    {
    }

    static lemma SmoothEnd(replies: seq<Reply>, sends: seq<bool>, goal: Goal, stream: u64, content: Bytes, chunk: nat, offset: u64)
      requires Smooth(replies, sends, goal, stream, content, chunk, offset) && offset >= goal.sizeBytes
      ensures VerdictHeard(replies, goal) && Flows(sends, |VerdictSaid(goal)|)
      ensures Remaining(goal, stream, content, chunk, offset, replies) == VerdictSaid(goal) && |content| == goal.sizeBytes
    {
    }

    method FailQuietly(r: DeliveryRecord, code: Code, ghost before: seq<Entry>, ghost stream: u64, ghost content: Bytes) returns (st: Status)
      requires Valid() && Current(r) && TrueSlices(before, stream, content)
      modifies `deliveries, `log
      ensures Valid() && old(log) <= log && OnlyMoves(old(deliveries), deliveries, r.id) && TrueSlices(before, stream, content)
    {
      hide Lawful, Books, OnlyMoves, Said;
      st := Fail(r, code);
      if log != old(log) {
        ghost var e := log[|old(log)|];
        assert log == old(log) + [e];
        StillTrue(before, old(log), stream, content, e);
      }
    }

    /** The completion is declared, and the target's verdict decides. */
    method CompleteTransfer(s: Session, r: DeliveryRecord) returns (st: Status)
      requires Valid() && Current(r) && s.target == r.target
      modifies `deliveries, `log, `targets, s`sends, s`replies
      ensures Valid() && old(log) <= log && OnlyMoves(old(deliveries), deliveries, r.id) && |s.replies| <= |old(s.replies)|
      ensures var goal := GoalOf(r, s.term, s.incarnation);
              (r.state == Offered || r.state == Transferred) && VerdictHeard(old(s.replies), goal) && Flows(old(s.sends), |VerdictSaid(goal)|) ==>
                st == Done && Finished(old(log), old(targets), r, VerdictSaid(goal))
    {
      hide Lawful, Books, Evidenced, Said, VerdictHeard, StageSaid, Finished, OnlyMoves, Settled, SameDelivery;
      ghost var was, first, goal := log, targets, GoalOf(r, s.term, s.incarnation);
      if Flows(s.sends, |VerdictSaid(goal)|) { FlowsOn(s.sends, |VerdictSaid(goal)|); }
      OnlyMovesSelf(deliveries, r.id);
      var sent := Send(s, TransferComplete(r.id, r.digest, r.sizeBytes));
      if !sent { return Stop(ConnectionClosed); }
      ghost var mid := log;
      st := FollowCompletion(s, r);
      if Finished(mid, first, r, StageSaid(goal)) {
        FinishedSince(was, mid, first, r, r, [TransferComplete(r.id, r.digest, r.sizeBytes)], StageSaid(goal));
      }
    }

    /** The completion is on its way. */
    method FollowCompletion(s: Session, r: DeliveryRecord) returns (st: Status)
      requires Valid() && Current(r) && s.target == r.target
      modifies `deliveries, `log, `targets, s`sends, s`replies
      ensures Valid() && old(log) <= log && OnlyMoves(old(deliveries), deliveries, r.id) && |s.replies| <= |old(s.replies)|
      ensures var goal := GoalOf(r, s.term, s.incarnation);
              (r.state == Offered || r.state == Transferred) && VerdictHeard(old(s.replies), goal) && Flows(old(s.sends), |StageSaid(goal)|) ==>
                st == Done && Finished(old(log), old(targets), r, StageSaid(goal))
    {
      hide Lawful, Books, Evidenced, Said, VerdictHeard, StageSaid, Finished, OnlyMoves, Settled, SameDelivery, Flows;
      ghost var was, before, first, goal := log, deliveries, targets, GoalOf(r, s.term, s.incarnation);
      OnlyMovesSelf(deliveries, r.id);
      if r.state == Offered || r.state == Prepared {
        st := Advance(r, Transferred);
        if st != Done { return; }
      }
      MovedFacts(before, deliveries, r.id);
      ghost var mid, middle, x := log, deliveries, deliveries[r.id];
      SameStream(s, r, x, 0, 0, []);
      st := AwaitVerdict(s, deliveries[r.id]);
      MovedTwice(before, middle, deliveries, r.id);
      assert [] + StageSaid(goal) == StageSaid(goal) && Said(was) == Said(was) + [];
      if Finished(mid, first, x, StageSaid(goal)) { FinishedSince(was, mid, first, r, x, [], StageSaid(goal)); }
    }

    /** The delivery goes on only when the target says that what it received has the declared digest. */
    method AwaitVerdict(s: Session, r: DeliveryRecord) returns (st: Status)
      requires Valid() && Current(r) && s.target == r.target
      modifies `deliveries, `log, `targets, s`sends, s`replies
      ensures Valid() && old(log) <= log && OnlyMoves(old(deliveries), deliveries, r.id) && |s.replies| <= |old(s.replies)|
      ensures old(s.replies) == [] ==> st == Stop(ConnectionClosed) && deliveries == old(deliveries)
      ensures old(s.replies) != [] ==> var first := old(s.replies)[0];
                && (!(first.TransferResult? && first.verified) ==>
                      s.sends == old(s.sends) && (deliveries[r.id].state == r.state || deliveries[r.id].state == Failed))
                && (first.TransferResult? && !first.verified && st == Done ==>
                      deliveries[r.id] == Charged(r, FailureCode(first.code, DigestMismatch), clock))
                && (!first.TransferResult? && !first.DeliveryNack? ==> st == Stop(UnexpectedMessage) && deliveries == old(deliveries))
      ensures var goal := GoalOf(r, s.term, s.incarnation);
              r.state == Transferred && VerdictHeard(old(s.replies), goal) && Flows(old(s.sends), |StageSaid(goal)|) ==>
                st == Done && Finished(old(log), old(targets), r, StageSaid(goal))
    {
      hide Lawful, Books, Evidenced, Said, StageHeard, StageSaid, Settled, OnlyMoves, Finished, SameDelivery;
      OnlyMovesSelf(deliveries, r.id);
      ghost var was, first, goal := log, targets, GoalOf(r, s.term, s.incarnation);
      var reply := Receive(s);
      if reply.None? { return Stop(ConnectionClosed); }
      ghost var mid := log;
      st := TakeVerdict(s, r, reply.value);
      assert [] + StageSaid(goal) == StageSaid(goal) && Said(mid) == Said(was) + [];
      if Finished(mid, first, r, StageSaid(goal)) { FinishedSince(was, mid, first, r, r, [], StageSaid(goal)); }
    }

    /** The verdict on the transfer: refused, failed, or verified. */
    method TakeVerdict(s: Session, r: DeliveryRecord, reply: Reply) returns (st: Status)
      requires Valid() && Current(r) && s.target == r.target
      modifies `deliveries, `log, `targets, s`sends, s`replies
      ensures Valid() && old(log) <= log && OnlyMoves(old(deliveries), deliveries, r.id) && |s.replies| <= |old(s.replies)|
      ensures !(reply.TransferResult? && reply.verified) ==>
                s.sends == old(s.sends) && (deliveries[r.id].state == r.state || deliveries[r.id].state == Failed)
      ensures reply.TransferResult? && !reply.verified && st == Done ==> deliveries[r.id] == Charged(r, FailureCode(reply.code, DigestMismatch), clock)
      ensures !reply.TransferResult? && !reply.DeliveryNack? ==> st == Stop(UnexpectedMessage) && deliveries == old(deliveries)
      ensures var goal := GoalOf(r, s.term, s.incarnation);
              r.state == Transferred && VerdictHeard([reply] + old(s.replies), goal) && Flows(old(s.sends), |StageSaid(goal)|) ==>
                st == Done && Finished(old(log), old(targets), r, StageSaid(goal))
    {
      hide Lawful, Books, Evidenced, Said, StageHeard, StageSaid, Settled, OnlyMoves, Finished;
      OnlyMovesSelf(deliveries, r.id);
      assert ([reply] + s.replies)[1..] == s.replies;
      match reply {
        case DeliveryNack(_, code) =>
          st := Fail(r, code);
          MovedFacts(old(deliveries), deliveries, r.id);
        case TransferResult(_, verified, _, code) =>
          if !verified {
            st := Fail(r, FailureCode(code, DigestMismatch));
            MovedFacts(old(deliveries), deliveries, r.id);
          } else {
            st := ActivateVerified(s, r);
          }
        case _ =>
          st := Stop(UnexpectedMessage);
      }
    }

    /** A verified transfer goes on to be activated. */
    method ActivateVerified(s: Session, r: DeliveryRecord) returns (st: Status)
      requires Valid() && Current(r) && s.target == r.target
      modifies `deliveries, `log, `targets, s`sends, s`replies
      ensures Valid() && old(log) <= log && OnlyMoves(old(deliveries), deliveries, r.id) && |s.replies| <= |old(s.replies)|
      ensures var goal := GoalOf(r, s.term, s.incarnation);
              r.state == Transferred && StageHeard(old(s.replies), goal) && Flows(old(s.sends), |StageSaid(goal)|) ==>
                st == Done && Finished(old(log), old(targets), r, StageSaid(goal))
    {
      hide Lawful, Books, Evidenced, Said, StageHeard, StageSaid, Settled, OnlyMoves, Finished;
      ghost var was, before, first, goal := log, deliveries, targets, GoalOf(r, s.term, s.incarnation);
      OnlyMovesSelf(deliveries, r.id);
      st := Advance(r, Verified);
      if st != Done { return; }
      MovedFacts(before, deliveries, r.id);
      ghost var mid, middle, x := log, deliveries, deliveries[r.id];
      OwnId(r.id);
      st := ActivateDelivery(s, deliveries[r.id]);
      MovedTwice(before, middle, deliveries, r.id);
      assert [] + StageSaid(goal) == StageSaid(goal) && Said(mid) == Said(was) + [];
      if Finished(mid, first, x, StageSaid(goal)) { FinishedSince(was, mid, first, r, x, [], StageSaid(goal)); }
    }

    static function AfterRefusal(code: Code): DeliveryState {
      if IsTerminalRejection(code) || code == GenerationConflict then Rejected
      else if code == StaleGeneration then Retired else Failed
    }

    /** What the target refuses for good, what it has moved past, and what is worth another attempt. */
    method OfferRefused(r: DeliveryRecord, code: Code) returns (st: Status)
      requires Valid() && Current(r)
      modifies `deliveries, `log
      ensures Valid() && old(log) <= log && OnlyMoves(old(deliveries), deliveries, r.id)
      ensures st == Done ==> deliveries[r.id].state == AfterRefusal(code)
    {
      hide Lawful, Books, Said;
      var after: DeliveryRecord;
      if IsTerminalRejection(code) {
        st, after := RecordRejected(r, code);
      } else if code == StaleGeneration {
        st, after := RecordRetired(r);
      } else if code == GenerationConflict {
        st, after := RecordRejected(r, code);
      } else {
        st := Fail(r, code);
      }
    }

    /** `offerAndTransfer`. */
    method OfferAndTransfer(s: Session, r: DeliveryRecord) returns (st: Status)
      requires Valid() && Current(r) && s.target == r.target && ArtifactsFit()
      modifies `deliveries, `log, `targets, s`sends, s`replies
      ensures Valid() && old(log) <= log && OnlyMoves(old(deliveries), deliveries, r.id) && |s.replies| <= |old(s.replies)|
      ensures Index(r.state) <= 2 && old(Uneventful(s, r)) ==> st == Done && Finished(old(log), old(targets), r, old(Conversation(s, r)))
    {
      hide Lawful, Books, Evidenced, Derived, Said, OnlyMoves, Settled, Finished, OfferHeard, StreamedIn;
      ghost var was, first := log, targets;
      ghost var rest := Streamed(s, r, names.stream(r.id, r.attempt), Resumes(s.replies), Later(s.replies));
      if Index(r.state) <= 2 && Uneventful(s, r) { FlowsOn(s.sends, 1 + |rest|); }
      OnlyMovesSelf(deliveries, r.id);
      var m := OfferFor(s, r);
      var sent := Send(s, Prepare(m));
      if !sent { return Stop(ConnectionClosed); }
      ghost var mid := log;
      st := FollowOffer(s, r, m.stream);
      if Finished(mid, first, r, rest) { FinishedSince(was, mid, first, r, r, [Prepare(m)], rest); }
    }

    /** The offer is on its way. */
    method FollowOffer(s: Session, r: DeliveryRecord, stream: u64) returns (st: Status)
      requires Valid() && Current(r) && s.target == r.target && ArtifactsFit()
      modifies `deliveries, `log, `targets, s`sends, s`replies
      ensures Valid() && old(log) <= log && OnlyMoves(old(deliveries), deliveries, r.id) && |s.replies| <= |old(s.replies)|
      ensures Index(r.state) <= 2 && Complete(r) && OfferHeard(old(s.replies), GoalOf(r, s.term, s.incarnation), stream, ChunkSize(s))
              && Flows(old(s.sends), |Streamed(s, r, stream, Resumes(old(s.replies)), Later(old(s.replies)))|) ==>
                st == Done && Finished(old(log), old(targets), r, Streamed(s, r, stream, Resumes(old(s.replies)), Later(old(s.replies))))
    {
      hide Lawful, Books, Evidenced, Derived, Said, OnlyMoves, Settled, Finished, OfferHeard, Streamed, Flows, SameDelivery;
      ghost var was, before, first := log, deliveries, targets;
      ghost var rest := Streamed(s, r, stream, Resumes(s.replies), Later(s.replies));
      OnlyMovesSelf(deliveries, r.id);
      if r.state == Prepared {
        st := Advance(r, Offered);
        if st != Done { return; }
      }
      MovedFacts(before, deliveries, r.id);
      ghost var mid, middle, x := log, deliveries, deliveries[r.id];
      SameStream(s, r, x, stream, Resumes(s.replies), Later(s.replies));
      st := AwaitOfferAnswer(s, deliveries[r.id], stream);
      MovedTwice(before, middle, deliveries, r.id);
      assert [] + rest == rest && Said(was) == Said(was) + [];
      if Finished(mid, first, x, rest) { FinishedSince(was, mid, first, r, x, [], rest); }
    }

    lemma SameStream(s: Session, r: DeliveryRecord, x: DeliveryRecord, stream: u64, resumeFrom: u64, later: seq<Reply>)
      requires SameDelivery(r, x)
      ensures Streamed(s, x, stream, resumeFrom, later) == Streamed(s, r, stream, resumeFrom, later)
      ensures GoalOf(x, s.term, s.incarnation) == GoalOf(r, s.term, s.incarnation)
      ensures x.id == r.id && x.target == r.target && x.generation == r.generation && x.digest == r.digest && x.sizeBytes == r.sizeBytes && x.artifact == r.artifact
    {
    }

    predicate ArtifactsFit()
      reads `artifacts
    {
      forall d :: d in artifacts ==> |artifacts[d]| < U64_LIMIT
    }

    /** The report counts that many bytes of exactly this delivery's content. */
    static predicate ReportsBytes(transfers: seq<TransferStatus>, r: DeliveryRecord, bytes: u64) {
      exists t :: t in transfers && t.deployment == r.id && t.generation == r.generation && t.digest == r.digest && t.bytesReceived == bytes
    }

    /** Half of what the peer takes, at most what the policy sends, and never nothing. */
    function ChunkSize(s: Session): (n: u32)
      ensures 0 < n && (n <= chunkBytes || n == 1024)
    {
      var half := s.peerMaxPayload / 2;
      var n := if chunkBytes < half then chunkBytes else half;
      if n == 0 then 1024 else n
    }

    /** The offer as a value; what was reported as received is a hint to the target. */
    function OfferOf(s: Session, r: DeliveryRecord): PrepareMessage
      reads s`report
    {
      OfferIn(r, ChunkSize(s), s.report)
    }

    function OfferIn(r: DeliveryRecord, chunk: u32, report: Option<ReconcileReport>): PrepareMessage {
      PrepareMessage(r.id, r.key, r.artifact, r.generation, r.digest, r.sizeBytes, r.schema, r.schemaVersion,
                     r.requirement, r.effectiveGuarantee, epoch, r.attempt, names.stream(r.id, r.attempt), chunk,
                     ReportedBytes(report, r))
    }

    static function ReportedBytes(report: Option<ReconcileReport>, r: DeliveryRecord): u64 {
      if report.None? then 0
      else
        var status := FindTransferStatus(report.value.transfers, r.id);
        if status.Some? && status.value.generation == r.generation && status.value.digest == r.digest then status.value.bytesReceived else 0
    }

    method OfferFor(s: Session, r: DeliveryRecord) returns (m: PrepareMessage)
      ensures m.deployment == r.id && m.key == r.key && m.artifact == r.artifact && m.generation == r.generation
      ensures m.digest == r.digest && m.sizeBytes == r.sizeBytes && m.requirement == r.requirement
      ensures m.attempt == r.attempt && m.authorityEpoch == epoch && m.chunkBytes == ChunkSize(s) && m.stream == names.stream(r.id, r.attempt)
      ensures m == OfferOf(s, r)
      ensures m.resumeFromOffset > 0 ==> s.report.Some? && ReportsBytes(s.report.value.transfers, r, m.resumeFromOffset)
    {
      var resume: u64 := 0;
      if s.report.Some? {
        var status := FindTransferStatus(s.report.value.transfers, r.id);
        if status.Some? && status.value.generation == r.generation && status.value.digest == r.digest {
          resume := status.value.bytesReceived;
        }
      }
      m := PrepareMessage(r.id, r.key, r.artifact, r.generation, r.digest, r.sizeBytes, r.schema, r.schemaVersion,
                          r.requirement, r.effectiveGuarantee, epoch, r.attempt, names.stream(r.id, r.attempt),
                          ChunkSize(s), resume);
    }

    /** Only an answer for this delivery and this stream counts, and a suppressed duplicate is an activation. */
    method AwaitOfferAnswer(s: Session, r: DeliveryRecord, stream: u64) returns (st: Status)
      requires Valid() && Current(r) && s.target == r.target && ArtifactsFit()
      modifies `deliveries, `log, `targets, s`sends, s`replies
      ensures Valid() && old(log) <= log && OnlyMoves(old(deliveries), deliveries, r.id) && |s.replies| <= |old(s.replies)|
      ensures old(s.replies) == [] ==> st == Stop(ConnectionClosed) && deliveries == old(deliveries)
      ensures old(s.replies) != [] ==> var first := old(s.replies)[0];
                && (!first.PrepareAck? ==> s.sends == old(s.sends))
                && (first.PrepareAck? && (first.deployment != r.id || first.stream != stream) ==>
                      st == Stop(ProtocolViolation) && deliveries == old(deliveries) && s.sends == old(s.sends))
                && (first.PrepareAck? && first.duplicateSuppressed && st == Done ==>
                      deliveries[r.id].state == Acknowledged && s.sends == old(s.sends))
                && (first.PrepareReject? && st == Done ==> deliveries[r.id].state == AfterRefusal(first.code))
                && (first.DeliveryNack? && st == Done ==> deliveries[r.id] == Charged(r, first.code, clock))
      ensures (r.state == Offered || r.state == Transferred) && Complete(r)
              && OfferHeard(old(s.replies), GoalOf(r, s.term, s.incarnation), stream, ChunkSize(s))
              && Flows(old(s.sends), |Streamed(s, r, stream, Resumes(old(s.replies)), Later(old(s.replies)))|) ==>
                st == Done && Finished(old(log), old(targets), r, Streamed(s, r, stream, Resumes(old(s.replies)), Later(old(s.replies))))
    {
      hide Lawful, Books, Evidenced, OnlyMoves, Said, Settled, ChunksHeard, ChunksFollow, Flows;
      OnlyMovesSelf(deliveries, r.id);
      ghost var before := log;
      var reply := Receive(s);
      if reply.None? { return Stop(ConnectionClosed); }
      match reply.value {
        case PrepareAck(deployment, named, resumeFrom, duplicate, _, _, _) =>
          if deployment != r.id || named != stream { return Stop(ProtocolViolation); }
          if duplicate {
            JustProved(before, r, reply.value);
            st := AdoptAndAcknowledge(r, false);
          } else {
            st := Transfer(s, r, stream, resumeFrom);
          }
        case PrepareReject(_, code, _) =>
          st := OfferRefused(r, code);
        case DeliveryNack(_, code) =>
          st := Fail(r, code);
        case _ =>
          st := Stop(UnexpectedMessage);
      }
    }

    method Transfer(s: Session, r: DeliveryRecord, stream: u64, resumeFrom: u64) returns (st: Status)
      requires Valid() && Current(r) && s.target == r.target && ArtifactsFit()
      modifies `deliveries, `log, `targets, s`sends, s`replies
      ensures Valid() && old(log) <= log && OnlyMoves(old(deliveries), deliveries, r.id) && |s.replies| <= |old(s.replies)|
      ensures old(Flowing(s, r, stream, resumeFrom)) && (r.state == Offered || r.state == Transferred) ==>
                st == Done && Finished(old(log), old(targets), r, old(Streamed(s, r, stream, resumeFrom, s.replies)))
    {
      hide Lawful, Books, Evidenced, TrueSlices, OnlyMoves, Said, VerdictHeard, VerdictSaid, Settled;
      OnlyMovesSelf(deliveries, r.id);
      if r.digest !in artifacts {
        st := Fail(r, ArtifactUnavailable);
        return;
      }
      ghost var flowing, said := Flowing(s, r, stream, resumeFrom), Streamed(s, r, stream, resumeFrom, s.replies);
      ghost var was, goal := Said(log), GoalOf(r, s.term, s.incarnation);
      var complete;
      st, complete := StreamArtifact(s, r, stream, ChunkSize(s), resumeFrom);
      assert flowing ==> Said(log) + VerdictSaid(goal) == was + said;
      if complete { st := CompleteTransfer(s, r); }
    }

    // ---- A session without incident ----

    /** The stored artifact is the whole of what the delivery announces. */
    predicate Complete(r: DeliveryRecord)
      reads `artifacts
    {
      r.digest in artifacts && |artifacts[r.digest]| == r.sizeBytes
    }

    /** From an accepted offer on, the target answers as it should and nothing is lost. */
    predicate Flowing(s: Session, r: DeliveryRecord, stream: u64, resumeFrom: u64)
      reads `artifacts, s`sends, s`replies, s`term, s`incarnation
    {
      Complete(r) && Smooth(s.replies, s.sends, GoalOf(r, s.term, s.incarnation), stream, artifacts[r.digest], ChunkSize(s), resumeFrom)
    }

    function Streamed(s: Session, r: DeliveryRecord, stream: u64, resumeFrom: u64, later: seq<Reply>): seq<Message>
      reads `artifacts, s`term, s`incarnation
    {
      StreamedIn(r, s.term, s.incarnation, ChunkSize(s), stream, resumeFrom, later)
    }

    function StreamedIn(r: DeliveryRecord, term: u64, incarnation: Bytes, chunk: nat, stream: u64, resumeFrom: u64, later: seq<Reply>): seq<Message>
      reads `artifacts
    {
      if Complete(r) then ChunksFollow(GoalOf(r, term, incarnation), stream, artifacts[r.digest], chunk, resumeFrom, later) else []
    }

    /** Where the target wants the content from, as its answer to the offer says. */
    static function Resumes(replies: seq<Reply>): u64 {
      if replies != [] && replies[0].PrepareAck? then replies[0].resumeFrom else 0
    }

    static function Later(replies: seq<Reply>): seq<Reply> {
      if replies != [] then replies[1..] else []
    }

    /** The whole conversation about `r` goes as it should, wherever the delivery stands. */
    predicate Uneventful(s: Session, r: DeliveryRecord)
      reads `artifacts, s`sends, s`replies, s`term, s`incarnation
    {
      UneventfulIn(r, s.replies, s.sends, s.term, s.incarnation, ChunkSize(s))
    }

    predicate UneventfulIn(r: DeliveryRecord, replies: seq<Reply>, sends: seq<bool>, term: u64, incarnation: Bytes, chunk: nat)
      reads `artifacts
    {
      var goal, stream := GoalOf(r, term, incarnation), names.stream(r.id, r.attempt);
      if r.state == Verified then StageHeard(replies, goal) && Flows(sends, |StageSaid(goal)|)
      else if r.state == Staged then WindowHeard(replies, goal) && Flows(sends, |WindowSaid(goal)|)
      else
        && Complete(r) && OfferHeard(replies, goal, stream, chunk)
        && Flows(sends, 1 + |StreamedIn(r, term, incarnation, chunk, stream, Resumes(replies), Later(replies))|)
    }

    /** What the distributor says in it. */
    function Conversation(s: Session, r: DeliveryRecord): seq<Message>
      reads `artifacts, s`replies, s`term, s`incarnation, s`report
    {
      ConversationIn(r, s.replies, s.term, s.incarnation, ChunkSize(s), s.report)
    }

    function ConversationIn(r: DeliveryRecord, replies: seq<Reply>, term: u64, incarnation: Bytes, chunk: u32, report: Option<ReconcileReport>): seq<Message>
      reads `artifacts
    {
      var goal := GoalOf(r, term, incarnation);
      if r.state == Verified then StageSaid(goal)
      else if r.state == Staged then WindowSaid(goal)
      else [Prepare(OfferIn(r, chunk, report))] + StreamedIn(r, term, incarnation, chunk, names.stream(r.id, r.attempt), Resumes(replies), Later(replies))
    }

    // ---- Deciding and driving ----

    predicate Superseded(r: DeliveryRecord)
      reads `deliveries
    {
      SupersededIn(deliveries, r)
    }

    static predicate SupersededIn(ds: map<Id, DeliveryRecord>, r: DeliveryRecord) {
      exists id :: id in ds && ds[id].target == r.target && ds[id].key == r.key && ds[id].generation > r.generation
    }

    predicate HeldByAFailedTwin(r: DeliveryRecord)
      reads `deliveries
    {
      exists id :: id in deliveries && id != r.id && deliveries[id].target == r.target && deliveries[id].key == r.key
                   && deliveries[id].generation == r.generation && deliveries[id].digest == r.digest && deliveries[id].state == Failed
    }

    predicate IsFresh(t: TargetRuntime)
      reads `clock
    {
      t.contactCurrent && t.lastContact > 0 && 0 <= clock - t.lastContact <= policy.livenessFreshness
    }

    /** `buildDecisionInput`. */
    function DecisionFor(r: DeliveryRecord): DecisionInput
      reads `deliveries, `targets, `artifacts, `clock
    {
      var known := r.target in targets;
      var t := if known then targets[r.target] else NEW_TARGET;
      DecisionInput(r.state, r.failures, t.guarantee, r.requirement, r.generation, t.committed.generation,
                    known && IsFresh(t), known && !t.contactCurrent, t.applyPrepared, r.digest in artifacts,
                    HeldByAFailedTwin(r), Superseded(r), clock - r.updatedAt)
    }

    /** The retry edge is taken here and nowhere else, and only when the policy says that budget is left. */
    method ReenterPipeline(r: DeliveryRecord) returns (st: Status)
      requires Valid() && Current(r) && (r.state == Failed ==> r.failures < policy.maxAttempts)
      modifies `deliveries, `log
      ensures Valid() && old(log) <= log && OnlyMoves(old(deliveries), deliveries, r.id)
      ensures st == Done && deliveries[r.id].state == if r.state == Failed then Prepared else r.state
      ensures deliveries[r.id].attempt == r.attempt && Said(log) == Said(old(log))
    {
      hide Lawful, Books, Evidenced, Said;
      st := Done;
      if r.state == Failed {
        var after: DeliveryRecord;
        st, after := RecordTransition(r, Prepared, Success);
      }
    }

    method GiveUpOn(r: DeliveryRecord) returns (st: Status)
      requires Valid() && Current(r) && r.failures >= policy.maxAttempts
      modifies `deliveries, `log
      ensures Valid() && old(log) <= log && OnlyMoves(old(deliveries), deliveries, r.id)
      ensures st == Done ==> deliveries[r.id].state == Failed && deliveries[r.id].failures == r.failures
      ensures st == Done <==> r.state == Failed || IsLegalTransition(r.state, Failed)
    {
      hide Lawful, Books, Evidenced, Said;
      st := Done;
      if r.state != Failed {
        var after: DeliveryRecord;
        st, after := RecordTransition(r, Failed, r.lastError);
      }
    }

    static function RejectionCode(i: DecisionInput): Code {
      if !GuaranteeSatisfies(i.targetGuarantee, i.requirement) then GuaranteeUnsupported
      else if !i.artifactAvailable then ArtifactUnavailable
      else PolicyDenied
    }

    /** Decisions that need no session. */
    method ApplyLocally(r: DeliveryRecord, action: Action, code: Code) returns (st: Status)
      requires Valid() && Current(r)
      modifies `deliveries, `log
      ensures Valid() && old(log) <= log && OnlyMoves(old(deliveries), deliveries, r.id)
      ensures st == Done && action == Reject ==> deliveries[r.id].state == Rejected
      ensures st == Done && action == Action.Retire ==> deliveries[r.id].state == Retired
      ensures st == Done && action == RecordFailureAndRetry ==> deliveries[r.id].state == Failed && deliveries[r.id].failures == r.failures + 1
      ensures !(action == Reject || action == Action.Retire || action == RecordFailureAndRetry) ==>
                st == Done && deliveries == old(deliveries) && log == old(log)
    {
      hide Lawful, Books, Evidenced, Said;
      var after: DeliveryRecord;
      match action {
        case Reject => st, after := RecordRejected(r, code);
        case Retire => st, after := RecordRetired(r);
        case RecordFailureAndRetry => st := Fail(r, if r.lastError == Success then IoFailure else r.lastError);
        case _ => st := Done;
      }
    }

    /** One turn of `driveDelivery`; `again` says that the loop goes on. */
    method DriveStep(s: Session, r: DeliveryRecord) returns (st: Status, again: bool)
      requires Valid() && Current(r) && s.target == r.target && ArtifactsFit()
      modifies `deliveries, `log, `targets, s`sends, s`replies
      ensures Valid() && old(log) <= log && OnlyMoves(old(deliveries), deliveries, r.id) && |s.replies| <= |old(s.replies)|
      ensures !Pushes(old(Decide(policy, DecisionFor(r)))) ==> s.sends == old(s.sends) && s.replies == old(s.replies)
      ensures var action := old(Decide(policy, DecisionFor(r)));
              && (again ==> st == Done && Pushes(action))
              && (action == GiveUp && st == Done ==> deliveries[r.id].state == Failed && deliveries[r.id].failures == r.failures)
              && (action == Reject && st == Done ==> deliveries[r.id].state == Rejected)
              && (action == Action.Retire && st == Done ==> deliveries[r.id].state == Retired)
              && (action == RecordFailureAndRetry && st == Done ==>
                    deliveries[r.id].state == Failed && deliveries[r.id].failures == r.failures + 1)
              && (!(Pushes(action) || action == GiveUp || action == Reject || action == Action.Retire || action == RecordFailureAndRetry) ==>
                    st == Done && deliveries == old(deliveries) && log == old(log) && targets == old(targets))
              && (Pushes(action) && old(Uneventful(s, r)) ==>
                    again && Finished(old(log), old(targets), r, old(Conversation(s, r))))
    {
      hide Lawful, Books, Evidenced, Decide, OnlyMoves, Derived, Said, Settled, Finished, UneventfulIn, ConversationIn;
      ActsExactlyWhen(policy, DecisionFor(r));
      OnlyMovesSelf(deliveries, r.id);
      var input := DecisionFor(r);
      var action := Decide(policy, input);
      again := false;
      GiveUpMeansExhausted(policy, input);
      match action {
        case GiveUp =>
          st := GiveUpOn(r);
        case Offer =>
          st := Push(s, r, input);
          again := st == Done;
        case ResumeTransfer =>
          st := Push(s, r, input);
          again := st == Done;
        case Activate =>
          st := Activate(s, r);
          again := st == Done;
        case _ =>
          st := ApplyLocally(r, action, RejectionCode(input));
      }
    }

    /** A verified or staged delivery is activated. */
    method Activate(s: Session, r: DeliveryRecord) returns (st: Status)
      requires Valid() && Current(r) && s.target == r.target && (r.state == Verified || r.state == Staged)
      modifies `deliveries, `log, `targets, s`sends, s`replies
      ensures Valid() && old(log) <= log && OnlyMoves(old(deliveries), deliveries, r.id) && |s.replies| <= |old(s.replies)|
      ensures old(Uneventful(s, r)) ==> st == Done && Finished(old(log), old(targets), r, old(Conversation(s, r)))
    {
      hide Lawful, Books, Evidenced, Said, Settled, Finished, OnlyMoves, StageHeard, WindowHeard, StageSaid, WindowSaid;
      st := ActivateDelivery(s, r);
    }

    method Push(s: Session, r: DeliveryRecord, input: DecisionInput) returns (st: Status)
      requires Valid() && Current(r) && s.target == r.target && ArtifactsFit()
      requires input.state == r.state && input.failures == r.failures && Pushes(Decide(policy, input))
      requires Index(r.state) <= 2 || r.state == Failed
      modifies `deliveries, `log, `targets, s`sends, s`replies
      ensures Valid() && old(log) <= log && OnlyMoves(old(deliveries), deliveries, r.id) && |s.replies| <= |old(s.replies)|
      ensures old(Uneventful(s, r)) ==>
                st == Done && Finished(old(log), old(targets), r, old(Conversation(s, r)))
    {
      hide Lawful, Books, Evidenced, Decide, Said, OnlyMoves, Settled, Finished, UneventfulIn, ConversationIn, SameDelivery;
      ghost var was, before, first, said := log, deliveries, targets, Conversation(s, r);
      PushesAreGuarded(policy, input);
      OnlyMovesSelf(deliveries, r.id);
      st := ReenterPipeline(r);
      MovedFacts(before, deliveries, r.id);
      ghost var mid, middle, x := log, deliveries, deliveries[r.id];
      SameConversation(s, r, x);
      SameStream(s, r, x, 0, 0, []);
      st := OfferAndTransfer(s, deliveries[r.id]);
      MovedTwice(before, middle, deliveries, r.id);
      assert [] + said == said && Said(was) == Said(was) + [];
      if Finished(mid, first, x, said) { FinishedSince(was, mid, first, r, x, [], said); }
    }

    lemma SameConversation(s: Session, r: DeliveryRecord, x: DeliveryRecord)
      requires SameDelivery(r, x) && x.attempt == r.attempt
      requires r.state != Verified && r.state != Staged && x.state != Verified && x.state != Staged
      ensures Uneventful(s, x) == Uneventful(s, r) && Conversation(s, x) == Conversation(s, r)
    {
      SameStream(s, r, x, names.stream(r.id, r.attempt), Resumes(s.replies), Later(s.replies));
    }

    const MAX_STEPS: nat := 16
    const MAX_SESSION_ERRORS: nat := 3

    /** The delivery is due to be offered or activated, and the session about it goes as it should. */
    predicate Promising(s: Session, id: Id)
      requires Policy.Valid(policy)
      reads `deliveries, `targets, `artifacts, `clock, s`sends, s`replies, s`term, s`incarnation
    {
      && id in deliveries && Uneventful(s, deliveries[id])
      && Pushes(Decide(policy, DecisionFor(deliveries[id])))
    }

    /** Nothing newer is wanted of the target, or there, and it can give the guarantee. */
    static predicate ClearIn(ds: map<Id, DeliveryRecord>, ts: map<Id, TargetRuntime>, r: DeliveryRecord) {
      var t := if r.target in ts then ts[r.target] else NEW_TARGET;
      !SupersededIn(ds, r) && t.committed.generation <= r.generation && GuaranteeSatisfies(t.guarantee, r.requirement)
    }

    lemma ClearFirst(s: Session, id: Id)
      requires Policy.Valid(policy) && Promising(s, id)
      ensures var r := deliveries[id];
              && ClearIn(deliveries, targets, r) && r.digest in artifacts && Uneventful(s, r) && Pushes(Decide(policy, DecisionFor(r)))
    {
      hide Decide, UneventfulIn;
      PushesAreGuarded(policy, DecisionFor(deliveries[id]));
    }

    /** An acknowledged delivery is left alone. */
    lemma NothingLeft(was: seq<Entry>, before: map<Id, DeliveryRecord>, first: map<Id, TargetRuntime>, id: Id, said: seq<Message>)
      requires Policy.Valid(policy) && id in before && before[id].id == id && before[id].digest in artifacts
      requires Finished(was, first, before[id], said) && OnlyMoves(before, deliveries, id) && ClearIn(before, first, before[id])
      ensures id in deliveries && Decide(policy, DecisionFor(deliveries[id])) == NoAction
    {
      hide Said, HeldByAFailedTwin, IsFresh, SupersededIn, OnlyMoves;
      MovedFacts(before, deliveries, id);
      StillWanted(before, deliveries, id);
    }

    static lemma StillWanted(before: map<Id, DeliveryRecord>, after: map<Id, DeliveryRecord>, id: Id)
      requires id in before && OnlyMoves(before, after, id)
      ensures SupersededIn(after, after[id]) ==> SupersededIn(before, before[id])
    {
      forall y | y in after && after[y].target == after[id].target && after[y].key == after[id].key && after[y].generation > after[id].generation
        ensures before[y].target == before[id].target && before[y].key == before[id].key && before[y].generation > before[id].generation
      {
      }
    }

    /** `driveDelivery`: one decision after the other, until one pushes nothing or the steps are used up. */
    method DriveDelivery(s: Session, id: Id) returns (st: Status)
      requires Valid() && (id in deliveries ==> deliveries[id].target == s.target) && ArtifactsFit()
      modifies `deliveries, `log, `targets, s`sends, s`replies
      ensures Valid() && old(log) <= log && OnlyMoves(old(deliveries), deliveries, id)
      ensures old(Promising(s, id)) ==>
                st == Done && Finished(old(log), old(targets), old(deliveries)[id], old(Conversation(s, deliveries[id])))
    {
      hide Lawful, Books, Evidenced, Decide, Said, Settled, Finished, UneventfulIn, ConversationIn, OnlyMoves, DecisionFor;
      ghost var was, before, first, promising := log, deliveries, targets, Promising(s, id);
      ghost var said := if id in deliveries then Conversation(s, deliveries[id]) else [];
      OnlyMovesSelf(deliveries, id);
      if promising {
        OwnId(id);
        ClearFirst(s, id);
      }
      st := Done;
      for step := 0 to MAX_STEPS
        invariant Valid() && old(log) <= log && OnlyMoves(before, deliveries, id)
        invariant promising ==> id in before && before[id].id == id && before[id].digest in artifacts
        invariant promising && step == 0 ==> log == was && deliveries == before && targets == first && s.sends == old(s.sends) && s.replies == old(s.replies)
        invariant promising && step > 0 ==> id in before && Finished(was, first, before[id], said) && ClearIn(before, first, before[id])
      {
        if id !in deliveries { return Done; }
        OwnId(id);
        MovedFacts(before, deliveries, id);
        ghost var middle := deliveries;
        if promising && step == 0 { ClearFirst(s, id); }
        if promising && step > 0 { NothingLeft(was, before, first, id, said); }
        var again;
        st, again := DriveStep(s, deliveries[id]);
        MovedTwice(before, middle, deliveries, id);
        if !again { return; }
      }
      st := Done;
    }

    /** The pending delivery of the target that comes before all others. */
    static ghost predicate Oldest(target: Id, ds: map<Id, DeliveryRecord>, id: Id) {
      && id in ds && ds[id].target == target && IsPendingState(ds[id].state)
      && forall x :: x in ds && ds[x].target == target && IsPendingState(ds[x].state) ==> x == id || Older(ds[id], ds[x])
    }

    /** The only one. */
    static ghost predicate Sole(target: Id, ds: map<Id, DeliveryRecord>, id: Id) {
      Oldest(target, ds, id) && forall x :: x in ds && ds[x].target == target && IsPendingState(ds[x].state) ==> x == id
    }

    /** Every pending delivery of the session's target, oldest generation first, until the connection or the patience
        with errors is gone. */
    method DriveDeliveries(s: Session) returns (st: Status)
      requires Valid() && ArtifactsFit()
      modifies `deliveries, `log, `targets, s`sends, s`replies
      ensures Valid() && old(log) <= log && NoneLost(old(deliveries), deliveries)
      ensures forall id :: id in deliveries && !(old(deliveries)[id].target == s.target && IsPendingState(old(deliveries)[id].state)) ==>
                deliveries[id] == old(deliveries)[id]
      ensures forall id :: Oldest(s.target, old(deliveries), id) && old(Promising(s, id)) ==>
                id in deliveries && deliveries[id].state == Acknowledged
                && Said(old(log)) + old(Conversation(s, deliveries[id])) <= Said(log)
      ensures forall id :: Sole(s.target, old(deliveries), id) && old(Promising(s, id)) ==>
                st == Done && Finished(old(log), old(targets), old(deliveries)[id], old(Conversation(s, deliveries[id])))
    {
      hide Lawful, Books, Evidenced, NoneLost, Said, Finished, Promising, Conversation, OthersSame, FirstDriven, Older, DrivenSofar;
      ghost var before := Now(s);
      var work := InOrder(set id | id in deliveries && deliveries[id].target == s.target && IsPendingState(deliveries[id].state));
      ghost var promising := work != [] && Promising(s, work[0]);
      ghost var said := if work != [] then Conversation(s, deliveries[work[0]]) else [];
      OldestFirst(s.target, deliveries, work);
      NothingDriven(s, work, promising, said);
      var errors := 0;
      for i := 0 to |work|
        invariant Valid() && ArtifactsFit() && DrivenSofar(s, before, work, i, promising, said)
        invariant promising && i == 0 ==> Promising(s, work[0]) && work[0] in deliveries && said == Conversation(s, deliveries[work[0]])
        invariant promising && i <= 1 ==> errors == 0
      {
        st := DriveOne(s, work, i, before, promising, said);
        DrivenFacts(s, before, work, i + 1, promising, said);
        if st != Done {
          if st.code == ConnectionClosed { return; }
          errors := errors + 1;
          if errors >= MAX_SESSION_ERRORS { return; }
        }
      }
      DrivenFacts(s, before, work, |work|, promising, said);
      st := Done;
    }

    /** The first `i` deliveries were driven; of the very first, if it was promising, this is what is left. */
    ghost predicate DrivenSofar(s: Session, before: Snapshot, work: seq<Id>, i: nat, promising: bool, said: seq<Message>)
      reads `deliveries, `log, `targets, `clock, s`sends, s`replies
    {
      && before.log <= log && NoneLost(before.deliveries, deliveries) && OthersSame(before.deliveries, deliveries, work)
      && (forall x :: x in work ==> x in before.deliveries && before.deliveries[x].target == s.target) && Distinct(work)
      && (i == 0 ==> Now(s) == before)
      && (promising && i > 0 ==> work != [] && FirstDriven(work[0], before.log, said))
      && (promising && i == 1 ==> work != [] && Finished(before.log, before.targets, before.deliveries[work[0]], said))
    }

    lemma NothingDriven(s: Session, work: seq<Id>, promising: bool, said: seq<Message>)
      requires Distinct(work) && forall x :: x in work ==> x in deliveries && deliveries[x].target == s.target
      ensures DrivenSofar(s, Now(s), work, 0, promising, said)
    {
      hide OthersSame, NoneLost, Distinct;
      NoneLostYet();
      NothingChanged(deliveries, work);
    }

    lemma DrivenFacts(s: Session, before: Snapshot, work: seq<Id>, i: nat, promising: bool, said: seq<Message>)
      requires DrivenSofar(s, before, work, i, promising, said)
      ensures before.log <= log && NoneLost(before.deliveries, deliveries) && deliveries.Keys == before.deliveries.Keys
      ensures forall id :: id in before.deliveries && id !in work ==> id in deliveries && deliveries[id] == before.deliveries[id]
      ensures promising && i > 0 ==> work != [] && work[0] in deliveries && deliveries[work[0]].state == Acknowledged
                                     && Said(before.log) + said <= Said(log)
      ensures promising && i == 1 ==> work != [] && work[0] in before.deliveries
                                      && Finished(before.log, before.targets, before.deliveries[work[0]], said)
    {
      hide Said, Finished, Distinct;
      if work != [] { assert work[0] in work; }
    }

    method DriveOne(s: Session, work: seq<Id>, i: nat, ghost before: Snapshot, ghost promising: bool, ghost said: seq<Message>) returns (st: Status)
      requires Valid() && ArtifactsFit() && i < |work| && DrivenSofar(s, before, work, i, promising, said)
      requires promising && i == 0 ==> Promising(s, work[0]) && work[0] in deliveries && said == Conversation(s, deliveries[work[0]])
      modifies `deliveries, `log, `targets, s`sends, s`replies
      ensures Valid() && DrivenSofar(s, before, work, i + 1, promising, said)
      ensures promising && i == 0 ==> st == Done
    {
      hide Lawful, Books, Evidenced, OnlyMoves, NoneLost, Said, Finished, Promising, Conversation, OthersSame, FirstDriven, Distinct;
      var id := work[i];
      assert id in work && work[0] in work;
      LostFacts(before.deliveries, id);
      OwnId(id);
      if i > 0 { DistinctFirst(work, i); DrivenMeans(work[0], before.log, said); }
      ghost var now, mid := deliveries, log;
      st := DriveDelivery(s, id);
      StillLost(before.deliveries, now, id);
      OthersSameOn(before.deliveries, now, deliveries, work, id);
      if promising {
        if i == 0 { DrivenNow(before.log, before.targets, before.deliveries[id], said); }
        else { StillDriven(work[0], id, before.log, said, now, mid); }
      }
    }

    static lemma NothingChanged(ds: map<Id, DeliveryRecord>, work: seq<Id>)
      ensures OthersSame(ds, ds, work)
    {
    }

    static lemma OthersAre(before: map<Id, DeliveryRecord>, after: map<Id, DeliveryRecord>, work: seq<Id>)
      requires OthersSame(before, after, work)
      ensures forall id :: id in before && id !in work ==> id in after && after[id] == before[id]
    {
    }

    lemma DrivenMeans(id: Id, was: seq<Entry>, said: seq<Message>)
      ensures FirstDriven(id, was, said) ==> id in deliveries && deliveries[id].state == Acknowledged && Said(was) + said <= Said(log)
    {
      hide Said;
    }

    lemma StillDriven(first: Id, id: Id, was: seq<Entry>, said: seq<Message>, now: map<Id, DeliveryRecord>, mid: seq<Entry>)
      requires first in now && now[first].state == Acknowledged && Said(was) + said <= Said(mid)
      requires OnlyMoves(now, deliveries, id) && first != id && mid <= log
      ensures FirstDriven(first, was, said)
    {
      hide Said;
      SaidGrows(mid, log);
    }

    ghost predicate FirstDriven(id: Id, was: seq<Entry>, said: seq<Message>)
      reads `deliveries, `log
    {
      id in deliveries && deliveries[id].state == Acknowledged && Said(was) + said <= Said(log)
    }

    lemma DrivenNow(was: seq<Entry>, before: map<Id, TargetRuntime>, r: DeliveryRecord, said: seq<Message>)
      requires Finished(was, before, r, said)
      ensures FirstDriven(r.id, was, said)
    {
      hide Said;
    }

    static lemma DistinctFirst(work: seq<Id>, i: nat)
      requires Distinct(work) && 0 < i < |work|
      ensures work[i] != work[0]
    {
    }

    static lemma OldestFirst(target: Id, ds: map<Id, DeliveryRecord>, work: seq<Id>)
      requires forall x :: x in work <==> x in ds && ds[x].target == target && IsPendingState(ds[x].state)
      requires Distinct(work) && forall i, j :: 0 <= i < j < |work| ==> !Older(ds[work[j]], ds[work[i]])
      ensures forall id :: Oldest(target, ds, id) ==> work != [] && work[0] == id
      ensures forall id :: Sole(target, ds, id) ==> work == [id]
    {
      hide Older, Distinct;
      forall id | Oldest(target, ds, id) ensures work != [] && work[0] == id { OneIsFirst(target, ds, work, id); }
      forall id | Sole(target, ds, id) ensures work == [id] {
        forall k | 0 <= k < |work| ensures work[k] == id { assert work[k] in work; }
        AllTheSame(work, id);
      }
    }

    static lemma OneIsFirst(target: Id, ds: map<Id, DeliveryRecord>, work: seq<Id>, id: Id)
      requires forall x :: x in work <==> x in ds && ds[x].target == target && IsPendingState(ds[x].state)
      requires forall i, j :: 0 <= i < j < |work| ==> !Older(ds[work[j]], ds[work[i]])
      requires Oldest(target, ds, id)
      ensures work != [] && work[0] == id
    {
      hide Older;
      assert id in work;
      var j :| 0 <= j < |work| && work[j] == id;
      assert work[0] in work;
      assert j > 0 ==> !Older(ds[work[j]], ds[work[0]]);
    }

    static lemma AllTheSame(work: seq<Id>, id: Id)
      requires Distinct(work) && id in work && forall k :: 0 <= k < |work| ==> work[k] == id
      ensures work == [id]
    {
      var last := |work| - 1;
      assert work[0] == work[last];
    }

    /** Deliveries that are not worked at stay as they are. */
    static ghost predicate OthersSame(before: map<Id, DeliveryRecord>, after: map<Id, DeliveryRecord>, work: seq<Id>) {
      forall id :: id in before && id !in work ==> id in after && after[id] == before[id]
    }

    static lemma OthersSameOn(before: map<Id, DeliveryRecord>, mid: map<Id, DeliveryRecord>, after: map<Id, DeliveryRecord>, work: seq<Id>, id: Id)
      requires OthersSame(before, mid, work) && OnlyMoves(mid, after, id) && id in work
      ensures OthersSame(before, after, work)
    {
    }

    static lemma {:induction false} SaidGrows(a: seq<Entry>, b: seq<Entry>)
      requires a <= b
      ensures Said(a) <= Said(b)
      decreases |b|
    {
      if a == b {
      } else {
        assert a <= b[..|b| - 1];
        SaidGrows(a, b[..|b| - 1]);
      }
    }

    lemma NoneLostYet()
      ensures NoneLost(deliveries, deliveries)
    {
    }

    lemma LostKeys(before: map<Id, DeliveryRecord>)
      requires NoneLost(before, deliveries)
      ensures deliveries.Keys == before.Keys
    {
    }

    lemma LostFacts(before: map<Id, DeliveryRecord>, id: Id)
      requires NoneLost(before, deliveries) && id in before
      ensures id in deliveries && deliveries[id].target == before[id].target
    {
    }

    lemma OthersStay(now: map<Id, DeliveryRecord>, id: Id)
      requires OnlyMoves(now, deliveries, id)
      ensures forall x :: x in now && x != id ==> x in deliveries && deliveries[x] == now[x]
    {
    }

    /** The target is greeted, reports nothing that decides about its only pending delivery, which is due, and answers the
        conversation about it as it should. */
    ghost predicate Straightforward(s: Session, id: Id)
      reads `deliveries, `targets, `artifacts, `clock, s`sends, s`replies
    {
      && |s.replies| >= 2 && Flows(s.sends, 2) && Sole(s.target, deliveries, id) && Index(deliveries[id].state) <= 2
      && Welcomed(s.replies, s.target, KnownOf(targets, s.target))
      && var ack, rest := s.replies[0], s.replies[1..];
         && OwnReport(rest, s.target, ack.term, ack.incarnation) && !rest[0].report.window.applyPrepared
         && Undecided(deliveries[id], rest[0].report, ack.term, ack.incarnation)
         && UneventfulIn(deliveries[id], s.replies[2..], s.sends[2..], ack.term, ack.incarnation, ChunkSize(s))
    }

    /** The delivery is to be driven, as the target reports itself. */
    predicate Undecided(r: DeliveryRecord, report: ReconcileReport, term: u64, incarnation: Bytes)
      reads `deliveries, `artifacts, `clock
    {
      && ReconcileDelivery(ReconcileQuestion(Some(report), term, incarnation, r)) != ReconcileOutcome.AdoptActivation
      && report.committed.generation <= r.generation && GuaranteeSatisfies(report.guarantee, r.requirement)
      && r.digest in artifacts && !Superseded(r) && clock > 0
    }

    /** One whole session (`runSession`): greeting, report, then the deliveries; one that is not established is charged to
        every pending delivery of the target. */
    method RunSession(s: Session, hello: ControllerFence, maxFindings: u32) returns (st: Status)
      requires Valid() && ArtifactsFit()
      modifies `deliveries, `log, `targets, s`sends, s`replies, s`term, s`incarnation, s`report
      ensures Valid() && old(log) <= log && NoneLost(old(deliveries), deliveries)
      ensures !(old(s.sends) != [] && old(s.sends)[0] && Welcomed(old(s.replies), s.target, KnownOf(old(targets), s.target))) ==>
                st != Done && forall id :: id in deliveries ==>
                  var was := old(deliveries)[id];
                  deliveries[id] == if was.target == s.target && IsPendingState(was.state) then Charged(was, st.code, clock) else was
      ensures forall id :: old(Straightforward(s, id)) ==>
                && st == Done && id in deliveries && deliveries[id].state == Acknowledged
                && Said(log) == Said(old(log)) + ([Hello(hello), ReconcileRequest(maxFindings)]
                                                  + old(ConversationIn(deliveries[id], s.replies[2..], s.replies[0].term, s.replies[0].incarnation,
                                                                       ChunkSize(s), Some(s.replies[1].report))))
    {
      hide Lawful, Books, SameDelivery, Said, Promising, Finished, Straightforward, ConversationIn, Charged, NoneLost;
      ghost var before, was := deliveries, log;
      ghost var straight := exists id :: Straightforward(s, id);
      ghost var id := if straight then (var x :| Straightforward(s, x); x) else "";
      ghost var said := if straight then Exchange(s, id) else [];
      if straight { OnlyOneWay(s, id); }
      st := Establish(s, hello, maxFindings);
      ghost var second, mid, middle := deliveries, log, targets;
      if straight { OwnId(id); }
      if st != Done {
        RecordSessionFailure(s.target, st.code);
      } else {
        st := DriveDeliveries(s);
      }
      LostTwice(before, second, deliveries);
      if straight {
        FinishedMeans(mid, middle, second[id], said);
        SessionSaid(was, mid, id, hello, maxFindings, said);
      }
    }

    lemma FinishedMeans(was: seq<Entry>, before: map<Id, TargetRuntime>, r: DeliveryRecord, said: seq<Message>)
      ensures Finished(was, before, r, said) ==>
                r.id in deliveries && deliveries[r.id].state == Acknowledged && Said(log) == Said(was) + said
    {
      hide Said, Settled;
    }

    /** What is said about the delivery once the session stands. */
    ghost function Exchange(s: Session, id: Id): seq<Message>
      requires Straightforward(s, id)
      reads `deliveries, `targets, `artifacts, `clock, s`sends, s`replies
    {
      ConversationIn(deliveries[id], s.replies[2..], s.replies[0].term, s.replies[0].incarnation, ChunkSize(s), Some(s.replies[1].report))
    }

    lemma OnlyOneWay(s: Session, id: Id)
      requires Straightforward(s, id)
      ensures forall x :: Straightforward(s, x) ==> x == id
    {
      hide Welcomed, OwnReport, Undecided, UneventfulIn;
    }

    lemma SessionSaid(was: seq<Entry>, mid: seq<Entry>, id: Id, hello: ControllerFence, maxFindings: u32, said: seq<Message>)
      ensures Said(mid) == Said(was) + [Hello(hello), ReconcileRequest(maxFindings)] && Said(log) == Said(mid) + said ==>
                Said(log) == Said(was) + ([Hello(hello), ReconcileRequest(maxFindings)] + said)
    {
      hide Said;
      var opening := [Hello(hello), ReconcileRequest(maxFindings)];
      assert (Said(was) + opening) + said == Said(was) + (opening + said);
    }

    /** Greeting and report. */
    method Establish(s: Session, hello: ControllerFence, maxFindings: u32) returns (st: Status)
      requires Valid() && ArtifactsFit()
      modifies `deliveries, `log, `targets, s`sends, s`replies, s`term, s`incarnation, s`report
      ensures Valid() && old(log) <= log && NoneLost(old(deliveries), deliveries)
      ensures !(old(s.sends) != [] && old(s.sends)[0] && Welcomed(old(s.replies), s.target, KnownOf(old(targets), s.target))) ==>
                st != Done && deliveries == old(deliveries)
      ensures forall id :: old(Straightforward(s, id)) ==>
                && st == Done && Sole(s.target, deliveries, id) && deliveries == old(deliveries) && Promising(s, id)
                && Said(log) == Said(old(log)) + [Hello(hello), ReconcileRequest(maxFindings)]
                && Conversation(s, deliveries[id]) == old(Exchange(s, id))
    {
      hide Lawful, Books, SameDelivery, Said, UneventfulIn, ConversationIn, Conversation, Refreshed, NoneLost, Authentic, Sole, OwnReport, Undecided, Promising;
      ghost var before := deliveries;
      ghost var straight := exists x :: Straightforward(s, x);
      ghost var id := if straight then (var x :| Straightforward(s, x); x) else "";
      if straight { OnlyOneWay(s, id); }
      NoneLostYet();
      st := Handshake(s, hello);
      ghost var first := deliveries;
      if straight { GreetingKeeps(s.target, before, first, clock, id); }
      if st == Done { st := FetchReport(s, maxFindings); }
      LostTwice(before, first, deliveries);
    }

    /** The greeted target reports nothing that decides about its only pending delivery. */
    ghost predicate Reportable(s: Session, id: Id)
      reads `deliveries, `artifacts, `clock, s`sends, s`replies, s`term, s`incarnation
    {
      && s.replies != [] && Flows(s.sends, 1) && Sole(s.target, deliveries, id) && Index(deliveries[id].state) <= 2
      && OwnReport(s.replies, s.target, s.term, s.incarnation) && !s.replies[0].report.window.applyPrepared
      && Undecided(deliveries[id], s.replies[0].report, s.term, s.incarnation)
      && UneventfulIn(deliveries[id], s.replies[1..], s.sends[1..], s.term, s.incarnation, ChunkSize(s))
    }

    method FetchReport(s: Session, maxFindings: u32) returns (st: Status)
      requires Valid() && ArtifactsFit()
      modifies `deliveries, `log, `targets, s`sends, s`replies, s`report
      ensures Valid() && old(log) <= log && NoneLost(old(deliveries), deliveries)
      ensures forall id :: old(Reportable(s, id)) ==>
                && st == Done && deliveries == old(deliveries) && Promising(s, id)
                && Said(log) == Said(old(log)) + [ReconcileRequest(maxFindings)]
                && Conversation(s, deliveries[id]) == old(ConversationIn(deliveries[id], s.replies[1..], s.term, s.incarnation, ChunkSize(s),
                                                                         Some(s.replies[0].report)))
    {
      hide Lawful, Books, SameDelivery, Said, UneventfulIn, ConversationIn, ReportApplied, NoneLost, Recorded, Older, AbortsSaid, Undecided;
      ghost var before := deliveries;
      ghost var due := exists x :: Reportable(s, x);
      ghost var id := if due then (var x :| Reportable(s, x); x) else "";
      if due { UndecidedFacts(before[id], s.replies[0].report, s.term, s.incarnation); }
      st := Reconcile(s, maxFindings);
      if due {
        ReportKeeps(s, before, deliveries, id);
        DueNow(s, id);
      }
    }

    lemma UndecidedFacts(r: DeliveryRecord, report: ReconcileReport, term: u64, incarnation: Bytes)
      ensures Undecided(r, report, term, incarnation) ==>
                ReconcileDelivery(ReconcileQuestion(Some(report), term, incarnation, r)) != ReconcileOutcome.AdoptActivation
                && report.committed.generation <= r.generation
    {
      hide ReconcileDelivery;
    }

    lemma GreetingKeeps(target: Id, before: map<Id, DeliveryRecord>, after: map<Id, DeliveryRecord>, at: i64, id: Id)
      requires Sole(target, before, id) && before[id].state != Failed && NoneLost(before, after)
      requires forall x :: x in after ==>
                 after[x] == before[x] || (before[x].target == target && before[x].state == Failed && after[x] == Refreshed(before[x], at))
      ensures after == before
    {
      hide Refreshed, Older;
      assert after.Keys == before.Keys;
      forall x | x in before ensures after[x] == before[x] {
        assert before[x].target == target && IsPendingState(before[x].state) ==> x == id;
      }
    }

    lemma ReportKeeps(s: Session, before: map<Id, DeliveryRecord>, after: map<Id, DeliveryRecord>, id: Id)
      requires Sole(s.target, before, id) && s.report.Some? && ReportApplied(s, before, after)
      requires var i := ReconcileQuestion(s.report, s.term, s.incarnation, before[id]);
               ReconcileDelivery(i) != ReconcileOutcome.AdoptActivation && s.report.value.committed.generation <= before[id].generation
      ensures after == before && NothingAdopted(s, before)
    {
      hide Older;
      assert after.Keys == before.Keys;
      forall x | x in before ensures after[x] == before[x] {
        assert ApplyOne(before[x], after[x], s.target, s.report, s.term, s.incarnation);
      }
    }

    lemma DueNow(s: Session, id: Id)
      requires Policy.Valid(policy) && id in deliveries && deliveries[id].target == s.target && Index(deliveries[id].state) <= 2
      requires s.report.Some? && s.target in targets && Recorded(targets[s.target], s.report.value)
      requires targets[s.target].committed == s.report.value.committed && !s.report.value.window.applyPrepared
      requires Undecided(deliveries[id], s.report.value, s.term, s.incarnation)
      requires UneventfulIn(deliveries[id], s.replies, s.sends, s.term, s.incarnation, ChunkSize(s))
      ensures Promising(s, id)
    {
      hide UneventfulIn, Decide, ReconcileDelivery, SupersededIn, HeldByAFailedTwin;
      ActsExactlyWhen(policy, DecisionFor(deliveries[id]));
    }

    static lemma LostTwice(a: map<Id, DeliveryRecord>, b: map<Id, DeliveryRecord>, c: map<Id, DeliveryRecord>)
      ensures NoneLost(a, b) && NoneLost(b, c) ==> NoneLost(a, c)
      ensures NoneLost(b, b)
    {
    }

    // ---- Planning ----

    /** A new delivery: everything older and pending on its lineage is retired as superseded first. */
    method Plan(r: DeliveryRecord, runtime: TargetRuntime) returns (st: Status)
      requires Valid() && r.id !in deliveries && Derived(names, r) && r.state == Prepared && r.failures == 0
      modifies `deliveries, `log, `targets
      ensures Valid() && old(log) <= log && st == Done
      ensures deliveries.Keys == old(deliveries.Keys) + {r.id} && deliveries[r.id] == r
      ensures forall id :: id in old(deliveries) ==>
                var was := old(deliveries)[id];
                if was.target == r.target && was.key == r.key && was.generation < r.generation && IsPendingState(was.state)
                then deliveries[id].state == Retired && deliveries[id].superseded
                else deliveries[id] == was
    {
      hide Lawful, Books, Said;
      st := RetireOlder(r);
      if st != Done { return; }
      targets := targets[r.target := runtime];
      Adopt(r);
    }

    method RetireOlder(r: DeliveryRecord) returns (st: Status)
      requires Valid() && r.id !in deliveries
      modifies `deliveries, `log
      ensures Valid() && old(log) <= log && deliveries.Keys == old(deliveries.Keys) && st == Done
      ensures forall id :: id in old(deliveries) ==>
                var was := old(deliveries)[id];
                if was.target == r.target && was.key == r.key && was.generation < r.generation && IsPendingState(was.state)
                then deliveries[id].state == Retired && deliveries[id].superseded
                else deliveries[id] == was
    {
      hide Lawful, Books, Said, IsLegalTransition, SameDelivery, OnlyMoves, ClearedSofar;
      ghost var before := deliveries;
      var order := InOrder(set id | id in deliveries && deliveries[id].target == r.target && deliveries[id].key == r.key
                                    && deliveries[id].generation < r.generation && IsPendingState(deliveries[id].state));
      NothingCleared(before, order);
      st := Done;
      for i := 0 to |order|
        invariant Valid() && old(log) <= log && st == Done && ClearedSofar(before, deliveries, order, i)
      {
        ClearedFacts(before, deliveries, order, i);
        PendingCanRetire(deliveries[order[i]].state);
        OwnId(order[i]);
        ghost var now := deliveries;
        var after: DeliveryRecord;
        st, after := RecordRetired(deliveries[order[i]]);
        if st != Done { return; }
        ClearedOn(before, now, deliveries, order, i);
      }
      AllCleared(before, deliveries, order);
    }

    /** The first `i` of the chosen deliveries are retired as superseded, everything else is as it was. */
    static ghost predicate ClearedSofar(before: map<Id, DeliveryRecord>, after: map<Id, DeliveryRecord>, order: seq<Id>, i: nat) {
      && i <= |order| && Distinct(order) && after.Keys == before.Keys
      && (forall id :: id in order ==> id in before && IsPendingState(before[id].state))
      && forall id :: id in before ==>
           if id in order[..i] then after[id].state == Retired && after[id].superseded else after[id] == before[id]
    }

    static lemma NothingCleared(before: map<Id, DeliveryRecord>, order: seq<Id>)
      requires Distinct(order) && forall id :: id in order ==> id in before && IsPendingState(before[id].state)
      ensures ClearedSofar(before, before, order, 0)
    {
    }

    static lemma ClearedFacts(before: map<Id, DeliveryRecord>, after: map<Id, DeliveryRecord>, order: seq<Id>, i: nat)
      requires ClearedSofar(before, after, order, i) && i < |order|
      ensures order[i] in after && IsPendingState(after[order[i]].state)
    {
      NewlyListed(order, i);
      assert order[i] in order;
    }

    static lemma ClearedOn(before: map<Id, DeliveryRecord>, mid: map<Id, DeliveryRecord>, after: map<Id, DeliveryRecord>, order: seq<Id>, i: nat)
      requires ClearedSofar(before, mid, order, i) && i < |order| && OnlyMoves(mid, after, order[i])
      requires order[i] in after && after[order[i]].state == Retired && after[order[i]].superseded
      ensures ClearedSofar(before, after, order, i + 1)
    {
      NewlyListed(order, i);
      assert order[..i + 1] == order[..i] + [order[i]];
    }

    static lemma AllCleared(before: map<Id, DeliveryRecord>, after: map<Id, DeliveryRecord>, order: seq<Id>)
      requires ClearedSofar(before, after, order, |order|)
      ensures after.Keys == before.Keys
      ensures forall id :: id in before ==>
                if id in order then after[id].state == Retired && after[id].superseded else after[id] == before[id]
    {
      assert order[..|order|] == order;
    }

    static lemma PendingCanRetire(state: DeliveryState)
      ensures IsPendingState(state) ==> IsLegalTransition(state, Retired)
    {
    }

    method Adopt(r: DeliveryRecord)
      requires Valid() && r.id !in deliveries && Derived(names, r) && r.state == Prepared && r.failures == 0
      modifies `deliveries, `log
      ensures Valid() && log == old(log) + [Planned(r)] && deliveries == old(deliveries)[r.id := r]
    {
      hide Lawful, Books, Said;
      deliveries := deliveries[r.id := r];
      Write(Planned(r));
    }

    /** A distributor that starts again holds what the store recorded; contact evidence is no longer current. */
    constructor (names: Derivation, policy: DistributorPolicy, chunkBytes: nat, epoch: u64, deliveries: map<Id, DeliveryRecord>,
                 targets: map<Id, TargetRuntime>, artifacts: map<Digest, Bytes>, clock: i64, ghost history: seq<Entry>)
      requires Policy.Valid(policy) && Lawful(names, policy.maxAttempts, history) && deliveries == Books(history)
      ensures Valid() && log == history && this.deliveries == deliveries
      ensures this.names == names && this.policy == policy && this.chunkBytes == chunkBytes && this.epoch == epoch && this.artifacts == artifacts
      ensures this.targets.Keys == targets.Keys && forall t :: t in targets ==> this.targets[t] == targets[t].(contactCurrent := false)
    {
      this.names, this.policy, this.chunkBytes, this.epoch := names, policy, chunkBytes, epoch;
      this.deliveries, this.artifacts, this.clock, log := deliveries, artifacts, clock, history;
      this.targets := map t | t in targets :: targets[t].(contactCurrent := false);
    }
  }
}
