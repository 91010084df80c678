/** The distributor's history: what it sent and received, and every state its deliveries went through. The
    properties promised of whole runs are stated over this history. */
module Ledger {
  import opened Prelude
  import opened Lifecycle
  import opened AgentState
  import opened Messages
  import opened Reconciliation

  datatype DeliveryRecord = DeliveryRecord(
    id: Id, target: Id, key: Id, artifact: Id, generation: u64, digest: Digest, schema: Id, schemaVersion: u32,
    sizeBytes: u64, requirement: Requirement, effectiveGuarantee: Guarantee, state: DeliveryState,
    attempt: u64, failures: u32, lastError: Code, acknowledgedFromReconcile: bool, superseded: bool, updatedAt: i64)

  /** How delivery and stream identifiers are derived; the source hashes, which is taken to be injective. */
  datatype Derivation = Derivation(delivery: (Id, Id, u64, Digest) -> Id, stream: (Id, u64) -> u64)

  ghost predicate Injective(names: Derivation) {
    forall t, k, g, d, t', k', g', d' ::
      names.delivery(t, k, g, d) == names.delivery(t', k', g', d') ==> t == t' && k == k' && g == g' && d == d'
  }

  predicate Derived(names: Derivation, r: DeliveryRecord) {
    r.id == names.delivery(r.target, r.key, r.generation, r.digest) && r.generation != 0
  }

  /** Everything about a delivery that never changes. */
  predicate SameDelivery(a: DeliveryRecord, b: DeliveryRecord) {
    b == a.(state := b.state, attempt := b.attempt, failures := b.failures, lastError := b.lastError,
            acknowledgedFromReconcile := b.acknowledgedFromReconcile, superseded := b.superseded, updatedAt := b.updatedAt)
  }

  /** What the distributor does, in order. Each change of a stored record carries the record as written: planned, moved along
      an edge of the lifecycle, charged with one more failure while failed, touched without a change of state, or re-armed. */
  datatype Entry =
    | Planned(record: DeliveryRecord)
    | Moved(record: DeliveryRecord, from: DeliveryState)
    | Charged(record: DeliveryRecord)
    | Touched(record: DeliveryRecord)
    | Rearmed(record: DeliveryRecord)
    | Sent(peer: Id, message: Message)
    | Received(peer: Id, reply: Reply)

  predicate Writes(e: Entry) {
    !e.Sent? && !e.Received?
  }

  /** The stored records. */
  function Books(log: seq<Entry>): map<Id, DeliveryRecord> {
    if log == [] then map[]
    else
      var before, e := Books(log[..|log| - 1]), log[|log| - 1];
      if Writes(e) then before[e.record.id := e.record] else before
  }

  // ---- Evidence ----

  /** The reply says that the target activated exactly what the delivery asks for. */
  predicate Proves(reply: Reply, r: DeliveryRecord) {
    match reply
    case PrepareAck(d, _, _, duplicate, _, _, _) => duplicate && d == r.id
    case ApplyCommitAck(_, committed, _, g, h) => committed && g == r.generation && h == r.digest
    case DeliveryAck(a) => a.deployment == r.id && a.generation == r.generation && a.digest == r.digest
    case Report(report) =>
      || (report.committed.generation == r.generation && report.committed.digest == r.digest)
      || ProvedByFinding(report.findings, r.generation, r.digest)
    case _ => false
  }

  predicate Evidenced(log: seq<Entry>, r: DeliveryRecord) {
    exists i :: 0 <= i < |log| && ProvedAt(log[i], r)
  }

  predicate ProvedAt(e: Entry, r: DeliveryRecord) {
    e.Received? && e.peer == r.target && Proves(e.reply, r)
  }

  /** Applied and Acknowledged are only ever entered after a proof was received from that very target. */
  predicate Justified(log: seq<Entry>) {
    forall i :: 0 <= i < |log| && log[i].Moved? && IsActivationState(log[i].record.state) ==> Evidenced(log[..i], log[i].record)
  }

  /** Offers name the delivery they are for, and moves are of derived deliveries. */
  predicate Honest(names: Derivation, log: seq<Entry>) {
    forall i :: 0 <= i < |log| ==> HonestEntry(names, log[i])
  }

  predicate HonestEntry(names: Derivation, e: Entry) {
    match e
    case Sent(t, Prepare(m)) => m.deployment == names.delivery(t, m.key, m.generation, m.digest)
    case Moved(r, _) => Derived(names, r)
    case _ => true
  }

  // ---- States and retries of one delivery ----

  predicate Concerns(e: Entry, id: Id) {
    Writes(e) && e.record.id == id
  }

  /** The states since the delivery was last planned. */
  function Path(log: seq<Entry>, id: Id): seq<DeliveryState> {
    if log == [] then []
    else
      var before, e := Path(log[..|log| - 1], id), log[|log| - 1];
      if e.Planned? && e.record.id == id then [Prepared]
      else if e.Moved? && e.record.id == id then before + [e.record.state]
      else before
  }

  predicate IsRetry(e: Entry, id: Id) {
    e.Moved? && e.record.id == id && e.from == Failed && e.record.state == Prepared
  }

  predicate Resets(e: Entry, id: Id) {
    (e.Planned? || e.Rearmed?) && e.record.id == id
  }

  /** Retries since the delivery was planned or its budget was last re-armed. */
  function Retries(log: seq<Entry>, id: Id): nat {
    if log == [] then 0
    else
      var e := log[|log| - 1];
      if Resets(e, id) then 0 else Retries(log[..|log| - 1], id) + if IsRetry(e, id) then 1 else 0
  }

  /** How many retries the budget allows in that stretch: one less than the attempts after planning, because the first
      attempt is not a retry, and all of them after a re-arm, which finds the delivery already failed. */
  function Allowance(log: seq<Entry>, id: Id, maxAttempts: nat): int {
    if log == [] then 0
    else
      var e := log[|log| - 1];
      if e.Planned? && e.record.id == id then maxAttempts - 1
      else if e.Rearmed? && e.record.id == id then maxAttempts
      else Allowance(log[..|log| - 1], id, maxAttempts)
  }

  /** The retries a delivery may still take. */
  function Left(r: DeliveryRecord, maxAttempts: nat): nat {
    var rest := if r.state == Failed then maxAttempts - r.failures else maxAttempts - r.failures - 1;
    if rest < 0 then 0 else rest
  }

  predicate Tracked(log: seq<Entry>, maxAttempts: nat, r: DeliveryRecord) {
    && Path(log, r.id) != [] && Path(log, r.id)[|Path(log, r.id)| - 1] == r.state && LegalWalk(Path(log, r.id))
    && Retries(log, r.id) + Left(r, maxAttempts) <= Allowance(log, r.id, maxAttempts)
    && (IsActivationState(r.state) ==> Evidenced(log, r))
  }

  predicate AllTracked(names: Derivation, log: seq<Entry>, maxAttempts: nat, deliveries: map<Id, DeliveryRecord>) {
    forall id :: id in deliveries ==>
      deliveries[id].id == id && Derived(names, deliveries[id]) && Tracked(log, maxAttempts, deliveries[id])
  }

  // ---- The distributor's steps ----

  /** A failure is counted when it is recorded, unless the budget was already spent; the edge back to Prepared is taken
      only with budget left; nothing else changes the count. */
  predicate PaidFor(maxAttempts: nat, was: DeliveryRecord, now: DeliveryRecord) {
    if now.state == Failed then
      now.failures as int == was.failures + 1 || (now.failures == was.failures && was.failures >= maxAttempts)
    else now.failures == was.failures && (was.state == Failed && now.state == Prepared ==> was.failures < maxAttempts)
  }

  /** What is said about a delivery is said to its own target and as recorded. */
  predicate MaySend(books: map<Id, DeliveryRecord>, t: Id, m: Message) {
    match m
    case Prepare(p) => p.deployment in books && Names(books[p.deployment], t, p.generation, p.digest) && books[p.deployment].key == p.key
    case TransferComplete(d, h, _) => d in books && Names(books[d], t, books[d].generation, h)
    case Stage(d, g, h) => d in books && Names(books[d], t, g, h)
    case ApplyPrepare(d, g, h) => d in books && Names(books[d], t, g, h)
    case ApplyCommit(d, g, h) => d in books && Names(books[d], t, g, h)
    case _ => true
  }

  predicate Names(r: DeliveryRecord, t: Id, g: u64, h: Digest) {
    r.target == t && r.generation == g && r.digest == h
  }

  /** What may be written over the record `was`, after this history. */
  predicate MayWrite(maxAttempts: nat, log: seq<Entry>, was: DeliveryRecord, e: Entry)
    requires Writes(e)
  {
    && SameDelivery(was, e.record)
    && match e
       case Planned(_) => false
       case Moved(r, from) =>
         && from == was.state && IsLegalTransition(from, r.state) && PaidFor(maxAttempts, was, r)
         && (IsActivationState(r.state) ==> Evidenced(log, r))
       case Charged(r) => was.state == Failed && r.state == Failed && r.failures as int == was.failures + 1
       case Touched(r) => r.state == was.state && r.failures == was.failures
       case Rearmed(r) => was.state == Failed && r.state == Failed && r.failures == 0
  }

  /** The steps the distributor takes, given everything it did before. */
  predicate Allowed(names: Derivation, maxAttempts: nat, log: seq<Entry>, e: Entry) {
    var books := Books(log);
    match e
    case Planned(r) => r.id !in books && Derived(names, r) && r.state == Prepared && r.failures == 0
    case Sent(t, m) => MaySend(books, t, m)
    case Received(_, _) => true
    case _ => e.record.id in books && MayWrite(maxAttempts, log, books[e.record.id], e)
  }

  /** A history the distributor can have. */
  predicate Lawful(names: Derivation, maxAttempts: nat, log: seq<Entry>) {
    log == [] || (Lawful(names, maxAttempts, log[..|log| - 1]) && Allowed(names, maxAttempts, log[..|log| - 1], log[|log| - 1]))
  }

  // ---- One more entry ----

  lemma Snoc(log: seq<Entry>, e: Entry)
    ensures (log + [e])[..|log|] == log && (log + [e])[|log|] == e && |log + [e]| == |log| + 1
  {
  }

  lemma LawfulSnoc(names: Derivation, max: nat, log: seq<Entry>, e: Entry)
    requires Lawful(names, max, log) && Allowed(names, max, log, e)
    ensures Lawful(names, max, log + [e])
    ensures Books(log + [e]) == if Writes(e) then Books(log)[e.record.id := e.record] else Books(log)
  {
    hide Allowed;
    Snoc(log, e);
  }

  lemma EvidenceGrows(log: seq<Entry>, e: Entry, r: DeliveryRecord)
    requires Evidenced(log, r)
    ensures Evidenced(log + [e], r)
  {
    var i :| 0 <= i < |log| && ProvedAt(log[i], r);
    assert (log + [e])[i] == log[i];
  }

  lemma SameEvidence(log: seq<Entry>, r: DeliveryRecord, r': DeliveryRecord)
    requires SameDelivery(r, r') && Evidenced(log, r)
    ensures Evidenced(log, r')
  {
    var i :| 0 <= i < |log| && ProvedAt(log[i], r);
    assert ProvedAt(log[i], r');
  }

  lemma OthersKeep(log: seq<Entry>, e: Entry, max: nat, r: DeliveryRecord)
    requires Tracked(log, max, r) && !Concerns(e, r.id)
    ensures Tracked(log + [e], max, r)
  {
    Snoc(log, e);
    if IsActivationState(r.state) { EvidenceGrows(log, e, r); }
  }

  lemma PlanKeep(names: Derivation, log: seq<Entry>, max: nat, r: DeliveryRecord)
    requires max > 0 && r.state == Prepared && r.failures == 0
    ensures Tracked(log + [Planned(r)], max, r)
  {
    Snoc(log, Planned(r));
    assert LegalWalk([Prepared]);
  }

  /** One more failure of a failed delivery, or a change that is none. */
  lemma QuietKeep(log: seq<Entry>, max: nat, r: DeliveryRecord, e: Entry)
    requires Tracked(log, max, r) && (e.Charged? || e.Touched?) && e.record.id == r.id && MayWrite(max, log, r, e)
    ensures Tracked(log + [e], max, e.record)
  {
    Snoc(log, e);
    if IsActivationState(r.state) {
      EvidenceGrows(log, e, r);
      SameEvidence(log + [e], r, e.record);
    }
  }

  lemma RearmKeep(log: seq<Entry>, max: nat, r: DeliveryRecord, r': DeliveryRecord)
    requires Tracked(log, max, r) && MayWrite(max, log, r, Rearmed(r'))
    ensures Tracked(log + [Rearmed(r')], max, r')
  {
    Snoc(log, Rearmed(r'));
  }

  /** A legal move keeps the budget: what it costs is what it takes from the retries left. */
  lemma MoveKeep(log: seq<Entry>, max: nat, r: DeliveryRecord, r': DeliveryRecord)
    requires Tracked(log, max, r) && MayWrite(max, log, r, Moved(r', r.state))
    ensures Tracked(log + [Moved(r', r.state)], max, r')
  {
    var e := Moved(r', r.state);
    Snoc(log, e);
    var path := Path(log, r.id);
    assert Path(log + [e], r.id) == path + [r'.state];
    if IsActivationState(r'.state) { EvidenceGrows(log, e, r'); }
  }

  // ---- What holds over every history ----

  /** Every step of the distributor keeps what is promised of each of its deliveries. */
  lemma StepKeeps(names: Derivation, max: nat, log: seq<Entry>, e: Entry)
    requires max > 0 && AllTracked(names, log, max, Books(log)) && Allowed(names, max, log, e)
    ensures AllTracked(names, log + [e], max, Books(log + [e]))
  {
    hide Tracked, Evidenced, IsLegalTransition;
    Snoc(log, e);
    var books := Books(log);
    forall id | id in books && !Concerns(e, id) ensures Tracked(log + [e], max, books[id]) {
      OthersKeep(log, e, max, books[id]);
    }
    match e
    case Planned(r) => PlanKeep(names, log, max, r);
    case Moved(r, _) => MoveKeep(log, max, books[r.id], r);
    case Charged(r) => QuietKeep(log, max, books[r.id], e);
    case Touched(r) => QuietKeep(log, max, books[r.id], e);
    case Rearmed(r) => RearmKeep(log, max, books[r.id], r);
    case _ =>
  }

  lemma {:induction false} AllAreTracked(names: Derivation, max: nat, log: seq<Entry>)
    requires max > 0 && Lawful(names, max, log)
    ensures AllTracked(names, log, max, Books(log))
    decreases |log|
  {
    if log != [] {
      hide AllTracked, Allowed, Books;
      var before, e := log[..|log| - 1], log[|log| - 1];
      AllAreTracked(names, max, before);
      StepKeeps(names, max, before, e);
      assert before + [e] == log;
    }
  }

  lemma {:induction false} LawfulPrefix(names: Derivation, max: nat, log: seq<Entry>, n: nat)
    requires Lawful(names, max, log) && n <= |log|
    ensures Lawful(names, max, log[..n])
    decreases |log|
  {
    hide Allowed;
    if n < |log| {
      LawfulPrefix(names, max, log[..|log| - 1], n);
      assert log[..|log| - 1][..n] == log[..n];
    } else {
      assert log[..n] == log;
    }
  }

  lemma LawfulAt(names: Derivation, max: nat, log: seq<Entry>, i: nat)
    requires Lawful(names, max, log) && i < |log|
    ensures Lawful(names, max, log[..i]) && Allowed(names, max, log[..i], log[i])
  {
    hide Allowed;
    LawfulPrefix(names, max, log, i + 1);
    assert log[..i + 1][..i] == log[..i] && log[..i + 1][i] == log[i];
    LawfulPrefix(names, max, log, i);
  }

  /** No history of the distributor's steps enters Applied or Acknowledged without a proof received before. */
  lemma EveryActivationIsJustified(names: Derivation, max: nat, log: seq<Entry>)
    requires Lawful(names, max, log)
    ensures Justified(log)
  {
    hide Lawful, Evidenced;
    forall i | 0 <= i < |log| && log[i].Moved? && IsActivationState(log[i].record.state)
      ensures Evidenced(log[..i], log[i].record)
    {
      LawfulAt(names, max, log, i);
    }
  }

  /** In every history offers are for the delivery they name, and moves are of derived deliveries. */
  lemma EverythingSentIsHonest(names: Derivation, max: nat, log: seq<Entry>)
    requires max > 0 && Lawful(names, max, log)
    ensures Honest(names, log)
  {
    hide Lawful, Tracked;
    forall i | 0 <= i < |log| ensures HonestEntry(names, log[i]) {
      LawfulAt(names, max, log, i);
      AllAreTracked(names, max, log[..i]);
    }
  }

  /** Bounded retries, over every history of the distributor's steps: between two re-arms a delivery takes the edge back to
      Prepared at most as often as the budget allows, and within one attempt its states only move forward. */
  lemma BoundedRetries(names: Derivation, max: nat, log: seq<Entry>, id: Id, i: nat, j: nat)
    requires max > 0 && Lawful(names, max, log) && id in Books(log) && i <= j < |Path(log, id)|
    requires forall k :: i <= k <= j ==> Path(log, id)[k] != Failed
    ensures Retries(log, id) <= Allowance(log, id, max) <= max
    ensures Index(Path(log, id)[i]) <= Index(Path(log, id)[j])
  {
    hide Lawful, Evidenced;
    AllAreTracked(names, max, log);
    AllowanceBound(log, id, max);
    ForwardWithinAttempt(Path(log, id), i, j);
  }

  lemma {:induction false} AllowanceBound(log: seq<Entry>, id: Id, max: nat)
    ensures Allowance(log, id, max) <= max
  {
    if log != [] { AllowanceBound(log[..|log| - 1], id, max); }
  }

  /** Until a delivery is re-armed the bound is one less than the attempts. */
  lemma {:induction false} FirstBudget(log: seq<Entry>, id: Id, max: nat)
    requires forall i :: 0 <= i < |log| ==> !(log[i].Rearmed? && log[i].record.id == id)
    requires exists i :: 0 <= i < |log| && log[i].Planned? && log[i].record.id == id
    ensures Allowance(log, id, max) == max - 1
    decreases |log|
  {
    var before, e := log[..|log| - 1], log[|log| - 1];
    if !(e.Planned? && e.record.id == id) {
      var i :| 0 <= i < |log| && log[i].Planned? && log[i].record.id == id;
      assert before[i] == log[i];
      FirstBudget(before, id, max);
    }
  }

  // ---- The bounds are reached ----

  /** Retry and fail again, `n` times. */
  lemma {:induction false} Cycles(names: Derivation, max: nat, log: seq<Entry>, r: DeliveryRecord, n: nat) returns (longer: seq<Entry>)
    requires Lawful(names, max, log) && r.id in Books(log) && Books(log)[r.id] == r && r.state == Failed
    requires r.failures + n <= max && r.failures + n < U32_LIMIT
    ensures Lawful(names, max, longer) && r.id in Books(longer) && Books(longer)[r.id] == r.(failures := r.failures + n)
    ensures Retries(longer, r.id) == Retries(log, r.id) + n
    ensures Allowance(longer, r.id, max) == Allowance(log, r.id, max)
    decreases n
  {
    if n == 0 {
      longer := log;
    } else {
      hide Lawful, Books, Retries, Allowance;
      var retried, failed := r.(state := Prepared), r.(failures := r.failures + 1);
      var there := Retry(names, max, log, r);
      var again := Fail(names, max, there, retried);
      longer := Cycles(names, max, again, failed, n - 1);
    }
  }

  lemma Retry(names: Derivation, max: nat, log: seq<Entry>, r: DeliveryRecord) returns (longer: seq<Entry>)
    requires Lawful(names, max, log) && r.id in Books(log) && Books(log)[r.id] == r && r.state == Failed && r.failures < max
    ensures longer == log + [Moved(r.(state := Prepared), Failed)] && Lawful(names, max, longer)
    ensures Books(longer) == Books(log)[r.id := r.(state := Prepared)]
    ensures Retries(longer, r.id) == Retries(log, r.id) + 1 && Allowance(longer, r.id, max) == Allowance(log, r.id, max)
  {
    var e := Moved(r.(state := Prepared), Failed);
    Snoc(log, e);
    LawfulSnoc(names, max, log, e);
    longer := log + [e];
  }

  lemma Fail(names: Derivation, max: nat, log: seq<Entry>, r: DeliveryRecord) returns (longer: seq<Entry>)
    requires Lawful(names, max, log) && r.id in Books(log) && Books(log)[r.id] == r && r.state == Prepared && r.failures + 1 < U32_LIMIT
    ensures var failed := r.(state := Failed, failures := r.failures + 1);
            && longer == log + [Moved(failed, Prepared)] && Lawful(names, max, longer) && Books(longer) == Books(log)[r.id := failed]
    ensures Retries(longer, r.id) == Retries(log, r.id) && Allowance(longer, r.id, max) == Allowance(log, r.id, max)
  {
    var e := Moved(r.(state := Failed, failures := r.failures + 1), Prepared);
    Snoc(log, e);
    LawfulSnoc(names, max, log, e);
    longer := log + [e];
  }

  lemma PlanFirst(names: Derivation, max: nat, r: DeliveryRecord) returns (log: seq<Entry>)
    requires r.state == Prepared && r.failures == 0 && Derived(names, r)
    ensures log == [Planned(r)] && Lawful(names, max, log) && Books(log) == map[r.id := r]
    ensures Retries(log, r.id) == 0 && Allowance(log, r.id, max) == max - 1
  {
    assert Lawful(names, max, []) && Books([]) == map[];
    LawfulSnoc(names, max, [], Planned(r));
    Snoc([], Planned(r));
    log := [] + [Planned(r)];
  }

  lemma RearmNow(names: Derivation, max: nat, log: seq<Entry>, r: DeliveryRecord) returns (longer: seq<Entry>)
    requires Lawful(names, max, log) && r.id in Books(log) && Books(log)[r.id] == r && r.state == Failed
    ensures longer == log + [Rearmed(r.(failures := 0))] && Lawful(names, max, longer)
    ensures Books(longer) == Books(log)[r.id := r.(failures := 0)]
    ensures Retries(longer, r.id) == 0 && Allowance(longer, r.id, max) == max
  {
    var e := Rearmed(r.(failures := 0));
    Snoc(log, e);
    LawfulSnoc(names, max, log, e);
    longer := log + [e];
  }

  /** Both bounds are reached, for every limit: a delivery planned once and failed whenever it can be takes exactly one
      retry less than the limit and is refused the next; re-armed, the same delivery takes exactly as many as the limit. */
  lemma RearmAllowsOneMore(names: Derivation, max: u32, r: DeliveryRecord) returns (first: seq<Entry>, rearmed: seq<Entry>)
    requires max > 0 && r.state == Prepared && r.failures == 0 && Derived(names, r)
    ensures Lawful(names, max, first) && Retries(first, r.id) == Allowance(first, r.id, max) == max - 1
    ensures forall back: DeliveryRecord :: back.id == r.id && back.state == Prepared ==> !Allowed(names, max, first, Moved(back, Failed))
    ensures Lawful(names, max, rearmed) && Retries(rearmed, r.id) == Allowance(rearmed, r.id, max) == max
  {
    hide Lawful, Books, Retries, Allowance;
    var planned := PlanFirst(names, max, r);
    var failed := Fail(names, max, planned, r);
    first := Cycles(names, max, failed, r.(state := Failed, failures := 1), max - 1);
    var spent := r.(state := Failed, failures := max);
    var again := RearmNow(names, max, first, spent);
    var last := Cycles(names, max, again, spent.(failures := 0), max - 1);
    rearmed := Retry(names, max, last, spent.(failures := max - 1));
  }
}
