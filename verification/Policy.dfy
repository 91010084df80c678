/** The decision about one delivery (src/policy.cpp): which action to take, and how long to wait before a retry. */
module Policy {
  import opened Prelude
  import opened Lifecycle
  import opened AgentState

  datatype DistributorPolicy = DistributorPolicy(
    maxAttempts: u32, retryBackoff: i64, maxBackoff: i64, requireAcknowledgement: bool, livenessFreshness: i64)

  /** The part of `validate` that concerns decisions. */
  predicate Valid(p: DistributorPolicy) {
    p.maxAttempts != 0 && 0 <= p.retryBackoff <= p.maxBackoff && p.livenessFreshness > 0
  }

  // ---- Backoff ----

  function Doubled(base: nat, times: nat): nat {
    if times == 0 then base else 2 * Doubled(base, times - 1)
  }

  function Min(a: int, b: int): int {
    if a <= b then a else b
  }

  /** base * 2^min(failures, 16), but never more than the ceiling. */
  function Backoff(p: DistributorPolicy, failures: u32): (b: i64)
    requires Valid(p)
    ensures p.retryBackoff <= b <= p.maxBackoff
  {
    DoubledGrows(p.retryBackoff, 0, Min(failures, 16));
    Min(p.maxBackoff, Doubled(p.retryBackoff, Min(failures, 16)))
  }

  lemma {:induction false} DoubledGrows(base: nat, i: nat, j: nat)
    requires i <= j
    ensures Doubled(base, i) <= Doubled(base, j)
    decreases j
  {
    if i < j { DoubledGrows(base, i, j - 1); }
  }

  /** `backoffFor`: the loop stops early at the ceiling, and its checked multiplication never fails. */
  method BackoffFor(p: DistributorPolicy, failures: u32) returns (delay: i64)
    requires Valid(p)
    ensures delay == Backoff(p, failures)
  {
    var ceiling: u64 := p.maxBackoff;
    var current: u64 := p.retryBackoff;
    var capped := if failures > 16 then 16 else failures;
    var i := 0;
    while i < capped
      invariant 0 <= i <= capped
      invariant current == Doubled(p.retryBackoff, i)
    {
      if current >= ceiling {
        DoubledGrows(p.retryBackoff, i, capped);
        return ceiling;
      }
      var doubled := CheckedMul(current, 2);
      assert doubled.Some?;
      current := doubled.value;
      i := i + 1;
    }
    delay := if current > ceiling then ceiling else current;
  }

  /** Waits never shrink as failures accumulate. */
  lemma BackoffMonotone(p: DistributorPolicy, f: u32, g: u32)
    requires Valid(p) && f <= g
    ensures Backoff(p, f) <= Backoff(p, g)
  {
    DoubledGrows(p.retryBackoff, Min(f, 16), Min(g, 16));
  }

  // ---- Decisions ----

  datatype Action =
    | NoAction | Offer | ResumeTransfer | Activate | Reconcile | Wait(millis: int)
    | RecordFailureAndRetry | Reject | GiveUp | Retire

  datatype DecisionInput = DecisionInput(
    state: DeliveryState, failures: u32, targetGuarantee: Guarantee, requirement: Requirement,
    desiredGeneration: u64, targetGeneration: u64, targetLive: bool, livenessEvidenceStale: bool,
    targetApplyPrepared: bool, artifactAvailable: bool, resumableTransfer: bool, superseded: bool, sinceLastAttempt: int)

  function Decide(p: DistributorPolicy, i: DecisionInput): Action
    requires Valid(p)
  {
    if i.superseded || (i.targetGeneration != 0 && i.targetGeneration > i.desiredGeneration) then Retire
    else if !GuaranteeSatisfies(i.targetGuarantee, i.requirement) then Reject
    else if !i.artifactAvailable then
      if i.state == Prepared then Reject
      else if i.failures >= p.maxAttempts then GiveUp
      else RecordFailureAndRetry
    else if IsTerminalState(i.state) then NoAction
    else if i.state == Applied then if p.requireAcknowledgement then Reconcile else NoAction
    else if i.state == Failed then
      if i.failures >= p.maxAttempts then GiveUp
      else if i.sinceLastAttempt < Backoff(p, i.failures) then Wait(Backoff(p, i.failures) - i.sinceLastAttempt)
      else Offer
    else if i.livenessEvidenceStale then Reconcile
    else if i.targetApplyPrepared then Reconcile
    else if !i.targetLive then Reconcile
    else
      match i.state
      case Prepared => Offer
      case Offered => if i.resumableTransfer then ResumeTransfer else Offer
      case Transferred => if i.resumableTransfer then ResumeTransfer else Offer
      case Verified => Activate
      case Staged => Activate
      case _ => NoAction
  }

  predicate Pushes(a: Action) {
    a == Offer || a == ResumeTransfer || a == Activate
  }

  /** Guard order: nothing is ever pushed at a target that has moved past it, cannot give the guarantee, or whose
      evidence is not current; and the retry budget gates the only way out of Failed. */
  lemma PushesAreGuarded(p: DistributorPolicy, i: DecisionInput)
    requires Valid(p) && Pushes(Decide(p, i))
    ensures !i.superseded && (i.targetGeneration != 0 ==> i.targetGeneration <= i.desiredGeneration)
    ensures GuaranteeSatisfies(i.targetGuarantee, i.requirement) && i.artifactAvailable
    ensures IsPreActivation(i.state) || i.state == Failed
    ensures i.state != Failed ==> i.targetLive && !i.livenessEvidenceStale && !i.targetApplyPrepared
    ensures i.state == Failed ==> i.failures < p.maxAttempts && i.sinceLastAttempt >= Backoff(p, i.failures)
    ensures Decide(p, i) == Activate ==> i.state == Verified || i.state == Staged
  {
  }

  /** Nothing speaks against the delivery: no newer one is wanted or there, the target can give the guarantee, and the
      artifact is at hand. */
  predicate Clear(i: DecisionInput) {
    && !i.superseded && (i.targetGeneration == 0 || i.targetGeneration <= i.desiredGeneration)
    && GuaranteeSatisfies(i.targetGuarantee, i.requirement) && i.artifactAvailable
  }

  /** The target is live by current evidence and holds no window open. */
  predicate Ready(i: DecisionInput) {
    i.targetLive && !i.livenessEvidenceStale && !i.targetApplyPrepared
  }

  /** When the policy acts, for every input: what is not verified yet is offered or resumed, what is verified or staged is
      activated, a failed delivery is retried within its budget and after its wait, and given up exactly when the budget
      is spent. */
  lemma ActsExactlyWhen(p: DistributorPolicy, i: DecisionInput)
    requires Valid(p)
    ensures Decide(p, i) == Activate <==> Clear(i) && Ready(i) && (i.state == Verified || i.state == Staged)
    ensures Decide(p, i) == Offer || Decide(p, i) == ResumeTransfer <==>
              Clear(i) && (if i.state == Failed then i.failures < p.maxAttempts && i.sinceLastAttempt >= Backoff(p, i.failures)
                           else Ready(i) && (i.state == Prepared || i.state == Offered || i.state == Transferred))
    ensures Clear(i) && i.state == Failed ==> (Decide(p, i) == GiveUp <==> i.failures >= p.maxAttempts)
    ensures Decide(p, i) == Retire <==> i.superseded || (i.targetGeneration != 0 && i.targetGeneration > i.desiredGeneration)
    ensures Clear(i) ==> (Decide(p, i) == NoAction <==> IsTerminalState(i.state) || (i.state == Applied && !p.requireAcknowledgement))
  {
  }

  /** When it does not act, for every input: what it rejects, gives up, counts as a failure, waits for and asks the target
      about. Whether an offer resumes is decided by what the target reported. */
  lemma HoldsBackExactlyWhen(p: DistributorPolicy, i: DecisionInput)
    requires Valid(p)
    ensures var wanted := !i.superseded && (i.targetGeneration == 0 || i.targetGeneration <= i.desiredGeneration);
            var possible := wanted && GuaranteeSatisfies(i.targetGuarantee, i.requirement);
            && (Decide(p, i) == Reject <==> wanted && (possible ==> !i.artifactAvailable && i.state == Prepared))
            && (Decide(p, i) == GiveUp <==>
                  possible && i.failures >= p.maxAttempts && (if i.artifactAvailable then i.state == Failed else i.state != Prepared))
            && (Decide(p, i) == RecordFailureAndRetry <==>
                  possible && !i.artifactAvailable && i.state != Prepared && i.failures < p.maxAttempts)
    ensures Decide(p, i).Wait? <==>
              Clear(i) && i.state == Failed && i.failures < p.maxAttempts && i.sinceLastAttempt < Backoff(p, i.failures)
    ensures Decide(p, i) == Reconcile <==>
              Clear(i) && !IsTerminalState(i.state) && i.state != Failed && (if i.state == Applied then p.requireAcknowledgement else !Ready(i))
    ensures Decide(p, i) == ResumeTransfer <==>
              Clear(i) && Ready(i) && i.resumableTransfer && (i.state == Offered || i.state == Transferred)
  {
  }

  /** The budget is only ever declared exhausted when it is. */
  lemma GiveUpMeansExhausted(p: DistributorPolicy, i: DecisionInput)
    requires Valid(p)
    ensures Decide(p, i) == GiveUp ==> i.failures >= p.maxAttempts
    ensures Decide(p, i).Wait? ==>
              i.state == Failed && i.failures < p.maxAttempts && i.sinceLastAttempt + Decide(p, i).millis == Backoff(p, i.failures)
    ensures i.state == Failed && i.failures >= p.maxAttempts ==> !Pushes(Decide(p, i))
  {
  }
}
