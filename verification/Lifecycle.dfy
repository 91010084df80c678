/** The delivery lifecycle (src/lifecycle.cpp): states, the transition table and its predicates. */
module Lifecycle {
  import opened Prelude

  datatype DeliveryState =
    | Prepared | Offered | Transferred | Verified | Staged
    | Applied | Acknowledged | Failed | Rejected | Retired

  predicate IsActivationState(s: DeliveryState) {
    s == Applied || s == Acknowledged
  }

  predicate IsTerminalState(s: DeliveryState) {
    s == Acknowledged || s == Rejected || s == Retired
  }

  predicate IsPendingState(s: DeliveryState) {
    s == Prepared || s == Offered || s == Transferred || s == Verified || s == Staged || s == Applied || s == Failed
  }

  /** The position of a state in the table (`indexOf`). */
  function Index(s: DeliveryState): (i: nat)
    ensures i < 10
  {
    match s
    case Prepared => 0
    case Offered => 1
    case Transferred => 2
    case Verified => 3
    case Staged => 4
    case Applied => 5
    case Acknowledged => 6
    case Failed => 7
    case Rejected => 8
    case Retired => 9
  }

  /** `kTransitions`: row is the state left, column the state entered. */
  const TRANSITIONS: seq<seq<bool>> := [
    //  Prep   Offr   Xfer   Veri   Stag   Appl   Ackd   Fail   Rejc   Retd
    [false, true, false, false, false, true, false, true, true, true],
    [false, false, true, false, false, true, false, true, true, true],
    [false, false, false, true, false, true, false, true, true, true],
    [false, false, false, false, true, true, false, true, true, true],
    [false, false, false, false, false, true, false, true, true, true],
    [false, false, false, false, false, false, true, true, false, true],
    [false, false, false, false, false, false, false, false, false, true],
    [true, false, false, false, false, true, false, false, true, true],
    [false, false, false, false, false, false, false, false, false, true],
    [false, false, false, false, false, false, false, false, false, false]
  ]

  predicate IsLegalTransition(from: DeliveryState, to: DeliveryState) {
    TRANSITIONS[Index(from)][Index(to)]
  }

  datatype TransitionError = IllegalTransition(from: DeliveryState, to: DeliveryState)

  function ApplyTransition(from: DeliveryState, to: DeliveryState): Result<DeliveryState, TransitionError> {
    if IsLegalTransition(from, to) then Ok(to) else Err(IllegalTransition(from, to))
  }

  /** A walk through the table: each step is legal. */
  predicate LegalWalk(path: seq<DeliveryState>) {
    forall i :: 0 < i < |path| ==> IsLegalTransition(path[i - 1], path[i])
  }

  /** Every happy-path state before activation, in order. */
  predicate IsPreActivation(s: DeliveryState) {
    Index(s) <= 4
  }

  /** What the table says about a single step, grouped by what the documentation promises of each state. */
  lemma StepShape(from: DeliveryState, to: DeliveryState)
    requires IsLegalTransition(from, to)
    ensures from != Retired && from != to
    ensures to == Acknowledged ==> from == Applied
    ensures to == Prepared ==> from == Failed
    ensures IsTerminalState(from) ==> to == Retired
    ensures IsPreActivation(from) && IsPreActivation(to) ==> Index(to) == Index(from) + 1
    ensures from == Failed && IsPreActivation(to) ==> to == Prepared
    ensures from == Applied ==> to == Acknowledged || to == Failed || to == Retired
  {
    var f, t := Index(from), Index(to);
    assert TRANSITIONS[f][t];
  }

  /** The whole table: the happy path goes one state on, activation can be found at any state before it and after a
      failure, anything underway can fail, anything not yet applied can be rejected, a failed delivery starts again, and
      everything but Retired can be retired. */
  lemma LegalIff(from: DeliveryState, to: DeliveryState)
    ensures IsLegalTransition(from, to) <==>
              match to
              case Prepared => from == Failed
              case Offered => from == Prepared
              case Transferred => from == Offered
              case Verified => from == Transferred
              case Staged => from == Verified
              case Applied => IsPreActivation(from) || from == Failed
              case Acknowledged => from == Applied
              case Failed => IsPreActivation(from) || from == Applied
              case Rejected => IsPreActivation(from) || from == Failed
              case Retired => from != Retired
  {
    var row := TRANSITIONS[Index(from)];
    assert row[Index(to)] == IsLegalTransition(from, to);
  }

  /** Acknowledged is only ever reached through Applied, however long the walk. */
  lemma AcknowledgedThroughApplied(path: seq<DeliveryState>, i: nat)
    requires LegalWalk(path)
    requires i < |path| && path[i] == Acknowledged && path[0] != Acknowledged
    ensures exists j :: 0 <= j < i && path[j] == Applied
  {
    if i > 0 {
      StepShape(path[i - 1], path[i]);
      assert path[i - 1] == Applied;
    }
  }

  /** Between two re-entries at Prepared the happy path only moves forward: if neither endpoint is a
      failure and no state in between is Failed, the position never decreases. */
  lemma {:induction false} ForwardWithinAttempt(path: seq<DeliveryState>, i: nat, j: nat)
    requires LegalWalk(path)
    requires i <= j < |path|
    requires forall k :: i <= k <= j ==> path[k] != Failed
    ensures Index(path[j]) - Index(path[i]) >= 0
    ensures i < j && Index(path[j]) <= 6 ==> Index(path[i]) < Index(path[j])
    decreases j - i
  {
    if i < j {
      ForwardWithinAttempt(path, i, j - 1);
      StepForward(path[j - 1], path[j]);
    }
  }

  lemma StepForward(from: DeliveryState, to: DeliveryState)
    requires IsLegalTransition(from, to) && from != Failed
    ensures Index(from) < Index(to)
  {
    var f, t := Index(from), Index(to);
    assert TRANSITIONS[f][t];
  }
}
