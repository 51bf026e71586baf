/** The SDK's circuit breaker and what its traces look like (pkg/client/circuit_breaker.go). */
module Breakers {
  import opened Domain

  datatype Circuit = Closed | Open | HalfOpen

  datatype BreakerState = BreakerState(
    circuit: Circuit,
    failures: nat,
    successes: nat,
    threshold: nat,
    cooldown: int,
    lastChange: int)

  function NewBreaker(threshold: int, cooldown: int, now: int): BreakerState {
    BreakerState(Closed, 0, 0, if threshold <= 0 then 5 else threshold,
                 if cooldown <= 0 then 10 * SECOND else cooldown, now)
  }

  datatype BreakerOp = Probe(now: int) | Allow(now: int) | Success(now: int) | Failure(now: int)

  function Cooled(b: BreakerState, now: int): BreakerState {
    if b.circuit.Open? && now - b.lastChange >= b.cooldown then b.(circuit := HalfOpen, lastChange := now) else b
  }

  function Succeeded(b: BreakerState, now: int): BreakerState {
    match b.circuit
    case Closed => b.(failures := 0)
    case Open => b
    case HalfOpen =>
      if b.successes + 1 >= 2 then b.(circuit := Closed, failures := 0, successes := 0, lastChange := now)
      else b.(successes := b.successes + 1)
  }

  function Failed(b: BreakerState, now: int): BreakerState {
    var b' := b.(failures := b.failures + 1, successes := 0);
    if b.circuit.HalfOpen? || b'.failures >= b.threshold then b'.(circuit := Open, lastChange := now) else b'
  }

  function BreakerStep(b: BreakerState, op: BreakerOp): BreakerState {
    match op
    case Probe(now) => Cooled(b, now)
    case Allow(now) => Cooled(b, now)
    case Success(now) => Succeeded(b, now)
    case Failure(now) => Failed(b, now)
  }

  class CircuitBreaker {
    var circuit: Circuit
    var failureCount: nat
    var consecutiveSucc: nat
    var failureThreshold: nat
    var cooldown: int
    var lastStateChange: int

    ghost function Model(): BreakerState
      reads this
    {
      BreakerState(circuit, failureCount, consecutiveSucc, failureThreshold, cooldown, lastStateChange)
    }

    constructor (threshold: int, cool: int, now: int)
      ensures Model() == NewBreaker(threshold, cool, now)
    {
      circuit, failureCount, consecutiveSucc, lastStateChange := Closed, 0, 0, now;
      failureThreshold := if threshold <= 0 then 5 else threshold;
      cooldown := if cool <= 0 then 10 * SECOND else cool;
    }

    method State(now: int) returns (s: Circuit)
      modifies this
      ensures Model() == BreakerStep(old(Model()), Probe(now)) && s == circuit
    {
      if circuit == Open && now - lastStateChange >= cooldown {
        circuit, lastStateChange := HalfOpen, now;
      }
      return circuit;
    }

    method Allow(now: int) returns (allowed: bool)
      modifies this
      ensures Model() == BreakerStep(old(Model()), BreakerOp.Allow(now))
      ensures allowed <==> !circuit.Open?
    {
      if circuit == Closed {
        return true;
      }
      if circuit == Open {
        if now - lastStateChange >= cooldown {
          circuit, lastStateChange := HalfOpen, now;
          return true;
        }
        return false;
      }
      return true;
    }

    method OnSuccess(now: int)
      modifies this
      ensures Model() == BreakerStep(old(Model()), Success(now))
    {
      if circuit == HalfOpen {
        consecutiveSucc := consecutiveSucc + 1;
        if consecutiveSucc >= 2 {
          circuit, failureCount, consecutiveSucc, lastStateChange := Closed, 0, 0, now;
        }
      } else if circuit == Closed {
        failureCount := 0;
      }
    }

    method OnFailure(now: int)
      modifies this
      ensures Model() == BreakerStep(old(Model()), Failure(now))
    {
      failureCount := failureCount + 1;
      consecutiveSucc := 0;
      if circuit == HalfOpen || failureCount >= failureThreshold {
        circuit, lastStateChange := Open, now;
      }
    }
  }

  // ----- What a trace says, without looking inside the breaker -----

  predicate Quiet(op: BreakerOp) {
    op.Probe? || op.Allow?
  }

  // Failures reported since the last reported success.
  function FailureStreak(ops: seq<BreakerOp>, n: nat): nat
    requires n <= |ops|
  {
    if n == 0 || ops[n - 1].Success? then 0
    else FailureStreak(ops, n - 1) + (if ops[n - 1].Failure? then 1 else 0)
  }

  function LastFailure(ops: seq<BreakerOp>, n: nat): Option<int>
    requires n <= |ops|
  {
    if n == 0 then None else if ops[n - 1].Failure? then Some(ops[n - 1].now) else LastFailure(ops, n - 1)
  }

  ghost predicate BreakerStepAt(bs: seq<BreakerState>, ops: seq<BreakerOp>, i: nat)
    requires |bs| == |ops| + 1 && i < |ops|
  {
    bs[i + 1] == BreakerStep(bs[i], ops[i])
  }

  ghost predicate BreakerRun(bs: seq<BreakerState>, ops: seq<BreakerOp>) {
    && |bs| == |ops| + 1
    && (exists threshold, cooldown, now :: bs[0] == NewBreaker(threshold, cooldown, now))
    && forall i :: 0 <= i < |ops| ==> BreakerStepAt(bs, ops, i)
  }

  // Step m was a success in half-open state, and nothing but probes has happened since.
  ghost predicate ProbeSucceeded(bs: seq<BreakerState>, ops: seq<BreakerOp>, m: nat, n: nat)
    requires |bs| == |ops| + 1 && n <= |ops|
  {
    m < n && ops[m].Success? && bs[m].circuit.HalfOpen?
    && forall i :: m < i < n ==> Quiet(ops[i]) && bs[i].circuit.HalfOpen?
  }

  /** What the counters mean in every state of every run. */
  ghost predicate Meaning(bs: seq<BreakerState>, ops: seq<BreakerOp>, n: nat)
    requires |bs| == |ops| + 1 && n <= |ops|
  {
    var b := bs[n];
    && b.threshold == bs[0].threshold > 0 && b.cooldown == bs[0].cooldown
    && match b.circuit
       case Closed => b.successes == 0 && b.failures == FailureStreak(ops, n) < b.threshold
       case Open => b.successes == 0 && b.failures >= b.threshold && LastFailure(ops, n) == Some(b.lastChange)
       case HalfOpen =>
         && b.failures >= b.threshold && b.successes <= 1
         && (b.successes == 1 ==> exists m :: ProbeSucceeded(bs, ops, m, n))
  }

  lemma {:induction false} RunMeaning(bs: seq<BreakerState>, ops: seq<BreakerOp>, n: nat)
    requires BreakerRun(bs, ops) && n <= |ops|
    ensures Meaning(bs, ops, n)
  {
    if n > 0 {
      RunMeaning(bs, ops, n - 1);
      assert BreakerStepAt(bs, ops, n - 1);
      var b, b' := bs[n - 1], bs[n];
      if b'.circuit.HalfOpen? && b'.successes == 1 {
        if b.successes == 1 {
          var m :| ProbeSucceeded(bs, ops, m, n - 1);
          assert ProbeSucceeded(bs, ops, m, n);
        } else {
          assert ProbeSucceeded(bs, ops, n - 1, n);
        }
      }
    }
  }

  /** The breaker leaves the closed state exactly at the failure that completes a streak of threshold failures. */
  lemma {:induction false} TripsExactlyAtThreshold(bs: seq<BreakerState>, ops: seq<BreakerOp>, n: nat)
    requires BreakerRun(bs, ops) && n < |ops| && bs[n].circuit.Closed?
    ensures !bs[n + 1].circuit.Closed? <==> FailureStreak(ops, n + 1) == bs[0].threshold
    ensures !bs[n + 1].circuit.Closed? ==> bs[n + 1].circuit.Open? && ops[n].Failure?
    ensures FailureStreak(ops, n + 1) <= bs[0].threshold
  {
    RunMeaning(bs, ops, n);
    assert BreakerStepAt(bs, ops, n);
  }

  /** While open, a request is let through exactly when a full cooldown has passed since the latest failure. */
  lemma {:induction false} OpenRefusesUntilCooled(bs: seq<BreakerState>, ops: seq<BreakerOp>, n: nat)
    requires BreakerRun(bs, ops) && n < |ops| && bs[n].circuit.Open? && ops[n].Allow?
    ensures LastFailure(ops, n).Some?
    ensures !bs[n + 1].circuit.Open? <==> ops[n].now - LastFailure(ops, n).value >= bs[0].cooldown
  {
    RunMeaning(bs, ops, n);
    assert BreakerStepAt(bs, ops, n);
  }

  /** The breaker closes again exactly at the second of two half-open successes with no outcome between them. */
  lemma {:induction false} ClosesExactlyAfterTwoProbes(bs: seq<BreakerState>, ops: seq<BreakerOp>, n: nat)
    requires BreakerRun(bs, ops) && n < |ops| && !bs[n].circuit.Closed?
    ensures bs[n + 1].circuit.Closed? <==>
            && ops[n].Success? && bs[n].circuit.HalfOpen?
            && exists m :: ProbeSucceeded(bs, ops, m, n)
  {
    RunMeaning(bs, ops, n);
    assert BreakerStepAt(bs, ops, n);
    if m: nat :| ProbeSucceeded(bs, ops, m, n) {
      StillOneSuccess(bs, ops, m, n);
    }
  }

  lemma {:induction false} StillOneSuccess(bs: seq<BreakerState>, ops: seq<BreakerOp>, m: nat, n: nat)
    requires BreakerRun(bs, ops) && n <= |ops| && ProbeSucceeded(bs, ops, m, n)
    ensures bs[n].circuit.HalfOpen? ==> bs[n].successes == 1
  {
    RunMeaning(bs, ops, n - 1);
    assert BreakerStepAt(bs, ops, n - 1);
    if m < n - 1 {
      assert ProbeSucceeded(bs, ops, m, n - 1);
      StillOneSuccess(bs, ops, m, n - 1);
    }
  }

  /** While half-open one failure opens the breaker again, and reading or asking changes nothing. */
  lemma {:induction false} HalfOpenIsFragile(bs: seq<BreakerState>, ops: seq<BreakerOp>, n: nat)
    requires BreakerRun(bs, ops) && n < |ops| && bs[n].circuit.HalfOpen?
    ensures bs[n + 1].circuit.Open? <==> ops[n].Failure?
    ensures Quiet(ops[n]) ==> bs[n + 1] == bs[n]
  {
    RunMeaning(bs, ops, n);
    assert BreakerStepAt(bs, ops, n);
  }

  /** Open is left only by looking at it after the cooldown; no reported outcome ends it. */
  lemma {:induction false} OpenIsLeftByLooking(bs: seq<BreakerState>, ops: seq<BreakerOp>, n: nat)
    requires BreakerRun(bs, ops) && n < |ops| && bs[n].circuit.Open?
    ensures LastFailure(ops, n).Some?
    ensures !bs[n + 1].circuit.Open? <==> Quiet(ops[n]) && ops[n].now - LastFailure(ops, n).value >= bs[0].cooldown
    ensures !bs[n + 1].circuit.Open? ==> bs[n + 1].circuit.HalfOpen?
  {
    RunMeaning(bs, ops, n);
    assert BreakerStepAt(bs, ops, n);
  }

  /** The time it keeps is that of the latest change of state, or of the latest failure while open. */
  lemma {:induction false} ChangesAreDated(bs: seq<BreakerState>, ops: seq<BreakerOp>, n: nat)
    requires BreakerRun(bs, ops) && n < |ops|
    ensures bs[n + 1].lastChange ==
              if bs[n + 1].circuit != bs[n].circuit || (bs[n].circuit.Open? && ops[n].Failure?) then ops[n].now
              else bs[n].lastChange
  {
    RunMeaning(bs, ops, n);
    assert BreakerStepAt(bs, ops, n);
  }

  /** A breaker starts closed; without a sensible threshold or cooldown it takes five failures and ten seconds. */
  lemma {:induction false} StartsClosed(threshold: int, cooldown: int, now: int)
    ensures var b := NewBreaker(threshold, cooldown, now);
            && b.circuit == Closed
            && b.threshold == (if threshold > 0 then threshold else 5)
            && b.cooldown == (if cooldown > 0 then cooldown else 10_000_000_000)
  {
  }
}
