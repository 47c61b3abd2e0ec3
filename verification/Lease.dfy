/**
 The lease heartbeat: one operation raced against renewals. The outside world
 is a schedule: when the operation becomes ready, and what the k-th renewal
 answers and how long it takes.
 */
module Lease {
  import opened Wrappers

  /** The renewal interval is never shorter than one millisecond. */
  const MINIMUM_INTERVAL := 1

  datatype Heartbeat = CancelOnLoss(interval: nat) | DrainOnLoss(interval: nat)

  /** The larger of the wanted interval and the minimum. */
  function Interval(h: Heartbeat): (i: Positive)
    ensures i >= h.interval && i >= MINIMUM_INTERVAL && (i == h.interval || i == MINIMUM_INTERVAL)
  {
    if h.interval < MINIMUM_INTERVAL then MINIMUM_INTERVAL else h.interval
  }

  /** What the k-th renewal answers, and how long its answer takes. */
  type Answers<!E> = nat -> Option<E>
  type Delays = nat -> nat

  /** When the k-th renewal starts, as long as all before it succeed. */
  function Start(h: Heartbeat, delays: Delays, k: nat): nat {
    (if k == 0 then 0 else Start(h, delays, k - 1) + delays(k - 1)) + Interval(h)
  }

  /** When the first `n` renewals have all been answered. */
  function Answered(h: Heartbeat, delays: Delays, n: nat): nat {
    if n == 0 then 0 else Start(h, delays, n - 1) + delays(n - 1)
  }

  /** Renewal `k` is due before the operation is ready, and fails. */
  ghost predicate Lost<E>(h: Heartbeat, ready: nat, answers: Answers<E>, delays: Delays, k: nat) {
    Start(h, delays, k) < ready && answers(k).Some?
  }

  /** Renewals start strictly one after another, at least an interval apart. */
  lemma {:induction false} StartsIncrease(h: Heartbeat, delays: Delays, j: nat, k: nat)
    requires j <= k
    ensures Start(h, delays, j) + (k - j) * Interval(h) <= Start(h, delays, k)
    decreases k
  {
    if j < k {
      StartsIncrease(h, delays, j, k - 1);
      OneMore(k - 1 - j, Interval(h));
    }
  }

  lemma OneMore(n: nat, i: nat)
    ensures (n + 1) * i == n * i + i
  {
  }

  lemma {:induction false} StartsOrdered(h: Heartbeat, delays: Delays, j: nat, k: nat)
    requires j <= k
    ensures Start(h, delays, j) <= Start(h, delays, k)
    decreases k
  {
    if j < k { StartsOrdered(h, delays, j, k - 1); }
  }

  /** The first `n` renewals are due before the operation is ready, and succeed. */
  ghost predicate Renewed<E>(h: Heartbeat, ready: nat, answers: Answers<E>, delays: Delays, n: nat) {
    forall k: nat :: k < n ==> Start(h, delays, k) < ready && answers(k).None?
  }

  ghost predicate Keeps<E>(h: Heartbeat, ready: nat, answers: Answers<E>, delays: Delays) {
    forall k: nat :: !Lost(h, ready, answers, delays, k)
  }

  lemma RenewedToTheEnd<E>(h: Heartbeat, ready: nat, answers: Answers<E>, delays: Delays, n: nat)
    requires Renewed(h, ready, answers, delays, n) && Start(h, delays, n) >= ready
    ensures Keeps(h, ready, answers, delays)
    ensures forall k: nat :: k < n <==> Start(h, delays, k) < ready
  {
    forall k: nat | k >= n ensures Start(h, delays, k) >= ready {
      StartsOrdered(h, delays, n, k);
    }
  }

  /**
   Runs the operation under the heartbeat. It returns the operation's output
   exactly when no renewal due before the operation was ready fails, and
   otherwise the error of the first that does; draining always sees the
   operation through, cancelling returns as soon as the failure is known.
   */
  method Run<T, E>(h: Heartbeat, output: T, ready: nat, answers: Answers<E>, delays: Delays)
    returns (result: Result<T, E>, end: nat, calls: nat)
    ensures result.Ok? <==> Keeps(h, ready, answers, delays)
    ensures result.Ok? ==> result.value == output
    ensures result.Ok? ==> forall k: nat :: k < calls <==> Start(h, delays, k) < ready
    ensures result.Err? ==> calls > 0 && Renewed(h, ready, answers, delays, calls - 1)
                            && Start(h, delays, calls - 1) < ready && answers(calls - 1) == Some(result.error)
    ensures var known := Answered(h, delays, calls);
            end == if (result.Ok? || h.DrainOnLoss?) && known < ready then ready else known
  {
    var interval := Interval(h);
    var now, due := 0, interval;
    calls := 0;
    while due < ready
      invariant now == Answered(h, delays, calls) && due == now + interval
      invariant Renewed(h, ready, answers, delays, calls)
      decreases ready - due
    {
      now := due + delays(calls);
      var answer := answers(calls);
      calls := calls + 1;
      if answer.Some? {
        end := if h.DrainOnLoss? && now < ready then ready else now;
        assert Lost(h, ready, answers, delays, calls - 1);
        return Err(answer.value), end, calls;
      }
      due := now + interval;
    }
    RenewedToTheEnd(h, ready, answers, delays, calls);
    end := if now < ready then ready else now;
    result := Ok(output);
  }
}
