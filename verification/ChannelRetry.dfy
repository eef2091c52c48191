/**
 * The bounded retry of one delivery (app/internal/channel/retry.go). Durations are unbounded
 * integers; whether an attempt succeeds and when the context is cancelled is up to the host.
 */
module ChannelRetry {

  datatype Policy = Policy(maxAttempts: int, baseBackoff: nat, maxBackoff: int)

  datatype Outcome = Delivered | Cancelled | GaveUp

  function Attempts(policy: Policy): (n: nat)
    ensures n >= 1
  {
    if policy.maxAttempts < 1 then 1 else policy.maxAttempts
  }

  function Doubled(policy: Policy, backoff: nat): nat {
    if policy.maxBackoff > 0 && 2 * backoff > policy.maxBackoff then policy.maxBackoff else 2 * backoff
  }

  /** The wait after attempt k, counted from 0. */
  ghost function BackoffAt(policy: Policy, k: nat): nat {
    if k == 0 then policy.baseBackoff else Doubled(policy, BackoffAt(policy, k - 1))
  }

  ghost function Pow2(k: nat): nat {
    if k == 0 then 1 else 2 * Pow2(k - 1)
  }

  /** Waits double up to the cap; only the very first may exceed it, when the base does. */
  lemma {:induction false} BackoffDoublesToTheCap(policy: Policy, k: nat)
    ensures var plain := policy.baseBackoff * Pow2(k);
            BackoffAt(policy, k) ==
              if k > 0 && policy.maxBackoff > 0 && plain > policy.maxBackoff then policy.maxBackoff else plain
  {
    if k > 0 {
      BackoffDoublesToTheCap(policy, k - 1);
      assert policy.baseBackoff * Pow2(k) == 2 * (policy.baseBackoff * Pow2(k - 1));
    }
  }

  /** The context and the receiving end, which may do anything; a cancelled context stays cancelled. */
  class Host {
    var cancelled: bool
    ghost var results: seq<bool> // how each attempt went
    ghost var waits: seq<nat>    // the waits between them

    constructor ()
      ensures results == [] && waits == [] && !cancelled
    {
      cancelled, results, waits := false, [], [];
    }

    method Attempt() returns (ok: bool)
      modifies this
      ensures results == old(results) + [ok] && waits == old(waits) && (old(cancelled) ==> cancelled)
    {
      ok := *;
      var stop: bool := *;
      cancelled, results := cancelled || stop, results + [ok];
    }

    /** False when the context was cancelled before the wait was over. */
    method Wait(backoff: nat) returns (waited: bool)
      modifies this
      ensures results == old(results) && (old(cancelled) ==> cancelled)
      ensures if waited then waits == old(waits) + [backoff] else cancelled && waits == old(waits)
    {
      var stop: bool := *;
      cancelled := cancelled || stop;
      var expired: bool := *;
      waited := expired || !cancelled;
      if waited {
        waits := waits + [backoff];
      }
    }
  }

  /** Never more than the attempts allowed, each failed one but the last followed by its wait. */
  method Retry(host: Host, policy: Policy) returns (made: nat, outcome: Outcome)
    requires host.results == [] && host.waits == []
    modifies host
    ensures 1 <= made && (made == 1 || made <= policy.maxAttempts) && |host.results| == made
    ensures forall k :: 0 <= k < made - 1 ==> !host.results[k]
    ensures outcome == Delivered <==> host.results[made - 1]
    ensures outcome == GaveUp ==> policy.maxAttempts <= made
    ensures outcome == Cancelled ==> host.cancelled && made < policy.maxAttempts
    ensures |host.waits| == made - 1
    ensures forall k :: 0 <= k < |host.waits| ==> host.waits[k] == BackoffAt(policy, k)
  {
    hide Doubled;
    var allowed := Attempts(policy);
    var backoff := policy.baseBackoff;
    made := 0;
    while made < allowed
      invariant made <= allowed && |host.results| == made
      invariant made < allowed ==> |host.waits| == made && backoff == BackoffAt(policy, made)
      invariant made == allowed ==> |host.waits| == made - 1
      invariant forall k :: 0 <= k < |host.waits| ==> host.waits[k] == BackoffAt(policy, k)
      invariant forall k :: 0 <= k < made ==> !host.results[k]
    {
      var ok := host.Attempt();
      made := made + 1;
      if ok {
        return made, Delivered;
      }
      if made == allowed {
        break;
      }
      var waited := host.Wait(backoff);
      if !waited {
        return made, Cancelled;
      }
      backoff := Doubled(policy, backoff);
    }
    return made, GaveUp;
  }
}
