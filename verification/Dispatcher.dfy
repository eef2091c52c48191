/**
 * The session dispatcher (app/internal/dispatch/dispatcher.go): a consumer with a durable
 * cursor that fans each event of a session's log out to its channels, holds the head event
 * while a repair is expected, and appends delivery failures to the log it reads.
 */
module Dispatcher {
  import opened Wrappers
  import opened Events
  import opened Relay
  import opened Deliveries
  import opened ChannelHealth

  const REPAIR_HOLD_LIMIT := 30 * 60 * 1_000_000_000

  function LongestId(log: seq<Event>): (n: nat)
    ensures forall k :: 0 <= k < |log| ==> |log[k].id| <= n
  {
    if log == [] then 0
    else
      var n := LongestId(log[1..]);
      if |log[0].id| > n then |log[0].id| else n
  }

  /** An id no event in the log has; the store mints ULIDs. */
  function MintId(log: seq<Event>): (id: string)
    ensures id != "" && forall k :: 0 <= k < |log| ==> log[k].id != id
  {
    seq(LongestId(log) + 1, _ => '0')
  }

  /** How a drain ended; it is skipped when the cursor or the log cannot be read. */
  datatype Ending = Finished | HeldBack | Cancelled | Skipped

  ghost predicate AllFinished(endings: seq<Ending>) {
    forall k :: 0 <= k < |endings| ==> endings[k] == Finished
  }

  lemma {:induction false} OneMoreEnding(endings: seq<Ending>, end: Ending)
    ensures AllFinished(endings + [end]) <==> AllFinished(endings) && end == Finished
  {
    assert (endings + [end])[|endings|] == end;
    assert forall k :: 0 <= k < |endings| ==> (endings + [end])[k] == endings[k];
  }

  class Session {
    const wiring: Wiring
    const repairWait: bool // an awaitingRepair predicate was injected
    // durable
    var log: seq<Event>
    var cursor: int
    var seeded: bool
    var health: Option<Health>
    // one lifetime
    var held: Held
    var cancelled: bool
    var now: int

    ghost var sent: seq<Delivery>     // successful deliveries, over all lifetimes
    ghost var outcomes: seq<Outcome>  // what the streak was told, over all lifetimes
    ghost var origin: nat             // where the cursor was seeded
    ghost var heldAt: nat             // the place of the held event
    ghost var lifeStart: nat          // how many deliveries precede this lifetime
    ghost var done: set<string>       // channels that got the head event in this lifetime
    ghost var clean: bool             // no commit has failed in this lifetime
    ghost var errors: nat             // channel errors appended in this lifetime
    ghost var allowance: nat          // events unread at its start plus events others appended since
    ghost var outside: nat            // events others appended so far
    ghost var faults: nat             // commits that failed so far
    ghost var skips: nat              // reads of the cursor or the log that failed so far
    ghost var tries: seq<Try>         // workers run, and how each came out
    ghost var asked: seq<Result<bool>> // what the repair predicate answered so far

    /** The invariant that survives commit failures, cancellation and restarts, standing at place i. */
    ghost predicate Base(i: nat)
      reads this
    {
      && DistinctNames(wiring) && DistinctIds(log)
      && Head(cursor) <= i <= |log|
      && Covered(wiring, log, sent, origin, i)
      && OnlyOwed(wiring, log, sent)
      && HeldIsSent(log, sent, held, heldAt)
      && lifeStart <= |sent|
      && health == Replay(outcomes)
    }

    /** What else holds while every commit of the lifetime has succeeded. */
    ghost predicate Tidy(i: nat)
      reads this
    {
      clean ==>
        && Head(cursor) == i <= |log| && lifeStart <= |sent|
        && Once(sent[lifeStart..], i, done)
        && (!cancelled ==>
              && done == held.delivered && (held.id != "" ==> heldAt == i)
              && errors + Total(wiring, log[i..]) <= Times(wiring, allowance))
    }

    ghost predicate At(i: nat)
      reads this
    {
      Base(i) && Tidy(i)
    }

    ghost predicate Ok()
      reads this
    {
      At(Head(cursor))
    }

    /** What other processes and the clock did since: append, cancel the context, let time pass. */
    twostate predicate Grown()
      reads this
    {
      && DistinctIds(log) && old(log) <= log
      && outside == old(outside) + |log| - |old(log)| && allowance == old(allowance) + |log| - |old(log)|
      && (old(cancelled) ==> cancelled) && old(now) <= now
    }

    method Others()
      requires DistinctIds(log)
      modifies this`log, this`cancelled, this`now, this`allowance, this`outside
      ensures Grown()
    {
      var steps: nat := *;
      while steps > 0
        invariant Grown()
      {
        var ev: Event, stop: bool, pause: nat := *, *, *;
        if ev.id != "" && forall k | 0 <= k < |log| :: log[k].id != ev.id {
          log, allowance, outside := log + [ev], allowance + 1, outside + 1;
        }
        cancelled, now := cancelled || stop, now + pause;
        steps := steps - 1;
      }
    }

    /** One worker: its retries end in a delivery, are exhausted, or never begin. */
    method Worker(i: nat, channel: string) returns (a: Attempt)
      requires DistinctIds(log)
      modifies this`log, this`cancelled, this`now, this`allowance, this`outside, this`sent, this`tries
      ensures Grown() && tries == old(tries) + [Try(i, channel, a)]
      ensures sent == if a.Succeeded? then old(sent) + [Delivery(i, channel)] else old(sent)
      ensures a.Exhausted? ==> a.attempts > 0
    {
      Others();
      var outcome: int, attempts: nat, cause: string := *, *, *;
      a := if outcome == 0 then Succeeded else if outcome == 1 then Unresolved(cause)
      else Exhausted(attempts + 1, cause);
      tries := tries + [Try(i, channel, a)];
      if a.Succeeded? {
        sent := sent + [Delivery(i, channel)];
      }
    }

    /**
     * Runs one worker per channel the event is owed to and does not have yet. Workers
     * touch only their own channel's entry, so their order does not matter.
     */
    method FanOut(i: nat) returns (matched: bool, failures: seq<Failure>, delivered: set<string>)
      requires DistinctNames(wiring) && DistinctIds(log) && i < |log| && lifeStart <= |sent|
      requires HeldIsSent(log, sent, held, heldAt) && OnlyOwed(wiring, log, sent)
      modifies this`log, this`cancelled, this`now, this`allowance, this`outside, this`sent, this`tries
      ensures Grown() && old(sent) <= sent && lifeStart <= |sent| && OnlyOwed(wiring, log, sent)
      ensures FannedOut(wiring, log[i], i, sent, failures, delivered, |wiring.channels|)
      ensures matched <==> SomeOwed(wiring, log[i])
      ensures old(tries) <= tries && TriedAt(i, Already(held, log[i]), tries[|old(tries)|..], failures)
      ensures sent == old(sent) + SentBy(tries[|old(tries)|..])
      ensures delivered == Already(held, log[i]) + Reached(tries[|old(tries)|..])
      ensures Once(old(sent)[lifeStart..], i, Already(held, old(log)[i])) ==> Once(sent[lifeStart..], i, delivered)
    {
      hide DistinctIds, Once, Owes, Total, HeldIsSent, OnlyOwed, Fanning, FannedOut, Tried, FailuresTold, SentBy;
      hide Reached;
      hide DistinctNames, Already, IsLastWord;
      var ev := log[i];
      matched, failures, delivered := false, [], Already(held, ev);
      ghost var already, before, done: seq<Try> := delivered, sent, [];
      FanOutBegins(wiring, log, sent, held, heldAt, i);
      FanningBegins(wiring, ev, i, already, before);
      ghost var once := Once(sent[lifeStart..], i, delivered);
      for j := 0 to |wiring.channels|
        invariant Grown() && before <= sent && log[i] == ev && OnlyOwed(wiring, log, sent)
        invariant Fanning(wiring, ev, i, already, before, sent, done, failures, delivered, j)
        invariant matched <==> exists k :: 0 <= k < j && Owes(wiring, ev, wiring.channels[k])
        invariant once ==> Once(sent[lifeStart..], i, delivered)
        invariant tries == old(tries) + done
      {
        var ch := wiring.channels[j];
        if !Owes(wiring, ev, ch) {
          FanningSkips(wiring, ev, i, already, before, sent, done, failures, delivered, j);
          continue;
        }
        matched := true;
        if ch.name in delivered {
          FanningSkips(wiring, ev, i, already, before, sent, done, failures, delivered, j);
          continue;
        }
        ghost var log0, sent0 := log, sent;
        var a := Worker(i, ch.name);
        OnlyOwedStays(wiring, log0, sent0, log);
        if a.Succeeded? {
          OnlyOwedAdds(wiring, log, sent0, i, j);
          FanningDelivers(wiring, ev, i, already, before, sent0, done, failures, delivered, j);
          if once {
            OnceAdds(sent0[lifeStart..], i, delivered, ch.name);
            assert sent[lifeStart..] == sent0[lifeStart..] + [Delivery(i, ch.name)];
          }
          delivered := delivered + {ch.name};
        } else {
          FanningFails(wiring, ev, i, already, before, sent, done, failures, delivered, j, a);
          failures := failures + [Failure(j, ch.name, if a.Exhausted? then a.attempts else 0, a.cause)];
        }
        done := done + [Try(i, ch.name, a)];
      }
      assert tries[|old(tries)|..] == done;
      FanningIsOver(i, already, before, done, failures, delivered);
    }

    lemma {:induction false} FanningIsOver(i: nat, already: set<string>, before: seq<Delivery>, done: seq<Try>,
                                           failures: seq<Failure>, delivered: set<string>)
      requires i < |log|
      requires Fanning(wiring, log[i], i, already, before, sent, done, failures, delivered, |wiring.channels|)
      ensures FannedOut(wiring, log[i], i, sent, failures, delivered, |wiring.channels|)
      ensures TriedAt(i, already, done, failures)
      ensures sent == before + SentBy(done) && delivered == already + Reached(done)
    {
    }

    ghost predicate TriedAt(i: nat, already: set<string>, now: seq<Try>, failures: seq<Failure>)
      reads this
    {
      i < |log| && Tried(wiring, log[i], i, already, now, |wiring.channels|) && FailuresTold(failures, now)
    }

    /** Appends one plect.channel.error per failure, unless the context is cancelled. */
    method RecordFailures(i: nat, failures: seq<Failure>)
      requires DistinctNames(wiring) && DistinctIds(log) && i < |log|
      requires FailuresOf(wiring, log[i], failures, |wiring.channels|)
      modifies this`log, this`cancelled, this`now, this`allowance, this`outside, this`errors
      ensures DistinctIds(log) && old(log) <= log && (old(cancelled) ==> cancelled) && old(now) <= now
      ensures |log| - |old(log)| == (outside - old(outside)) + (errors - old(errors))
      ensures old(outside) <= outside && old(errors) <= errors
      ensures allowance - old(allowance) == outside - old(outside)
      ensures errors - old(errors) + Total(wiring, log[|old(log)|..]) <=
              Times(wiring, outside - old(outside)) + Cost(wiring, log[i], |failures|)
      ensures !cancelled ==> AllRecorded(log, i, failures, |failures|)
      ensures outside == old(outside) ==> forall k :: |old(log)| <= k < |log| ==> Level(log[k]) < Level(log[i])
    {
      hide DistinctIds, Total, AllRecorded, Records, Budget, Cost, Level, Owes, Times;
      var ev := log[i];
      RecordingBegins(wiring, log, i, failures);
      for k := 0 to |failures|
        invariant DistinctIds(log) && old(log) <= log && log[i] == ev && (old(cancelled) ==> cancelled)
        invariant old(now) <= now
        invariant |log| - |old(log)| == (outside - old(outside)) + (errors - old(errors))
        invariant old(outside) <= outside && old(errors) <= errors
        invariant allowance - old(allowance) == outside - old(outside)
        invariant errors - old(errors) + Total(wiring, log[|old(log)|..]) + Cost(wiring, ev, |failures| - k) <=
                  Times(wiring, outside - old(outside)) + Cost(wiring, ev, |failures|)
        invariant !cancelled ==> AllRecorded(log, i, failures, k)
        invariant outside == old(outside) ==> forall m :: |old(log)| <= m < |log| ==> Level(log[m]) < Level(ev)
      {
        ghost var log0, outside0 := log, outside;
        Others();
        TotalOfTail(wiring, log0, log, |old(log)|);
        TotalIsQuadratic(wiring, log[|log0|..]);
        TimesAdds(wiring, outside0 - old(outside), outside - outside0);
        CostGrows(wiring, ev, |failures| - k - 1);
        if cancelled {
          continue;
        }
        AllRecordedStays(log0, log, i, failures, k);
        ghost var log1 := log;
        var err := ErrorEvent(ev, failures[k].channel, failures[k].attempts, MintId(log), now);
        ErrorIsARecord(wiring, log, i, failures, k, err, now);
        AppendedTotal(wiring, log, |old(log)|, err);
        log, errors := log + [err], errors + 1;
      }
    }

    /** The i-th event is fully dealt with; only the commit past it is left. */
    ghost predicate Processed(i: nat)
      reads this
    {
      && Base(i) && i < |log| && Settled(wiring, log, sent, i)
      && (clean ==>
            && Head(cursor) == i && Once(sent[lifeStart..], i, done) && held.id == ""
            && (!cancelled ==> errors + Total(wiring, log[i + 1..]) <= Times(wiring, allowance)))
    }

    /** What must be so for the repair predicate to be asked at all: only attempted failures, of a recent event. */
    ghost predicate Holdable(ev: Event, failures: seq<Failure>, at: int)
      reads this
    {
      && repairWait && failures != []
      && (forall a :: 0 <= a < |failures| ==> failures[a].attempts > 0)
      && at - ev.time <= REPAIR_HOLD_LIMIT
    }

    /** awaitingRepair: is the session's repair still expected? It may fail to tell. */
    method AwaitingRepair() returns (r: Result<bool>)
      modifies this`asked
      ensures asked == old(asked) + [r]
    {
      var ok: bool, answer: bool := *, *;
      r := if ok then Wrappers.Ok(answer) else Err("repair state unreadable");
      asked := asked + [r];
    }

    method ShouldHold(ev: Event, failures: seq<Failure>) returns (hold: bool)
      requires failures != []
      modifies this`asked
      ensures old(asked) <= asked && |asked| == |old(asked)| + if Holdable(ev, failures, now) then 1 else 0
      ensures hold <==> asked != old(asked) && asked[|old(asked)|] == Wrappers.Ok(true)
    {
      if !repairWait {
        return false;
      }
      for a := 0 to |failures|
        invariant forall b :: 0 <= b < a ==> failures[b].attempts > 0
      {
        if failures[a].attempts == 0 {
          return false;
        }
      }
      if now - ev.time > REPAIR_HOLD_LIMIT {
        return false;
      }
      var awaiting := AwaitingRepair();
      return awaiting.Ok? && awaiting.value;
    }

    /** The workers of the i-th event have all finished; `delivered` is who has it now. */
    ghost predicate Fanned(i: nat, failures: seq<Failure>, delivered: set<string>)
      reads this
    {
      && Base(i) && i < |log| && !IsLastWord(log[i]) && done == delivered
      && FannedOut(wiring, log[i], i, sent, failures, delivered, |wiring.channels|)
      && (clean ==>
            && Head(cursor) == i && Once(sent[lifeStart..], i, done)
            && (!cancelled ==> errors + Total(wiring, log[i..]) <= Times(wiring, allowance)))
    }

    /** What the streak is told once an event is dealt with: nothing if no channel was owed it. */
    twostate predicate Told(ev: Event, failures: seq<Failure>)
      reads this
    {
      outcomes == old(outcomes) +
                  if failures != [] then [Failed(failures[0].channel, Some(failures[0].cause), now)]
                  else if SomeOwed(wiring, ev) then [Delivered] else []
    }

    /**
     * processEvent. One worker runs for each channel that is owed the event and does not have it.
     * It is held if there are failures, all of them attempted, the event is recent, and the
     * repair predicate is asked and answers yes; this leaves everything where it was but for the
     * deliveries made. Otherwise it is delivered or answered for, unless the context is cancelled meanwhile.
     */
    method ProcessEvent(i: nat) returns (hold: bool, ghost failures: seq<Failure>, ghost at: int)
      requires At(i) && i < |log| && !cancelled
      modifies this
      ensures Kept() && Counted()
      ensures hold || cancelled ==> At(i)
      ensures hold ==> !cancelled && errors == old(errors) && outcomes == old(outcomes)
      ensures !hold && !cancelled ==> Processed(i) && Told(log[i], failures)
      ensures FailuresOf(wiring, log[i], failures, |wiring.channels|)
      ensures outside == old(outside) ==> forall k :: |old(log)| <= k < |log| ==> Level(log[k]) < Level(log[i])
      ensures old(tries) <= tries && sent == old(sent) + SentBy(tries[|old(tries)|..])
      ensures if IsLastWord(log[i]) then tries == old(tries) && failures == []
              else TriedAt(i, Already(old(held), log[i]), tries[|old(tries)|..], failures)
      ensures hold ==> held == Held(log[i].id, Already(old(held), log[i]) + Reached(tries[|old(tries)|..]))
      ensures old(now) <= at <= now && (hold ==> at == now && repairWait && now - log[i].time <= REPAIR_HOLD_LIMIT)
      ensures old(asked) <= asked && |asked| <= |old(asked)| + 1
      ensures !cancelled ==> (asked != old(asked) <==> Holdable(log[i], failures, at))
      ensures hold <==> asked != old(asked) && asked[|old(asked)|] == Wrappers.Ok(true)
    {
      hide Total, Settled, Once, Owes, FannedOut, OnlyOwed, Covered, DistinctIds, HeldIsSent, FailuresOf, IsLastWord;
      hide Times, DistinctNames, Tried, FailuresTold, SentBy, Reached, SomeOwed, Already, Replay, Level;
      hold, failures, at := false, [], now;
      if IsLastWord(log[i]) {
        LastWordIsProcessed(i);
        return;
      }
      var matched, failed, delivered := RunWorkers(i);
      failures, at := failed, now;
      if cancelled {
        return;
      }
      if failed == [] {
        AllDelivered(i, matched, delivered);
        return;
      }
      hold := HoldOrGiveUp(i, failed, delivered);
    }

    /** What becomes of an event that some channel did not get. */
    method HoldOrGiveUp(i: nat, failed: seq<Failure>, delivered: set<string>) returns (hold: bool)
      requires Fanned(i, failed, delivered) && failed != [] && !cancelled
      requires FailuresOf(wiring, log[i], failed, |wiring.channels|)
      modifies this
      ensures Kept() && Counted() && tries == old(tries) && sent == old(sent)
      ensures hold || cancelled ==> At(i)
      ensures hold ==> !cancelled && errors == old(errors) && outcomes == old(outcomes)
      ensures hold ==> now == old(now) && held == Held(log[i].id, delivered)
      ensures !hold && !cancelled ==> Processed(i) && Told(log[i], failed)
      ensures outside == old(outside) ==> forall k :: |old(log)| <= k < |log| ==> Level(log[k]) < Level(log[i])
      ensures old(asked) <= asked && |asked| <= |old(asked)| + 1
      ensures asked != old(asked) <==> Holdable(log[i], failed, old(now))
      ensures hold <==> asked != old(asked) && asked[|old(asked)|] == Wrappers.Ok(true)
    {
      hide Total, Settled, Once, Owes, FannedOut, OnlyOwed, Covered, DistinctIds, HeldIsSent, FailuresOf, IsLastWord;
      hide Times, DistinctNames, SomeOwed, Already, Replay, Level;
      hold := ShouldHold(log[i], failed);
      if hold {
        Hold(i, failed, delivered);
      } else {
        GiveUp(i, failed, delivered);
      }
    }

    lemma {:induction false} LastWordIsProcessed(i: nat)
      requires At(i) && i < |log| && IsLastWord(log[i]) && !cancelled
      ensures Processed(i) && FailuresOf(wiring, log[i], [], |wiring.channels|) && !SomeOwed(wiring, log[i])
      ensures SentBy([]) == [] && tries[|tries|..] == []
    {
      TotalSplits(wiring, log, i);
    }

    /** The event stays at the head, with the channels a retry may skip. */
    method Hold(i: nat, ghost failed: seq<Failure>, delivered: set<string>)
      requires Fanned(i, failed, delivered) && !cancelled
      modifies this`held, this`heldAt
      ensures At(i) && held == Held(log[i].id, delivered)
    {
      hide Total, Settled, Once, Owes, OnlyOwed, Covered;
      held, heldAt := Held(log[i].id, delivered), i;
    }

    method RunWorkers(i: nat) returns (matched: bool, failed: seq<Failure>, delivered: set<string>)
      requires At(i) && i < |log| && !cancelled && !IsLastWord(log[i])
      modifies this
      ensures Kept() && Counted() && errors == old(errors) && outcomes == old(outcomes)
      ensures held == old(held) && asked == old(asked)
      ensures Fanned(i, failed, delivered) && (cancelled ==> At(i))
      ensures old(tries) <= tries && TriedAt(i, Already(held, log[i]), tries[|old(tries)|..], failed)
      ensures sent == old(sent) + SentBy(tries[|old(tries)|..])
      ensures delivered == Already(held, log[i]) + Reached(tries[|old(tries)|..])
      ensures FailuresOf(wiring, log[i], failed, |wiring.channels|)
      ensures matched <==> SomeOwed(wiring, log[i])
    {
      hide Total, Settled, Once, Owes, FannedOut, OnlyOwed, Times, Tried, FailuresTold, SentBy, Reached, Already;
      hide SomeOwed;
      ghost var log0, sent0 := log, sent;
      AlreadyIsDone(i);
      matched, failed, delivered := FanOut(i);
      CoveredStays(wiring, log0, sent0, log, sent, origin, i);
      HeldIsSentStays(log0, sent0, log, sent, held, heldAt);
      TotalOfTail(wiring, log0, log, i);
      TotalIsQuadratic(wiring, log[|log0|..]);
      TimesAdds(wiring, old(allowance), |log| - |log0|);
      done := delivered;
      FannedFailures(i, failed, delivered);
    }

    lemma {:induction false} FannedFailures(i: nat, failed: seq<Failure>, delivered: set<string>)
      requires i < |log| && FannedOut(wiring, log[i], i, sent, failed, delivered, |wiring.channels|)
      ensures FailuresOf(wiring, log[i], failed, |wiring.channels|)
    {
    }

    /** Every owed channel has the event: the streak, if one is open, ends here. */
    method AllDelivered(i: nat, matched: bool, delivered: set<string>)
      requires Fanned(i, [], delivered) && !cancelled
      requires matched <==> SomeOwed(wiring, log[i])
      modifies this`held, this`health, this`outcomes
      ensures Processed(i)
      ensures Told(log[i], [])
    {
      hide Total, Settled, Once, Owes, FannedOut, OnlyOwed, Covered, DistinctIds, DistinctNames, Times;
      hide HeldIsSent, IsLastWord, Record, Replay, SomeOwed;
      NothingRecorded(log, i);
      FannedOutSettles(wiring, log, i, sent, [], delivered);
      TotalSplits(wiring, log, i);
      NothingHeldIsSent(log, sent, heldAt);
      ReplayNext(outcomes, Delivered);
      held := NOTHING_HELD;
      if matched {
        health, outcomes := Record(health, Delivered), outcomes + [Delivered];
      }
    }

    /** The failures are recorded as channel errors, and once in the streak. */
    method GiveUp(i: nat, failed: seq<Failure>, delivered: set<string>)
      requires Fanned(i, failed, delivered) && failed != [] && !cancelled
      requires FailuresOf(wiring, log[i], failed, |wiring.channels|)
      modifies this
      ensures Kept() && Counted()
      ensures if cancelled then At(i) else Processed(i)
      ensures Told(log[i], failed) && asked == old(asked) && tries == old(tries) && sent == old(sent)
      ensures outside == old(outside) ==> forall k :: |old(log)| <= k < |log| ==> Level(log[k]) < Level(log[i])
    {
      hide Total, Settled, Once, Owes, FannedOut, OnlyOwed, AllRecorded, Level, Cost, Budget, DistinctIds, FailuresOf;
      hide Covered, Times;
      hide DistinctNames, HeldIsSent, IsLastWord, Record, Replay, SomeOwed;
      held := NOTHING_HELD;
      ghost var log0 := log;
      RecordFailures(i, failed);
      Recorded(i, failed, delivered, log0, old(errors), old(allowance), outside - old(outside));
      NothingHeldIsSent(log, sent, heldAt);
      TellFailure(failed);
    }

    /** recordDeliveryFailure: the streak is told of the first failure. */
    method TellFailure(failed: seq<Failure>)
      requires failed != [] && health == Replay(outcomes)
      modifies this`health, this`outcomes
      ensures health == Replay(outcomes)
      ensures outcomes == old(outcomes) + [Failed(failed[0].channel, Some(failed[0].cause), now)]
    {
      hide Record, Replay;
      var last := Failed(failed[0].channel, Some(failed[0].cause), now);
      ReplayNext(outcomes, last);
      health, outcomes := Record(health, last), outcomes + [last];
    }

    /** What recording an event's failures leaves behind. */
    lemma {:induction false} Recorded(i: nat, failed: seq<Failure>, delivered: set<string>, log0: seq<Event>,
                                      errors0: nat, allowance0: nat, others: nat)
      requires i < |log0| && log0 <= log && DistinctNames(wiring) && DistinctIds(log) && Head(cursor) <= i
      requires Covered(wiring, log0, sent, origin, i) && OnlyOwed(wiring, log0, sent)
      requires FannedOut(wiring, log[i], i, sent, failed, delivered, |wiring.channels|)
      requires FailuresOf(wiring, log[i], failed, |wiring.channels|)
      requires !cancelled ==> AllRecorded(log, i, failed, |failed|)
      requires errors0 <= errors && allowance == allowance0 + others
      requires errors - errors0 + Total(wiring, log[|log0|..]) <= Times(wiring, others) + Cost(wiring, log[i], |failed|)
      ensures Covered(wiring, log, sent, origin, i) && OnlyOwed(wiring, log, sent)
      ensures !cancelled ==> Settled(wiring, log, sent, i)
      ensures errors0 + Total(wiring, log0[i..]) <= Times(wiring, allowance0) ==>
                errors + Total(wiring, log[i + 1..]) <= Times(wiring, allowance)
    {
      hide Total, Settled, Once, Owes, FannedOut, OnlyOwed, AllRecorded, Cost, Budget, DistinctIds, FailuresOf;
      hide Covered, Times;
      FailuresFit(wiring, log[i], failed);
      TotalSplits(wiring, log0, i);
      CoveredStays(wiring, log0, sent, log, sent, origin, i);
      TotalOfTail(wiring, log0, log, i + 1);
      TimesAdds(wiring, allowance0, others);
      OnlyOwedStays(wiring, log0, sent, log);
      if !cancelled {
        FannedOutSettles(wiring, log, i, sent, failed, delivered);
      }
    }

    /** In a tidy lifetime the channels a retry skips are exactly those that got the event in it. */
    lemma {:induction false} AlreadyIsDone(i: nat)
      requires At(i) && i < |log| && !cancelled
      ensures clean ==> Once(sent[lifeStart..], i, Already(held, log[i]))
    {
      AlreadyIsSent(log, sent, held, heldAt, i);
    }

    /** CommitCursor: the store either has the new cursor or still has the old one. */
    method CommitCursor(to: int) returns (ok: bool)
      modifies this`cursor, this`seeded, this`faults
      ensures if ok then cursor == to && seeded && faults == old(faults)
              else cursor == old(cursor) && seeded == old(seeded) && faults == old(faults) + 1
    {
      ok := *;
      if ok {
        cursor, seeded := to, true;
      } else {
        faults := faults + 1;
      }
    }

    /** Reading the log, with the cursor or without, may fail. */
    method ReadLog() returns (ok: bool)
      modifies this`skips
      ensures skips == if ok then old(skips) else old(skips) + 1
    {
      ok := *;
      if !ok {
        skips := skips + 1;
      }
    }

    /** Commits the cursor past the i-th event; a failed commit only leaves it where it was. */
    method Commit(i: nat)
      requires Processed(i) && !cancelled
      modifies this`cursor, this`seeded, this`clean, this`done, this`faults
      ensures At(i + 1) && (old(seeded) ==> seeded)
      ensures if faults == old(faults) then cursor == i + 2 && clean == old(clean)
              else faults == old(faults) + 1 && cursor == old(cursor) && !clean
    {
      PastIsCovered(wiring, log, sent, origin, i);
      hide Settled, Covered, OnlyOwed, DistinctIds, Total, Times;
      if clean {
        OnceMovesOn(sent[lifeStart..], i, done);
      }
      done := {};
      var ok := CommitCursor(i + 2);
      clean := clean && ok;
    }

    /** One event: processed and, unless it is held or the context cancelled, committed past. */
    method Pass(i: nat) returns (stop: Option<Ending>)
      requires At(i) && i < |log| && !cancelled
      modifies this
      ensures Lasting() && Counted() && skips == old(skips) && At(if stop.None? then i + 1 else i)
      ensures stop == None || (stop == Some(Cancelled) && cancelled) || stop == Some(HeldBack)
      ensures stop == Some(HeldBack) ==>
                repairWait && now - log[i].time <= REPAIR_HOLD_LIMIT && held.id == log[i].id
      ensures OnlyLastSaidYes(old(asked), asked, stop == Some(HeldBack))
      ensures outside == old(outside) ==> forall k :: |old(log)| <= k < |log| ==> Level(log[k]) < Level(log[i])
    {
      hide Base, Tidy, Replay, Told, TriedAt, Holdable, Already, SentBy, Reached, IsLastWord, Level, FailuresOf;
      CursorIsBehind(i);
      var hold, _, _ := ProcessEvent(i);
      if cancelled {
        return Some(Cancelled);
      }
      if hold {
        return Some(HeldBack);
      }
      Commit(i);
      return None;
    }

    lemma {:induction false} CursorIsBehind(i: nat)
      requires At(i)
      ensures Head(cursor) <= i <= |log|
    {
    }

    /**
     * drain: takes the unread events one at a time, committing after each. It stops early
     * when the context is cancelled or an event is held; a failed read skips it altogether.
     */
    method Drain(ghost level: int) returns (end: Ending)
      requires Ok()
      modifies this
      ensures Ok() && Lasting()
      ensures Counted()
      ensures (end == Cancelled ==> cancelled) && (end == HeldBack ==> repairWait)
      ensures skips == if end == Skipped then old(skips) + 1 else old(skips)
      ensures OnlyLastSaidYes(old(asked), asked, end == HeldBack)
      ensures end == HeldBack && clean ==> Head(cursor) < |log| && held.id == log[Head(cursor)].id
      ensures end == HeldBack && clean ==> repairWait && now - log[Head(cursor)].time <= REPAIR_HOLD_LIMIT
      ensures end == Finished && clean ==> Head(cursor) == |old(log)|
      ensures end == Finished && clean && outside == old(outside) ==>
                (Quiet(old(log), Head(old(cursor)), level) ==> Quiet(log, Head(cursor), level - 1))
    {
      hide DistinctIds, DistinctNames, Covered, OnlyOwed, HeldIsSent, Total, Times, Once, Settled, FailuresOf, Level;
      hide Quiet, Replay;
      NothingLater(log, level);
      var readable := ReadLog();
      if !readable {
        return Skipped;
      }
      ghost var quiet := Quiet(log, Head(cursor), level);
      var i, n := Head(cursor), |log|;
      while i < n
        invariant At(i) && i <= n == |old(log)| && Lasting() && Counted() && skips == old(skips)
        invariant quiet && outside == old(outside) ==> LaterThan(log, n, level)
        invariant Head(old(cursor)) <= i
        invariant OnlyLastSaidYes(old(asked), asked, false)
      {
        if cancelled {
          AtIsOk(i);
          return Cancelled;
        }
        ghost var log0 := log;
        var stop := Pass(i);
        if quiet && outside == old(outside) {
          LaterStays(old(log), log0, log, Head(old(cursor)), i, n, level);
        }
        if stop.Some? {
          AtIsOk(i);
          return stop.value;
        }
        i := i + 1;
      }
      AtIsOk(i);
      return Finished;
    }

    lemma {:induction false} AtIsOk(i: nat)
      requires At(i)
      ensures Ok()
    {
    }

    /** A session is born with an empty log and no dispatcher cursor. */
    constructor (w: Wiring, wait: bool)
      requires DistinctNames(w)
      ensures Ok() && wiring == w && repairWait == wait && log == [] && sent == [] && !seeded
    {
      wiring, repairWait := w, wait;
      log, cursor, seeded, health := [], 0, false, None;
      held, cancelled, now := NOTHING_HELD, false, 0;
      sent, outcomes, origin, heldAt, lifeStart, done, clean := [], [], 0, 0, 0, {}, true;
      errors, allowance, outside, faults, skips, tries, asked := 0, 0, 0, 0, 0, [], [];
    }

    /** Nothing has happened yet in this lifetime. */
    ghost predicate Newborn()
      reads this
    {
      && clean && !cancelled && held == NOTHING_HELD && done == {} && errors == 0
      && lifeStart == |sent| && Head(cursor) <= |log| && allowance == |log| - Head(cursor)
    }

    /** A dispatcher starts over the durable state: after a stop, a cancellation or a crash at any point. */
    method Restart()
      requires Ok()
      modifies this`held, this`heldAt, this`cancelled, this`done, this`clean, this`errors, this`lifeStart
      modifies this`allowance
      ensures Ok() && Newborn()
    {
      hide DistinctNames, DistinctIds, Covered, OnlyOwed, HeldIsSent, Total, Times, Once;
      cancelled, held, heldAt := false, NOTHING_HELD, 0;
      NothingHeldIsSent(log, sent, 0);
      done, clean, errors, lifeStart := {}, true, 0, |sent|;
      allowance := |log| - Head(cursor);
      NewbornIsTidy();
    }

    lemma {:induction false} NewbornIsTidy()
      requires Newborn()
      ensures Tidy(Head(cursor))
    {
      TotalIsQuadratic(wiring, log[Head(cursor)..]);
      assert sent[lifeStart..] == [];
    }

    /** SeedCursor: a session whose cursor was never committed starts at the end of its log. */
    method SeedCursor()
      requires Ok() && Newborn()
      modifies this`cursor, this`seeded, this`origin, this`allowance, this`skips, this`faults
      ensures Ok() && Newborn()
      ensures old(skips) <= skips && old(faults) <= faults
      ensures if old(seeded) then seeded && skips == old(skips) && faults == old(faults)
              else seeded <==> skips == old(skips) && faults == old(faults)
      ensures if old(seeded) || !seeded then cursor == old(cursor) && origin == old(origin)
              else Head(cursor) == |log| == origin
    {
      hide DistinctNames, DistinctIds, Settled, OnlyOwed, HeldIsSent, Total, Times, Once, Replay;
      if seeded {
        return;
      }
      var readable := ReadLog();
      if !readable {
        return;
      }
      var committed := CommitCursor(if log == [] then 0 else |log| + 1);
      if committed {
        origin, allowance := |log|, 0;
      }
      NewbornIsTidy();
    }

    /** Time passes and others act between two drains. */
    method Elapse()
      requires Ok()
      modifies this`log, this`cancelled, this`now, this`allowance, this`outside
      ensures Ok() && Grown()
    {
      hide DistinctNames, Settled, OnlyOwed, HeldIsSent, Total, Times, Once, Covered;
      ghost var log0 := log;
      Others();
      CoveredStays(wiring, log0, sent, log, sent, origin, Head(cursor));
      HeldIsSentStays(log0, sent, log, sent, held, heldAt);
      OnlyOwedStays(wiring, log0, sent, log);
      TotalOfTail(wiring, log0, log, Head(cursor));
      TotalIsQuadratic(wiring, log[|log0|..]);
      TimesAdds(wiring, old(allowance), |log| - |log0|);
    }

    /**
     * run: drain on every wake until the context is cancelled. When nothing disturbs three
     * drains in a row, they reach the end of the log: errors about the first drain's events
     * are relayed by the second, errors about those are skipped by the third. As long as every
     * commit succeeds, each channel gets the events of a lifetime in log order, none twice.
     * What disturbs a run is a drain that was skipped, held or cancelled, or one that was not
     * begun because the context was cancelled; each skipped drain stands for one failed read, and
     * nothing is ever held unless repairs are awaited.
     */
    method Run(rounds: nat) returns (undisturbed: bool, ghost endings: seq<Ending>)
      requires Ok()
      modifies this
      ensures Ok() && Lasting()
      ensures |endings| <= rounds && (undisturbed <==> |endings| == rounds && AllFinished(endings))
      ensures (|endings| < rounds || Cancelled in endings ==> cancelled) && (HeldBack in endings ==> repairWait)
      ensures forall k :: 0 <= k < |endings| - 1 ==> endings[k] != Cancelled
      ensures skips == old(skips) + multiset(endings)[Skipped]
      ensures old(asked) <= asked && (HeldBack in endings <==> SaidYes(asked[|old(asked)|..]))
      ensures undisturbed && clean && 3 <= rounds && outside == old(outside) ==> Head(cursor) == |log|
      ensures clean && !cancelled ==> errors <= Times(wiring, allowance)
      ensures clean ==> lifeStart == old(lifeStart) <= |sent| && FollowsTheLog(sent[lifeStart..])
    {
      undisturbed, endings := true, [];
      AllAreLow(log, Head(cursor));
      hide Base, Tidy, Quiet, Times, Total;
      for r := 0 to rounds
        invariant Ok() && Lasting()
        invariant undisturbed && clean && outside == old(outside) ==> Quiet(log, Head(cursor), 2 - r)
        invariant old(outside) <= outside
        invariant |endings| == r && (undisturbed <==> AllFinished(endings))
        invariant (Cancelled in endings ==> cancelled) && (HeldBack in endings ==> repairWait)
        invariant forall k :: 0 <= k < |endings| - 1 ==> endings[k] != Cancelled
        invariant skips == old(skips) + multiset(endings)[Skipped]
        invariant old(asked) <= asked && (HeldBack in endings <==> SaidYes(asked[|old(asked)|..]))
      {
        if cancelled {
          WithinAllowance();
          LifeFollowsTheLog();
          return false, endings;
        }
        ghost var before := asked[|old(asked)|..];
        ghost var seen := |asked|;
        var end := Drain(2 - r);
        OneMoreEnding(endings, end);
        SaidYesMore(before, asked[seen..], end == HeldBack);
        assert asked[|old(asked)|..] == before + asked[seen..];
        undisturbed, endings := undisturbed && end == Finished, endings + [end];
        label drained:
        Elapse();
        assert outside == old@drained(outside) ==> log == old@drained(log);
      }
      WithinAllowance();
      LifeFollowsTheLog();
      QuietMeansEnd(log, Head(cursor), 2 - rounds);
    }

    /**
     * Any number of lifetimes, each seeding if it must, draining for a while and then stopped at
     * any point: every event from the seeded cursor to the committed one is answered for. A
     * cursor seeded on the way starts at what was then the log's end.
     */
    method Serve(lifetimes: nat)
      requires Ok()
      modifies this
      ensures Ok() && old(log) <= log && old(sent) <= sent && Head(old(cursor)) <= Head(cursor)
      ensures origin == old(origin) || (!old(seeded) && |old(log)| <= origin)
      ensures Covered(wiring, log, sent, origin, Head(cursor)) && OnlyOwed(wiring, log, sent)
      ensures health == ChannelHealth.Replay(outcomes)
      ensures lifetimes == 0 || seeded || old(skips) < skips || old(faults) < faults
    {
      hide Base, Tidy, DistinctNames;
      StandsOn();
      for l := 0 to lifetimes
        invariant Ok() && old(log) <= log && old(sent) <= sent && Head(old(cursor)) <= Head(cursor)
        invariant origin == old(origin) || (!old(seeded) && |old(log)| <= origin)
        invariant (old(seeded) ==> seeded) && old(skips) <= skips && old(faults) <= faults
        invariant l == 0 || seeded || old(skips) < skips || old(faults) < faults
      {
        Restart();
        var rounds: nat := *;
        SeedCursor();
        StandsOn();
        var _, _ := Run(rounds);
      }
      StandsOn();
    }

    lemma {:induction false} StandsOn()
      requires Ok()
      ensures Covered(wiring, log, sent, origin, Head(cursor)) && OnlyOwed(wiring, log, sent)
      ensures health == ChannelHealth.Replay(outcomes) && Head(cursor) <= |log|
    {
    }

    lemma {:induction false} LifeFollowsTheLog()
      requires Ok()
      ensures clean ==> lifeStart <= |sent| && FollowsTheLog(sent[lifeStart..])
    {
      if clean {
        OnceFollowsTheLog(sent[lifeStart..], Head(cursor), done);
      }
    }

    lemma {:induction false} WithinAllowance()
      requires Ok()
      ensures Head(cursor) <= |log| && (clean && !cancelled ==> errors <= Times(wiring, allowance))
    {
    }

    /** What processing an event leaves alone. */
    twostate predicate Kept()
      reads this
    {
      && cursor == old(cursor) && seeded == old(seeded) && origin == old(origin)
      && lifeStart == old(lifeStart) && clean == old(clean) && faults == old(faults) && skips == old(skips)
      && old(log) <= log && old(sent) <= sent && old(now) <= now && old(tries) <= tries
    }

    /** What even a restart would keep: the log, the deliveries and the clock only grow. */
    twostate predicate Lasting()
      reads this
    {
      && old(log) <= log && old(sent) <= sent && old(now) <= now && origin == old(origin)
      && lifeStart == old(lifeStart) && (clean ==> old(clean)) && (old(cancelled) ==> cancelled)
      && old(faults) <= faults && (old(clean) && !clean ==> old(faults) < faults)
      && Head(old(cursor)) <= Head(cursor) && (old(seeded) ==> seeded)
    }

    /** Every event that was added is either one of the dispatcher's errors or somebody else's. */
    twostate predicate Counted()
      reads this
    {
      && |log| - |old(log)| == (outside - old(outside)) + (errors - old(errors))
      && old(outside) <= outside && old(errors) <= errors
    }
  }

  /** Of the answers given since, none was yes but, if an event was held, the last one. */
  ghost predicate OnlyLastSaidYes(before: seq<Result<bool>>, now: seq<Result<bool>>, held: bool) {
    && before <= now && (held ==> |before| < |now|)
    && forall k :: |before| <= k < |now| ==> (now[k] == Wrappers.Ok(true) <==> held && k == |now| - 1)
  }

  /** The repair predicate answered yes at least once. */
  ghost predicate SaidYes(answers: seq<Result<bool>>) {
    exists k :: 0 <= k < |answers| && answers[k] == Wrappers.Ok(true)
  }

  lemma {:induction false} SaidYesMore(before: seq<Result<bool>>, now: seq<Result<bool>>, held: bool)
    requires OnlyLastSaidYes([], now, held)
    ensures SaidYes(before + now) <==> SaidYes(before) || held
  {
    var all := before + now;
    assert forall k :: 0 <= k < |before| ==> all[k] == before[k];
    assert forall k :: 0 <= k < |now| ==> all[|before| + k] == now[k];
    assert forall k :: |before| <= k < |all| ==> all[k] == now[k - |before|];
    if held {
      assert all[|before| + (|now| - 1)] == Wrappers.Ok(true);
    }
    if SaidYes(before) {
      var k :| 0 <= k < |before| && before[k] == Wrappers.Ok(true);
      assert all[k] == Wrappers.Ok(true);
    }
  }

  lemma {:induction false} AllAreLow(log: seq<Event>, k: nat)
    ensures Quiet(log, k, 2)
  {
  }

  lemma {:induction false} QuietMeansEnd(log: seq<Event>, k: nat, level: int)
    requires k <= |log|
    ensures Quiet(log, k, level) && level < 0 ==> k == |log|
  {
    if k < |log| {
      assert Level(log[k]) >= 0;
    }
  }

  lemma {:induction false} NothingRecorded(log: seq<Event>, i: nat)
    requires i < |log|
    ensures AllRecorded(log, i, [], 0)
  {
  }

  /** Everything from place n on is of a lower generation than `level`. */
  ghost predicate LaterThan(log: seq<Event>, n: nat, level: int) {
    Quiet(log, n, level - 1)
  }

  lemma {:induction false} NothingLater(log: seq<Event>, level: int)
    ensures LaterThan(log, |log|, level)
  {
  }

  lemma {:induction false} LaterStays(first: seq<Event>, before: seq<Event>, log: seq<Event>, from: nat, i: nat, n: nat,
                                      level: int)
    requires first <= before <= log && from <= i < n == |first|
    requires Quiet(first, from, level) && LaterThan(before, n, level)
    requires forall k :: |before| <= k < |log| ==> Level(log[k]) < Level(log[i])
    ensures LaterThan(log, n, level)
  {
    assert log[i] == first[i];
  }

  lemma {:induction false} PastIsCovered(w: Wiring, log: seq<Event>, sent: seq<Delivery>, from: nat, i: nat)
    requires i < |log| && Covered(w, log, sent, from, i) && Settled(w, log, sent, i)
    ensures Covered(w, log, sent, from, i + 1)
  {
  }

  lemma {:induction false} TotalSplits(w: Wiring, log: seq<Event>, i: nat)
    requires i < |log|
    ensures Total(w, log[i..]) == Budget(w, log[i]) + Total(w, log[i + 1..])
  {
    assert log[i..][1..] == log[i + 1..];
  }

  lemma {:induction false} RecordingBegins(w: Wiring, log: seq<Event>, i: nat, failures: seq<Failure>)
    requires i < |log|
    ensures AllRecorded(log, i, failures, 0) && Total(w, log[|log|..]) == 0 && Times(w, 0) == 0
  {
  }

  lemma {:induction false} CostGrows(w: Wiring, ev: Event, n: nat)
    ensures Cost(w, ev, n) <= Cost(w, ev, n + 1) && Cost(w, ev, 0) == 0
  {
  }

  /** The appended error is fresh, answers its failure, and spends exactly its share. */
  lemma {:induction false} ErrorIsARecord(w: Wiring, log: seq<Event>, i: nat, failures: seq<Failure>, k: nat,
                                          err: Event, now: int)
    requires DistinctIds(log) && i < |log| && k < |failures|
    requires FailuresOf(w, log[i], failures, |w.channels|) && AllRecorded(log, i, failures, k)
    requires err == ErrorEvent(log[i], failures[k].channel, failures[k].attempts, MintId(log), now)
    ensures DistinctIds(log + [err]) && AllRecorded(log + [err], i, failures, k + 1)
    ensures 1 + Budget(w, err) + Cost(w, log[i], |failures| - k - 1) == Cost(w, log[i], |failures| - k)
    ensures Level(err) < Level(log[i])
  {
    var f := failures[k];
    assert ErrorFor(err, log[i], f);
    AllRecordedAdds(log, i, failures, k, err);
    ErrorCost(w, log[i], f, err, |failures| - k - 1);
    assert forall m :: 0 <= m < |log| ==> log[m].id != err.id;
  }

  lemma {:induction false} FanOutBegins(w: Wiring, log: seq<Event>, sent: seq<Delivery>, held: Held, heldAt: nat,
                                        i: nat)
    requires DistinctIds(log) && i < |log| && HeldIsSent(log, sent, held, heldAt)
    ensures FannedOut(w, log[i], i, sent, [], Already(held, log[i]), 0)
  {
    AlreadyIsSent(log, sent, held, heldAt, i);
  }

  lemma {:induction false} AppendedTotal(w: Wiring, log: seq<Event>, from: nat, ev: Event)
    requires from <= |log|
    ensures Total(w, (log + [ev])[from..]) == Total(w, log[from..]) + Budget(w, ev)
  {
    assert (log + [ev])[from..] == log[from..] + [ev];
    TotalConcat(w, log[from..], [ev]);
    assert Total(w, [ev]) == Budget(w, ev) + Total(w, []);
  }

  lemma {:induction false} TotalOfTail(w: Wiring, log: seq<Event>, later: seq<Event>, from: nat)
    requires log <= later && from <= |log|
    ensures Total(w, later[from..]) == Total(w, log[from..]) + Total(w, later[|log|..])
  {
    assert later[from..] == log[from..] + later[|log|..];
    TotalConcat(w, log[from..], later[|log|..]);
  }
}
