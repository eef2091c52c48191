/**
 * What a session dispatcher owes for the events it has passed, stated over the log, the
 * successful deliveries and a place in the log; the dispatcher itself is in Dispatcher.dfy.
 */
module Deliveries {
  import opened Events
  import opened Decimal
  import opened Relay

  /** A successful delivery: the event's place in the log, and the channel's name. */
  datatype Delivery = Delivery(place: nat, channel: string)

  /** The place in the log a cursor reads on from. */
  function Head(cursor: int): nat {
    if cursor <= 1 then 0 else cursor - 1
  }

  ghost predicate DistinctIds(log: seq<Event>) {
    && (forall i :: 0 <= i < |log| ==> log[i].id != "")
    && forall i, j :: 0 <= i < j < |log| ==> log[i].id != log[j].id
  }

  // ---- every event passed is answered for ----------------------------------------------

  /** Delivered to the channel, or followed by a recorded plect.channel.error about it. */
  ghost predicate Answered(log: seq<Event>, sent: seq<Delivery>, k: nat, channel: string)
    requires k < |log|
  {
    Delivery(k, channel) in sent || Recorded(log, k, channel)
  }

  /** A later event records that the k-th could not be delivered to the channel. */
  ghost predicate Recorded(log: seq<Event>, k: nat, channel: string)
    requires k < |log|
  {
    exists m :: k < m < |log| && Records(log[m], log[k], channel)
  }

  lemma {:induction false} RecordedStays(log: seq<Event>, log': seq<Event>, k: nat, channel: string)
    requires log <= log' && k < |log| && Recorded(log, k, channel)
    ensures Recorded(log', k, channel)
  {
    var m :| k < m < |log| && Records(log[m], log[k], channel);
    assert log'[m] == log[m];
  }

  /** Each channel the k-th event is owed to has been answered for. */
  ghost predicate Settled(w: Wiring, log: seq<Event>, sent: seq<Delivery>, k: nat)
    requires k < |log|
  {
    forall j :: 0 <= j < |w.channels| && Owes(w, log[k], w.channels[j]) ==> Answered(log, sent, k, w.channels[j].name)
  }

  ghost predicate Covered(w: Wiring, log: seq<Event>, sent: seq<Delivery>, from: nat, to: nat) {
    to <= |log| && forall k :: from <= k < to ==> Settled(w, log, sent, k)
  }

  lemma {:induction false} AnsweredStays(log: seq<Event>, sent: seq<Delivery>, log': seq<Event>, sent': seq<Delivery>,
                                         k: nat, channel: string)
    requires log <= log' && sent <= sent' && k < |log| && Answered(log, sent, k, channel)
    ensures Answered(log', sent', k, channel)
  {
    if Delivery(k, channel) in sent {
      var p :| 0 <= p < |sent| && sent[p] == Delivery(k, channel);
      assert sent'[p] == sent[p];
    } else {
      RecordedStays(log, log', k, channel);
    }
  }

  lemma {:induction false} CoveredStays(w: Wiring, log: seq<Event>, sent: seq<Delivery>, log': seq<Event>,
                                        sent': seq<Delivery>, from: nat, to: nat)
    requires log <= log' && sent <= sent' && Covered(w, log, sent, from, to)
    ensures Covered(w, log', sent', from, to)
  {
    forall k | from <= k < to ensures Settled(w, log', sent', k) {
      assert Settled(w, log, sent, k);
      forall j | 0 <= j < |w.channels| && Owes(w, log'[k], w.channels[j])
        ensures Answered(log', sent', k, w.channels[j].name)
      {
        AnsweredStays(log, sent, log', sent', k, w.channels[j].name);
      }
    }
  }

  /** Nothing was ever delivered to a channel that was not owed it. */
  ghost predicate OnlyOwed(w: Wiring, log: seq<Event>, sent: seq<Delivery>) {
    forall p :: 0 <= p < |sent| ==> sent[p].place < |log| && OwedByName(w, log[sent[p].place], sent[p].channel)
  }

  ghost predicate OwedByName(w: Wiring, ev: Event, name: string) {
    exists j :: 0 <= j < |w.channels| && w.channels[j].name == name && Owes(w, ev, w.channels[j])
  }

  lemma {:induction false} OnlyOwedStays(w: Wiring, log: seq<Event>, sent: seq<Delivery>, log': seq<Event>)
    requires log <= log' && OnlyOwed(w, log, sent)
    ensures OnlyOwed(w, log', sent)
  {
  }

  lemma {:induction false} OnlyOwedAdds(w: Wiring, log: seq<Event>, sent: seq<Delivery>, k: nat, j: nat)
    requires OnlyOwed(w, log, sent) && k < |log| && j < |w.channels| && Owes(w, log[k], w.channels[j])
    ensures OnlyOwed(w, log, sent + [Delivery(k, w.channels[j].name)])
  {
  }

  // ---- nothing is delivered twice --------------------------------------------------------

  /**
   * The deliveries of one lifetime standing at place i: in log order, each once, none past
   * i, and at i itself only to the channels in `done`.
   */
  ghost predicate Once(life: seq<Delivery>, i: nat, done: set<string>) {
    && (forall p :: 0 <= p < |life| ==> life[p].place <= i && (life[p].place == i ==> life[p].channel in done))
    && (forall p, q :: 0 <= p < q < |life| ==> life[p].place <= life[q].place && life[p] != life[q])
  }

  lemma {:induction false} OnceAdds(life: seq<Delivery>, i: nat, done: set<string>, channel: string)
    requires Once(life, i, done) && channel !in done
    ensures Once(life + [Delivery(i, channel)], i, done + {channel})
  {
  }

  lemma {:induction false} OnceMovesOn(life: seq<Delivery>, i: nat, done: set<string>)
    requires Once(life, i, done)
    ensures Once(life, i + 1, {})
  {
  }

  /** Deliveries follow the log, and on each channel strictly so: no event comes to a channel twice. */
  ghost predicate FollowsTheLog(life: seq<Delivery>) {
    forall p, q :: 0 <= p < q < |life| ==>
      life[p].place <= life[q].place && (life[p].channel == life[q].channel ==> life[p].place < life[q].place)
  }

  lemma {:induction false} OnceFollowsTheLog(life: seq<Delivery>, i: nat, done: set<string>)
    requires Once(life, i, done)
    ensures FollowsTheLog(life)
  {
    forall p, q | 0 <= p < q < |life| && life[p].channel == life[q].channel ensures life[p].place < life[q].place {
      assert life[p] != life[q];
    }
  }

  // ---- the held event ----------------------------------------------------------------------

  /** The event a dispatcher holds during a repair, and the channels that already have it. */
  datatype Held = Held(id: string, delivered: set<string>)

  const NOTHING_HELD := Held("", {})

  ghost predicate HeldIsSent(log: seq<Event>, sent: seq<Delivery>, held: Held, at: nat) {
    if held.id == "" then held.delivered == {}
    else
      && at < |log| && log[at].id == held.id && !IsLastWord(log[at])
      && forall name :: name in held.delivered ==> Delivery(at, name) in sent
  }

  lemma {:induction false} NothingHeldIsSent(log: seq<Event>, sent: seq<Delivery>, at: nat)
    ensures HeldIsSent(log, sent, NOTHING_HELD, at)
  {
  }

  lemma {:induction false} HeldIsSentStays(log: seq<Event>, sent: seq<Delivery>, log': seq<Event>, sent': seq<Delivery>,
                                           held: Held, at: nat)
    requires log <= log' && sent <= sent' && HeldIsSent(log, sent, held, at)
    ensures HeldIsSent(log', sent', held, at)
  {
    forall name | held.id != "" && name in held.delivered ensures Delivery(at, name) in sent' {
      var p :| 0 <= p < |sent| && sent[p] == Delivery(at, name);
      assert sent'[p] == sent[p];
    }
  }

  /** What a new lifetime may skip for the i-th event: only what was really delivered. */
  function Already(held: Held, ev: Event): set<string> {
    if held.id == ev.id then held.delivered else {}
  }

  lemma {:induction false} AlreadyIsSent(log: seq<Event>, sent: seq<Delivery>, held: Held, at: nat, i: nat)
    requires DistinctIds(log) && i < |log| && HeldIsSent(log, sent, held, at)
    ensures forall name :: name in Already(held, log[i]) ==> Delivery(i, name) in sent
    ensures held.id != "" && at == i ==> Already(held, log[i]) == held.delivered
  {
    if held.id == log[i].id && at != i {
      assert false;
    }
  }

  // ---- one event's workers ------------------------------------------------------------------

  /** A channel's failed delivery; not attempted when its inputs or timeout did not resolve. */
  datatype Failure = Failure(place: nat, channel: string, attempts: nat, cause: string)

  /** How a worker's delivery of one event to one channel came out. */
  datatype Attempt = Succeeded | Unresolved(cause: string) | Exhausted(attempts: nat, cause: string)

  /** One worker's run. */
  datatype Try = Try(place: nat, channel: string, result: Attempt)

  /** The deliveries that the workers made. */
  ghost function SentBy(tries: seq<Try>): seq<Delivery> {
    if tries == [] then []
    else
      var last := tries[|tries| - 1];
      SentBy(tries[..|tries| - 1]) + if last.result.Succeeded? then [Delivery(last.place, last.channel)] else []
  }

  /** The channels that got the event. */
  function Reached(tries: seq<Try>): set<string> {
    set k | 0 <= k < |tries| && tries[k].result.Succeeded? :: tries[k].channel
  }

  ghost predicate FailedAs(f: Failure, t: Try) {
    && f.channel == t.channel
    && match t.result
       case Succeeded => false
       case Unresolved(cause) => f.attempts == 0 && f.cause == cause
       case Exhausted(attempts, cause) => f.attempts == attempts && f.cause == cause
  }

  ghost predicate TriedOn(tries: seq<Try>, channel: string) {
    exists k :: 0 <= k < |tries| && tries[k].channel == channel
  }

  /** One of the first `upTo` channels has the name, and the event is owed to it. */
  ghost predicate OwedBefore(w: Wiring, ev: Event, channel: string, upTo: nat) {
    exists j :: 0 <= j < upTo && j < |w.channels| && w.channels[j].name == channel && Owes(w, ev, w.channels[j])
  }

  /** Some channel is owed the event. */
  ghost predicate SomeOwed(w: Wiring, ev: Event) {
    exists j | 0 <= j < |w.channels| :: Owes(w, ev, w.channels[j])
  }

  /**
   * One worker ran for each of the first `upTo` channels that the i-th event is owed to and that
   * did not have it already, and for no other.
   */
  ghost predicate Tried(w: Wiring, ev: Event, i: nat, already: set<string>, tries: seq<Try>, upTo: nat) {
    && upTo <= |w.channels|
    && (forall channel :: OwedBefore(w, ev, channel, upTo) && channel !in already ==> TriedOn(tries, channel))
    && (forall k :: 0 <= k < |tries| ==>
          tries[k].place == i && tries[k].channel !in already && OwedBefore(w, ev, tries[k].channel, upTo))
    && (forall k, l :: 0 <= k < l < |tries| ==> tries[k].channel != tries[l].channel)
  }

  /** The failures are those of the workers that failed. */
  ghost predicate FailuresTold(failures: seq<Failure>, tries: seq<Try>) {
    && (forall k :: 0 <= k < |tries| && !tries[k].result.Succeeded? ==> FailureOf(failures, tries[k]))
    && (forall a :: 0 <= a < |failures| ==> FailedIn(failures[a], tries))
  }

  ghost predicate FailureOf(failures: seq<Failure>, t: Try) {
    exists a :: 0 <= a < |failures| && FailedAs(failures[a], t)
  }

  ghost predicate FailedIn(f: Failure, tries: seq<Try>) {
    exists k :: 0 <= k < |tries| && FailedAs(f, tries[k])
  }

  lemma {:induction false} NothingTried(w: Wiring, ev: Event, i: nat, already: set<string>)
    ensures Tried(w, ev, i, already, [], 0) && FailuresTold([], []) && SentBy([]) == [] && Reached([]) == {}
  {
  }

  lemma {:induction false} NothingToTry(w: Wiring, ev: Event, i: nat, already: set<string>, tries: seq<Try>, j: nat)
    requires j < |w.channels| && Tried(w, ev, i, already, tries, j)
    requires Owes(w, ev, w.channels[j]) ==> w.channels[j].name in already + Reached(tries)
    ensures Tried(w, ev, i, already, tries, j + 1)
  {
    hide Owes;
    OwedBeforeNext(w, ev, j);
  }

  lemma {:induction false} OwedBeforeNext(w: Wiring, ev: Event, j: nat)
    requires j < |w.channels|
    ensures forall channel ::
              OwedBefore(w, ev, channel, j + 1) <==>
              OwedBefore(w, ev, channel, j) || (channel == w.channels[j].name && Owes(w, ev, w.channels[j]))
  {
    hide Owes;
    forall channel | OwedBefore(w, ev, channel, j + 1) && !OwedBefore(w, ev, channel, j)
      ensures channel == w.channels[j].name && Owes(w, ev, w.channels[j])
    {
      var k :| 0 <= k < j + 1 && k < |w.channels| && w.channels[k].name == channel && Owes(w, ev, w.channels[k]);
    }
  }

  lemma {:induction false} OneTried(w: Wiring, ev: Event, i: nat, already: set<string>, tries: seq<Try>, j: nat, t: Try)
    requires DistinctNames(w) && j < |w.channels| && Tried(w, ev, i, already, tries, j)
    requires Owes(w, ev, w.channels[j]) && w.channels[j].name !in already
    requires t.place == i && t.channel == w.channels[j].name
    ensures Tried(w, ev, i, already, tries + [t], j + 1)
    ensures SentBy(tries + [t]) == SentBy(tries) + if t.result.Succeeded? then [Delivery(i, t.channel)] else []
    ensures Reached(tries + [t]) == Reached(tries) + if t.result.Succeeded? then {t.channel} else {}
  {
    var now := tries + [t];
    assert now[..|tries|] == tries;
    ReachedMore(tries, t);
    OwedBeforeNext(w, ev, j);
    NotYetTried(w, ev, i, already, tries, j);
    hide Owes, Reached, OwedBefore, DistinctNames;
    forall channel | OwedBefore(w, ev, channel, j + 1) && channel !in already ensures TriedOn(now, channel) {
      if channel == t.channel {
        assert now[|tries|].channel == channel;
      } else {
        assert TriedOn(tries, channel);
        var k :| 0 <= k < |tries| && tries[k].channel == channel;
        assert now[k].channel == channel;
      }
    }
  }

  lemma {:induction false} NotYetTried(w: Wiring, ev: Event, i: nat, already: set<string>, tries: seq<Try>, j: nat)
    requires DistinctNames(w) && j < |w.channels| && Tried(w, ev, i, already, tries, j)
    ensures forall k :: 0 <= k < |tries| ==> tries[k].channel != w.channels[j].name
  {
    hide Owes;
    forall k | 0 <= k < |tries| ensures tries[k].channel != w.channels[j].name {
      assert OwedBefore(w, ev, tries[k].channel, j);
    }
  }

  lemma {:induction false} OneMoreTold(failures: seq<Failure>, tries: seq<Try>, t: Try, f: Failure)
    requires FailuresTold(failures, tries)
    ensures t.result.Succeeded? ==> FailuresTold(failures, tries + [t])
    ensures FailedAs(f, t) ==> FailuresTold(failures + [f], tries + [t])
  {
    var all, now := failures + [f], tries + [t];
    assert now[|tries|] == t && all[|failures|] == f;
    forall a | 0 <= a < |failures| ensures FailedIn(failures[a], now) && all[a] == failures[a] {
      assert FailedIn(failures[a], tries);
      var k :| 0 <= k < |tries| && FailedAs(failures[a], tries[k]);
      assert now[k] == tries[k];
    }
    forall k | 0 <= k < |tries| && !tries[k].result.Succeeded?
      ensures FailureOf(failures, now[k]) && FailureOf(all, now[k])
    {
      assert FailureOf(failures, tries[k]);
      var a :| 0 <= a < |failures| && FailedAs(failures[a], tries[k]);
      assert all[a] == failures[a];
    }
  }

  lemma {:induction false} ReachedMore(tries: seq<Try>, t: Try)
    ensures Reached(tries + [t]) == Reached(tries) + if t.result.Succeeded? then {t.channel} else {}
  {
    var now := tries + [t];
    assert now[|tries|] == t;
    forall k | 0 <= k < |tries| && tries[k].result.Succeeded? ensures tries[k].channel in Reached(now) {
      assert now[k] == tries[k];
    }
    forall c | c in Reached(now) ensures c in Reached(tries) || (t.result.Succeeded? && c == t.channel) {
      var k :| 0 <= k < |now| && now[k].result.Succeeded? && now[k].channel == c;
      assert k < |tries| ==> now[k] == tries[k];
    }
  }

  /** The failures of one event, in channel order, each of a channel the event is owed to. */
  ghost predicate FailuresOf(w: Wiring, ev: Event, failures: seq<Failure>, upTo: nat) {
    && (forall a :: 0 <= a < |failures| ==>
          && failures[a].place < upTo <= |w.channels|
          && w.channels[failures[a].place].name == failures[a].channel
          && Owes(w, ev, w.channels[failures[a].place]))
    && forall a, b :: 0 <= a < b < |failures| ==> failures[a].place < failures[b].place
  }

  /** Every owed channel before `upTo` either has the event or failed. */
  ghost predicate Accounted(w: Wiring, ev: Event, i: nat, sent: seq<Delivery>, failures: seq<Failure>, upTo: nat) {
    forall j :: 0 <= j < upTo <= |w.channels| && Owes(w, ev, w.channels[j]) ==>
      Delivery(i, w.channels[j].name) in sent || exists a :: 0 <= a < |failures| && failures[a].place == j
  }

  /** Where the fan-out of the i-th event stands after its first `upTo` channels. */
  ghost predicate FannedOut(w: Wiring, ev: Event, i: nat, sent: seq<Delivery>, failures: seq<Failure>,
                            delivered: set<string>, upTo: nat) {
    && upTo <= |w.channels|
    && FailuresOf(w, ev, failures, upTo)
    && Accounted(w, ev, i, sent, failures, upTo)
    && forall name :: name in delivered ==> Delivery(i, name) in sent
  }

  /** A channel the event is not owed to, or that already has it, needs nothing. */
  lemma {:induction false} NothingToDo(w: Wiring, ev: Event, i: nat, sent: seq<Delivery>, failures: seq<Failure>,
                                       delivered: set<string>, j: nat)
    requires j < |w.channels| && FannedOut(w, ev, i, sent, failures, delivered, j)
    requires Owes(w, ev, w.channels[j]) ==> w.channels[j].name in delivered
    ensures FannedOut(w, ev, i, sent, failures, delivered, j + 1)
  {
  }

  lemma {:induction false} WorkerDelivered(w: Wiring, ev: Event, i: nat, sent: seq<Delivery>, failures: seq<Failure>,
                                           delivered: set<string>, j: nat)
    requires j < |w.channels| && FannedOut(w, ev, i, sent, failures, delivered, j)
    ensures FannedOut(w, ev, i, sent + [Delivery(i, w.channels[j].name)], failures, delivered + {w.channels[j].name},
                      j + 1)
  {
    var now := sent + [Delivery(i, w.channels[j].name)];
    assert now[|sent|] == Delivery(i, w.channels[j].name);
    forall d | d in sent ensures d in now {
      var p :| 0 <= p < |sent| && sent[p] == d;
      assert now[p] == d;
    }
  }

  lemma {:induction false} WorkerFailed(w: Wiring, ev: Event, i: nat, sent: seq<Delivery>, failures: seq<Failure>,
                                        delivered: set<string>, j: nat, f: Failure)
    requires j < |w.channels| && FannedOut(w, ev, i, sent, failures, delivered, j) && Owes(w, ev, w.channels[j])
    requires f.place == j && f.channel == w.channels[j].name
    ensures FannedOut(w, ev, i, sent, failures + [f], delivered, j + 1)
  {
    var now := failures + [f];
    assert now[|failures|].place == j;
    forall k | 0 <= k < j && Owes(w, ev, w.channels[k])
      ensures Delivery(i, w.channels[k].name) in sent || exists a :: 0 <= a < |now| && now[a].place == k
    {
      if Delivery(i, w.channels[k].name) !in sent {
        var a :| 0 <= a < |failures| && failures[a].place == k;
        assert now[a] == failures[a];
      }
    }
  }

  /** The fan-out after its first `upTo` channels: what was tried, what came of it, and what is left. */
  ghost predicate Fanning(w: Wiring, ev: Event, i: nat, already: set<string>, before: seq<Delivery>,
                          sent: seq<Delivery>, tries: seq<Try>, failures: seq<Failure>, delivered: set<string>,
                          upTo: nat) {
    && FannedOut(w, ev, i, sent, failures, delivered, upTo)
    && Tried(w, ev, i, already, tries, upTo) && FailuresTold(failures, tries)
    && sent == before + SentBy(tries) && delivered == already + Reached(tries)
  }

  lemma {:induction false} FanningBegins(w: Wiring, ev: Event, i: nat, already: set<string>, before: seq<Delivery>)
    requires FannedOut(w, ev, i, before, [], already, 0)
    ensures Fanning(w, ev, i, already, before, before, [], [], already, 0)
  {
    hide FannedOut;
    NothingTried(w, ev, i, already);
  }

  lemma {:induction false} FanningSkips(w: Wiring, ev: Event, i: nat, already: set<string>, before: seq<Delivery>,
                                        sent: seq<Delivery>, tries: seq<Try>, failures: seq<Failure>,
                                        delivered: set<string>, j: nat)
    requires j < |w.channels| && Fanning(w, ev, i, already, before, sent, tries, failures, delivered, j)
    requires Owes(w, ev, w.channels[j]) ==> w.channels[j].name in delivered
    ensures Fanning(w, ev, i, already, before, sent, tries, failures, delivered, j + 1)
  {
    hide FannedOut, Tried, FailuresTold, SentBy, Reached, Owes;
    NothingToDo(w, ev, i, sent, failures, delivered, j);
    NothingToTry(w, ev, i, already, tries, j);
  }

  lemma {:induction false} FanningDelivers(w: Wiring, ev: Event, i: nat, already: set<string>, before: seq<Delivery>,
                                           sent: seq<Delivery>, tries: seq<Try>, failures: seq<Failure>,
                                           delivered: set<string>, j: nat)
    requires DistinctNames(w) && j < |w.channels| && Owes(w, ev, w.channels[j]) && w.channels[j].name !in delivered
    requires Fanning(w, ev, i, already, before, sent, tries, failures, delivered, j)
    ensures var name := w.channels[j].name;
            Fanning(w, ev, i, already, before, sent + [Delivery(i, name)], tries + [Try(i, name, Succeeded)], failures,
                    delivered + {name}, j + 1)
  {
    hide FannedOut, Tried, FailuresTold, SentBy, Reached, Owes, DistinctNames;
    var name := w.channels[j].name;
    var t := Try(i, name, Succeeded);
    WorkerDelivered(w, ev, i, sent, failures, delivered, j);
    OneTried(w, ev, i, already, tries, j, t);
    OneMoreTold(failures, tries, t, Failure(j, name, 0, ""));
    assert before + SentBy(tries) + [Delivery(i, name)] == before + (SentBy(tries) + [Delivery(i, name)]);
  }

  lemma {:induction false} FanningFails(w: Wiring, ev: Event, i: nat, already: set<string>, before: seq<Delivery>,
                                        sent: seq<Delivery>, tries: seq<Try>, failures: seq<Failure>,
                                        delivered: set<string>, j: nat, a: Attempt)
    requires DistinctNames(w) && j < |w.channels| && Owes(w, ev, w.channels[j]) && w.channels[j].name !in delivered
    requires Fanning(w, ev, i, already, before, sent, tries, failures, delivered, j) && !a.Succeeded?
    ensures var name := w.channels[j].name;
            Fanning(w, ev, i, already, before, sent, tries + [Try(i, name, a)],
                    failures + [Failure(j, name, if a.Exhausted? then a.attempts else 0, a.cause)], delivered, j + 1)
  {
    var name := w.channels[j].name;
    var t, f := Try(i, name, a), Failure(j, name, if a.Exhausted? then a.attempts else 0, a.cause);
    assert FailedAs(f, t);
    hide FannedOut, Tried, FailuresTold, SentBy, Reached, Owes, DistinctNames, FailedAs;
    WorkerFailed(w, ev, i, sent, failures, delivered, j, f);
    OneTried(w, ev, i, already, tries, j, t);
    OneMoreTold(failures, tries, t, f);
    assert SentBy(tries) + [] == SentBy(tries);
  }

  ghost function Places(failures: seq<Failure>): set<nat> {
    set a | 0 <= a < |failures| :: failures[a].place
  }

  lemma {:induction false} PlacesAreDistinct(w: Wiring, ev: Event, failures: seq<Failure>)
    requires FailuresOf(w, ev, failures, |w.channels|)
    ensures |Places(failures)| == |failures| && Places(failures) <= OwedPlaces(w, ev)
  {
    if failures == [] {
      assert Places(failures) == {};
    } else {
      var last := |failures| - 1;
      PlacesGrow(w, ev, failures);
      hide FailuresOf, Places, OwedPlaces;
      PlacesAreDistinct(w, ev, failures[..last]);
    }
  }

  lemma {:induction false} PlacesGrow(w: Wiring, ev: Event, failures: seq<Failure>)
    requires failures != [] && FailuresOf(w, ev, failures, |w.channels|)
    ensures var last := |failures| - 1;
            && FailuresOf(w, ev, failures[..last], |w.channels|)
            && Places(failures) == Places(failures[..last]) + {failures[last].place}
            && failures[last].place !in Places(failures[..last]) && failures[last].place in OwedPlaces(w, ev)
  {
    hide Owes;
  }

  /** The errors recorded for all of an event's failures fit its budget. */
  lemma {:induction false} FailuresFit(w: Wiring, ev: Event, failures: seq<Failure>)
    requires DistinctNames(w) && FailuresOf(w, ev, failures, |w.channels|)
    ensures Cost(w, ev, |failures|) <= Budget(w, ev)
  {
    PlacesAreDistinct(w, ev, failures);
    FailuresStayInBudget(w, ev, Places(failures));
  }

  /** One recorded error and what it may lead to cost exactly one failure's share. */
  lemma {:induction false} ErrorCost(w: Wiring, ev: Event, f: Failure, err: Event, rest: nat)
    requires f.place < |w.channels| && w.channels[f.place].name == f.channel && Owes(w, ev, w.channels[f.place])
    requires Records(err, ev, f.channel)
    ensures 1 + Budget(w, err) + Cost(w, ev, rest) == Cost(w, ev, rest + 1)
    ensures Level(err) < Level(ev)
  {
    ErrorsAreSmaller(w, ev, err, f.place);
  }

  /** The error recorded for a failure, with the attempts it took. */
  ghost predicate ErrorFor(err: Event, orig: Event, f: Failure) {
    && Records(err, orig, f.channel) && Meta(err, "attempts") == FormatInt(f.attempts)
    && err.source == "plect" && err.direction == "internal"
  }

  ghost predicate FailureRecorded(log: seq<Event>, i: nat, f: Failure)
    requires i < |log|
  {
    exists m :: i < m < |log| && ErrorFor(log[m], log[i], f)
  }

  /** Every failure has its own error in the log past the event. */
  ghost predicate AllRecorded(log: seq<Event>, i: nat, failures: seq<Failure>, upTo: nat)
    requires i < |log|
  {
    upTo <= |failures| && forall a :: 0 <= a < upTo ==> FailureRecorded(log, i, failures[a])
  }

  lemma {:induction false} AllRecordedStays(log: seq<Event>, log': seq<Event>, i: nat, failures: seq<Failure>,
                                            upTo: nat)
    requires log <= log' && i < |log| && AllRecorded(log, i, failures, upTo)
    ensures AllRecorded(log', i, failures, upTo)
  {
    forall a | 0 <= a < upTo ensures FailureRecorded(log', i, failures[a]) {
      var m :| i < m < |log| && ErrorFor(log[m], log[i], failures[a]);
      assert log'[m] == log[m];
    }
  }

  lemma {:induction false} AllRecordedAdds(log: seq<Event>, i: nat, failures: seq<Failure>, k: nat, err: Event)
    requires i < |log| && k < |failures| && AllRecorded(log, i, failures, k) && ErrorFor(err, log[i], failures[k])
    ensures AllRecorded(log + [err], i, failures, k + 1)
  {
    var now := log + [err];
    AllRecordedStays(log, now, i, failures, k);
    assert now[|log|] == err;
  }

  /** With the workers accounted for and their failures recorded, the event is settled. */
  lemma {:induction false} FannedOutSettles(w: Wiring, log: seq<Event>, i: nat, sent: seq<Delivery>,
                                            failures: seq<Failure>, delivered: set<string>)
    requires i < |log| && FannedOut(w, log[i], i, sent, failures, delivered, |w.channels|)
    requires AllRecorded(log, i, failures, |failures|)
    ensures Settled(w, log, sent, i)
  {
    forall j | 0 <= j < |w.channels| && Owes(w, log[i], w.channels[j])
      ensures Answered(log, sent, i, w.channels[j].name)
    {
      if Delivery(i, w.channels[j].name) !in sent {
        var a :| 0 <= a < |failures| && failures[a].place == j;
        assert failures[a].channel == w.channels[j].name && FailureRecorded(log, i, failures[a]);
      }
    }
  }
}
