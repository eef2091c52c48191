/** The delivery-failure streak (app/internal/dispatch/channel_health.go). */
module ChannelHealth {
  import opened Wrappers

  datatype Health = Health(consecutive: nat, firstAt: int, lastAt: int, lastChannel: string, lastError: string)

  /** What one fully processed event did to a channel, as the streak sees it. */
  datatype Outcome = Delivered | Failed(channel: string, cause: Option<string>, at: int)

  /** nextChannelFailure: one more failure on top of the streak so far. */
  function NextFailure(prev: Option<Health>, channel: string, cause: Option<string>, at: int): Health {
    var h := if prev.Some? then prev.value else Health(0, 0, 0, "", "");
    var first := if h.consecutive == 0 then at else h.firstAt;
    Health(h.consecutive + 1, first, at, channel, if cause.Some? then cause.value else h.lastError)
  }

  /** recordDeliverySuccess clears an open streak; recordDeliveryFailure adds to it. */
  function Record(prev: Option<Health>, o: Outcome): Option<Health> {
    match o
    case Delivered => if prev.Some? && prev.value.consecutive > 0 then None else prev
    case Failed(channel, cause, at) => Some(NextFailure(prev, channel, cause, at))
  }

  ghost function Replay(outcomes: seq<Outcome>): Option<Health> {
    if outcomes == [] then None
    else Record(Replay(outcomes[..|outcomes| - 1]), outcomes[|outcomes| - 1])
  }

  lemma {:induction false} ReplayNext(outcomes: seq<Outcome>, o: Outcome)
    ensures Replay(outcomes + [o]) == Record(Replay(outcomes), o)
  {
    assert (outcomes + [o])[..|outcomes|] == outcomes;
  }

  /** How many outcomes at the end are failures. */
  ghost function Trailing(outcomes: seq<Outcome>): (n: nat)
    ensures n <= |outcomes|
  {
    if outcomes == [] || outcomes[|outcomes| - 1].Delivered? then 0
    else 1 + Trailing(outcomes[..|outcomes| - 1])
  }

  lemma {:induction false} TrailingAreFailures(outcomes: seq<Outcome>)
    ensures forall k :: |outcomes| - Trailing(outcomes) <= k < |outcomes| ==> outcomes[k].Failed?
    ensures Trailing(outcomes) < |outcomes| ==> outcomes[|outcomes| - Trailing(outcomes) - 1].Delivered?
  {
    if outcomes != [] && outcomes[|outcomes| - 1].Failed? {
      TrailingAreFailures(outcomes[..|outcomes| - 1]);
    }
  }

  ghost predicate GivesCause(o: Outcome) {
    o.Failed? && o.cause.Some?
  }

  /** The k-th outcome is the last one that came with an error. */
  ghost predicate NewestCause(outcomes: seq<Outcome>, k: nat)
    requires k < |outcomes|
  {
    GivesCause(outcomes[k]) && forall l :: k < l < |outcomes| ==> !GivesCause(outcomes[l])
  }

  /**
   * The stored streak is a fold of the history: open exactly while the newest outcome is a
   * failure, counting the failures since the last success, dated from the first of them. It
   * tells the channel of the newest and the error text of the newest that had one.
   */
  lemma {:induction false} StreakIsTheTail(outcomes: seq<Outcome>)
    ensures var n, h := Trailing(outcomes), Replay(outcomes);
            && h.Some? == (n > 0)
            && (n > 0 ==>
                  && h.value.consecutive == n
                  && outcomes[|outcomes| - n].Failed? && outcomes[|outcomes| - 1].Failed?
                  && h.value.firstAt == outcomes[|outcomes| - n].at
                  && h.value.lastAt == outcomes[|outcomes| - 1].at
                  && h.value.lastChannel == outcomes[|outcomes| - 1].channel
                  && (forall k :: |outcomes| - n <= k < |outcomes| && NewestCause(outcomes, k) ==>
                        h.value.lastError == outcomes[k].cause.value)
                  && ((forall k :: |outcomes| - n <= k < |outcomes| ==> !GivesCause(outcomes[k])) ==>
                        h.value.lastError == ""))
  {
    if outcomes != [] {
      var before := outcomes[..|outcomes| - 1];
      StreakIsTheTail(before);
      TrailingAreFailures(outcomes);
      if !GivesCause(outcomes[|before|]) {
        forall k | 0 <= k < |before| && NewestCause(outcomes, k) ensures NewestCause(before, k) {
        }
        assert forall k :: 0 <= k < |before| ==> before[k] == outcomes[k];
      }
    }
  }
}
