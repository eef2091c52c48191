/**
 * Which channels an event is owed to, the plect.channel.error a failed delivery leaves
 * behind (app/internal/dispatch/dispatcher.go, app/internal/channel/retry.go), and why the
 * relay of those errors dies out.
 */
module Relay {
  import opened Events
  import opened Decimal

  const CHANNEL_ERROR := "plect.channel.error"
  const SESSION_RESUMED := "plect.session.resumed"
  const INSTRUCTION := "plect.instruction"

  datatype Channel = Channel(name: string, includes: seq<string>, uses: string)

  /** The dispatcher's static wiring: its channels, and the channel definitions that resolved. */
  datatype Wiring = Wiring(channels: seq<Channel>, defs: set<string>)

  /** The loader refuses a channel name declared twice. */
  ghost predicate DistinctNames(w: Wiring) {
    forall i, j :: 0 <= i < j < |w.channels| ==> w.channels[i].name != w.channels[j].name
  }

  predicate ChannelMatches(ch: Channel, ev: Event) {
    exists i | 0 <= i < |ch.includes| ::
      || MatchType(ch.includes[i], ev.typ)
      || (ev.typ == SESSION_RESUMED && MatchType(ch.includes[i], INSTRUCTION))
  }

  /** An error about delivering an error: it is never relayed. */
  predicate IsLastWord(ev: Event) {
    ev.typ == CHANNEL_ERROR && Meta(ev, "event_type") == CHANNEL_ERROR
  }

  /** The channel must receive ev or have its failure recorded. */
  predicate Owes(w: Wiring, ev: Event, ch: Channel) {
    && !IsLastWord(ev)
    && ChannelMatches(ch, ev)
    && !(ev.typ == CHANNEL_ERROR && Meta(ev, "channel") == ch.name)
    && ch.uses in w.defs
  }

  /** A channel gets what it includes, a resumed session as an instruction too, and an error about others only. */
  lemma {:induction false} OwesIs(w: Wiring, ev: Event, ch: Channel)
    ensures ev.typ == "plect.channel.error" && Meta(ev, "event_type") == "plect.channel.error" ==> !Owes(w, ev, ch)
    ensures ev.typ == "plect.channel.error" && Meta(ev, "channel") == ch.name ==> !Owes(w, ev, ch)
    ensures ch.uses !in w.defs ==> !Owes(w, ev, ch)
    ensures ch.uses in w.defs
            && (ev.typ == "plect.channel.error" ==>
                  Meta(ev, "event_type") != "plect.channel.error" && Meta(ev, "channel") != ch.name) ==>
              (Owes(w, ev, ch) <==>
                 || (exists pattern :: pattern in ch.includes && MatchType(pattern, ev.typ))
                 || (ev.typ == "plect.session.resumed"
                     && exists pattern :: pattern in ch.includes && MatchType(pattern, "plect.instruction")))
  {
    hide MatchType;
    if ChannelMatches(ch, ev) {
      var i :| 0 <= i < |ch.includes| &&
        (MatchType(ch.includes[i], ev.typ) || (ev.typ == SESSION_RESUMED && MatchType(ch.includes[i], INSTRUCTION)));
      assert ch.includes[i] in ch.includes;
    }
  }

  /** ChannelErrorEvent, with the id and time the append fills in. */
  function ErrorEvent(orig: Event, channel: string, attempts: nat, id: string, at: int): Event {
    Event(id, at, CHANNEL_ERROR, "plect", "internal",
          "event channel " + channel + " failed after " + FormatInt(attempts) + " attempts",
          map["channel" := channel, "event_id" := orig.id, "attempts" := FormatInt(attempts), "event_type" := orig.typ])
  }

  /** err records that orig could not be delivered to the channel. */
  ghost predicate Records(err: Event, orig: Event, channel: string) {
    && err.typ == CHANNEL_ERROR && Meta(err, "channel") == channel
    && Meta(err, "event_id") == orig.id && Meta(err, "event_type") == orig.typ
  }

  // ---- the error relay dies out -------------------------------------------------------

  ghost predicate NamesAChannel(w: Wiring, name: string) {
    exists i | 0 <= i < |w.channels| :: w.channels[i].name == name
  }

  /** The most channel errors that processing ev can ever lead to, its errors' errors included. */
  ghost function Budget(w: Wiring, ev: Event): nat {
    var n := |w.channels|;
    if IsLastWord(ev) then 0
    else if ev.typ == CHANNEL_ERROR then (if n > 0 && NamesAChannel(w, Meta(ev, "channel")) then n - 1 else n)
    else n * n
  }

  /** How many generations of errors ev can still start. */
  ghost function Level(ev: Event): nat {
    if IsLastWord(ev) then 0 else if ev.typ == CHANNEL_ERROR then 1 else 2
  }

  /** The channels, by place, that ev is owed to. */
  ghost function OwedPlaces(w: Wiring, ev: Event): set<nat> {
    set i: nat | i < |w.channels| && Owes(w, ev, w.channels[i])
  }

  lemma {:induction false} PlacesAreFew(places: set<nat>, n: nat)
    requires forall i :: i in places ==> i < n
    ensures |places| <= n
  {
    if n == 0 {
      assert places == {};
    } else {
      PlacesAreFew(places - {n - 1}, n - 1);
      if n - 1 in places {
        assert places == (places - {n - 1}) + {n - 1};
      } else {
        assert places == places - {n - 1};
      }
    }
  }

  /** An error is of a lower level than the event it is about, and cheaper. */
  lemma {:induction false} ErrorsAreSmaller(w: Wiring, orig: Event, err: Event, j: nat)
    requires j < |w.channels| && Owes(w, orig, w.channels[j]) && Records(err, orig, w.channels[j].name)
    ensures Level(err) < Level(orig)
    ensures Budget(w, err) == if orig.typ == CHANNEL_ERROR then 0 else |w.channels| - 1
  {
    assert NamesAChannel(w, w.channels[j].name);
  }

  /** An error about an error is not owed to the channel that failed, so at most n - 1 are. */
  lemma {:induction false} OwedPlacesAreFew(w: Wiring, ev: Event)
    requires DistinctNames(w)
    ensures !IsLastWord(ev) && ev.typ == CHANNEL_ERROR ==> |OwedPlaces(w, ev)| <= Budget(w, ev)
    ensures |OwedPlaces(w, ev)| <= |w.channels|
  {
    var places := OwedPlaces(w, ev);
    PlacesAreFew(places, |w.channels|);
    if ev.typ == CHANNEL_ERROR && NamesAChannel(w, Meta(ev, "channel")) {
      var i :| 0 <= i < |w.channels| && w.channels[i].name == Meta(ev, "channel");
      assert i !in places;
      PlacesAreFew(places + {i}, |w.channels|);
      assert |places + {i}| == |places| + 1;
    }
  }

  /** What a set of failures costs: one error each, and what each error may lead to. */
  ghost function Cost(w: Wiring, ev: Event, failures: nat): nat {
    if ev.typ == CHANNEL_ERROR || |w.channels| == 0 then failures else failures * |w.channels|
  }

  /**
   * However many of the channels an event is owed to fail, the errors appended and
   * everything they can lead to stay within the event's budget.
   */
  lemma {:induction false} FailuresStayInBudget(w: Wiring, ev: Event, failed: set<nat>)
    requires DistinctNames(w) && failed <= OwedPlaces(w, ev)
    ensures Cost(w, ev, |failed|) <= Budget(w, ev)
  {
    OwedPlacesAreFew(w, ev);
    SubsetIsSmaller(failed, OwedPlaces(w, ev));
    var n, k := |w.channels|, |failed|;
    if IsLastWord(ev) {
      assert OwedPlaces(w, ev) == {};
    } else if ev.typ != CHANNEL_ERROR {
      assert k * n <= n * n;
    }
  }

  lemma {:induction false} SubsetIsSmaller(a: set<nat>, b: set<nat>)
    requires a <= b
    ensures |a| <= |b|
  {
    var rest := b - a;
    assert b == a + rest;
    assert |a + rest| == |a| + |rest|;
  }

  /** The budget of everything from place k of the log on. */
  ghost function Total(w: Wiring, events: seq<Event>): nat {
    if events == [] then 0 else Budget(w, events[0]) + Total(w, events[1..])
  }

  lemma {:induction false} TotalConcat(w: Wiring, a: seq<Event>, b: seq<Event>)
    ensures Total(w, a + b) == Total(w, a) + Total(w, b)
  {
    if a == [] {
      assert a + b == b;
    } else {
      assert (a + b)[1..] == a[1..] + b;
      TotalConcat(w, a[1..], b);
    }
  }

  /** n * n channel errors for each of k events, n being the number of channels. */
  ghost function Times(w: Wiring, k: nat): nat {
    k * (|w.channels| * |w.channels|)
  }

  lemma {:induction false} TimesAdds(w: Wiring, a: nat, b: nat)
    ensures Times(w, a + b) == Times(w, a) + Times(w, b)
  {
    var q := |w.channels| * |w.channels|;
    assert (a + b) * q == a * q + b * q;
  }

  /** Unread events lead to at most n * n channel errors each, n being the number of channels. */
  lemma {:induction false} TotalIsQuadratic(w: Wiring, events: seq<Event>)
    ensures Total(w, events) <= Times(w, |events|)
  {
    var q := |w.channels| * |w.channels|;
    forall i | 0 <= i < |events| ensures Budget(w, events[i]) <= q {
      BudgetIsQuadratic(w, events[i]);
    }
    TotalIsBounded(w, events, q);
  }

  lemma {:induction false} TotalIsBounded(w: Wiring, events: seq<Event>, q: nat)
    requires forall i :: 0 <= i < |events| ==> Budget(w, events[i]) <= q
    ensures Total(w, events) <= |events| * q
  {
    if events != [] {
      TotalIsBounded(w, events[1..], q);
      assert |events| * q == q + |events[1..]| * q;
    }
  }

  lemma {:induction false} BudgetIsQuadratic(w: Wiring, ev: Event)
    ensures Budget(w, ev) <= |w.channels| * |w.channels|
  {
    var n := |w.channels|;
    assert n > 0 ==> n <= n * n;
  }

  /** Nothing from place k on can start more than `level` generations. */
  ghost predicate Quiet(log: seq<Event>, k: nat, level: int) {
    forall i :: k <= i < |log| ==> Level(log[i]) <= level
  }
}
