/**
 * The subscriber (contracts/event/client.go, Subscribe and streamOnce): it reads a response
 * line by line and reconnects with the last id it read. A connection may break off after
 * any line.
 */
module BusClient {
  import opened Wrappers
  import opened Events
  import opened Incarnations
  import opened EventStore
  import opened SessionHub
  import opened LiveLoop
  import opened ReplayLoop
  import opened StreamExactness
  import opened EventBus
  import opened ResponseScan
  import ResumeToken
  import Decimal

  // ---- one connection ---------------------------------------------------------------------

  /** A position a subscription can stand at: no stream yet, or one of the session's that a token can name. */
  ghost predicate Standable(h: History, at: Position) {
    Decimal.IsInt64(at.cursor) && (at.stream == "" || (Listed(h, at.stream) && ':' !in at.stream))
  }

  lemma {:induction false} StandableStays(h: History, later: History, at: Position)
    requires Standable(h, at) && Future(h, later)
    ensures Standable(later, at)
  {
    if at.stream != "" {
      IndexIsStable(h, later, at.stream);
    }
  }

  /** Where a subscription stands: nothing read yet, or just past what it has seen. */
  ghost predicate Following(h: History, from: Position, seen: seq<Record>, at: Position) {
    Standable(h, at) && if at.stream == "" then seen == [] && from == at else Between(h, from, seen, at)
  }

  lemma {:induction false} FollowingStays(h: History, later: History, from: Position, seen: seq<Record>, at: Position)
    requires Following(h, from, seen, at) && Future(h, later)
    ensures Following(later, from, seen, at)
  {
    StandableStays(h, later, at);
    if at.stream != "" {
      BetweenStays(h, later, from, seen, at);
    }
  }

  /** The resume token of a position; a fresh subscription sends none. */
  function TokenOf(at: Position): string {
    if at.cursor > 0 || at.stream != "" then ResumeToken.Encode(at.stream, at.cursor) else ""
  }

  lemma {:induction false} TokenResumes(at: Position)
    requires ':' !in at.stream && Decimal.IsInt64(at.cursor)
    ensures ResumeParam(TokenOf(at)) == Some((at.stream, if at.stream == "" && at.cursor < 0 then 0 else at.cursor))
  {
    hide ResumeToken.Parse, ResumeToken.Encode;
    ResumeToken.RoundTrip(at.stream, at.cursor);
    assert at.stream + ":" != "";
    NonemptyToken(at);
  }

  lemma {:induction false} NonemptyToken(at: Position)
    ensures ResumeToken.Encode(at.stream, at.cursor) != ""
  {
  }

  /** Where a subscription turns out to begin: its own position, or the first productive connection's. */
  ghost function Begun(from: Position, at: Position, c: Connection): Position {
    if at.stream == "" then c.origin else from
  }

  /** A connection cut inside a frame, after its id line: that frame is never handed on. */
  ghost function Torn(n: nat): nat {
    if n % 3 == 0 then 0 else 1
  }

  /** How many frames' ids are in the first n lines. */
  ghost function IdsIn(n: nat): nat {
    (n + 2) / 3
  }

  /** A connection of which the first n lines arrived carries the subscription on, if the frames that came are exact. */
  lemma {:induction false} ConnectionContinues(h: History, f: Filter, from: Position, seen: seq<Record>, at: Position,
                            origin: Position, frames: seq<Sse>, n: nat) returns (more: seq<Record>, next: Position)
    requires Valid(h) && 0 < n <= 3 * |frames| && Exact(h, f, origin, frames[..IdsIn(n)])
    requires if at.stream == "" then seen == [] else origin == at && Between(h, from, seen, at)
    ensures Following(h, if at.stream == "" then origin else from, seen + more, next) && next.stream != ""
    ensures AllBut(Owed(f, more), Scanned(Scan(at, [], []), LinesOf(frames)[..n]).calls, Torn(n))
    ensures Scanned(Scan(at, [], []), LinesOf(frames)[..n]).at == next
  {
    hide Scanned, LinesOf, UnreadFrom, Valid, Between, Stands, CallsOf, Written, Owed, AllBut;
    var a, d, u := IdsIn(n), n / 3, UnreadFrom(h, origin);
    CutResponse(Scan(at, [], []), frames, n);
    assert frames[..a] == Written(f, u)[..a] && frames[..d] == frames[..a][..d] == Written(f, u)[..d];
    var k;
    k, next := FramesCarryOn(h, f, origin, u, at, a, d);
    more := u[..k + 1];
    TornCalls(Owed(f, more), [] + CallsOf(at, frames[..d]), n);
    Carried(h, from, seen, at, origin, more, next);
  }

  /** One frame too few was dispatched if the cut fell inside one. */
  lemma {:induction false} TornCalls(owed: seq<Delivery>, calls: seq<Delivery>, n: nat)
    requires 0 < n && |owed| == (n + 2) / 3 && calls == owed[..n / 3]
    ensures AllBut(owed, calls, Torn(n))
  {
    if n % 3 == 0 {
      assert owed[..n / 3] == owed;
      AllButNone(owed);
    } else {
      AllButLast(owed);
    }
  }

  lemma {:induction false} Carried(h: History, from: Position, seen: seq<Record>, at: Position, origin: Position,
                                   more: seq<Record>, next: Position)
    requires Between(h, origin, more, next)
    requires if at.stream == "" then seen == [] else origin == at && Between(h, from, seen, at)
    ensures Between(h, if at.stream == "" then origin else from, seen + more, next)
  {
    if at.stream == "" {
      assert seen + more == more;
    } else {
      BetweenJoins(h, from, seen, at, more, next);
    }
  }

  /** Frames with named ids leave a reader where a subscription can stand. */
  lemma {:induction false} StandsNamed(h: History, at: Position, frames: seq<Sse>)
    requires Standable(h, at) && FramesNamed(h, frames)
    ensures Standable(h, Stands(at, frames))
    ensures if frames == [] then Stands(at, frames) == at else Stands(at, frames).stream != ""
    ensures frames != [] ==>
              var p := ResumeToken.Parse(frames[|frames| - 1].id);
              p.Some? && Stands(at, frames) == Position(p.value.0, p.value.1)
    decreases |frames|
  {
    hide ResumeToken.Parse;
    if frames != [] {
      assert FrameNamed(h, frames[0]);
      var next := Moved(at, frames[0].id);
      assert forall m :: 0 <= m < |frames[1..]| ==> frames[1..][m] == frames[m + 1];
      assert FramesNamed(h, frames[1..]);
      StandsNamed(h, next, frames[1..]);
    }
  }

  /**
   * An accepted connection: what it wrote, how many lines of that came through, what the hub had
   * handed over to it by its end, and where the hub then stood.
   */
  datatype Arrival = Arrival(connection: Connection, frames: seq<Sse>, lines: nat,
                             fed: seq<Record>, queue: seq<Frame>, dead: bool, hubAt: Position)

  /** The lines that came through. */
  ghost function Came(a: Arrival): seq<Line> {
    var all := LinesOf(a.frames);
    if a.lines <= |all| then all[..a.lines] else all
  }

  /** What a client standing at `at` makes of them. */
  ghost function ScanOf(at: Position, a: Arrival): Scan {
    Scanned(Scan(at, [], []), Came(a))
  }

  /** What HandleStream says of the start of the connection a token opened. */
  ghost predicate OpenedBy(token: string, c: Connection) {
    ResumeParam(token).Some? && c.start == Position(ResumeParam(token).value.0, ResumeParam(token).value.1)
  }

  /** A connection opened by a client that stands at `at`, when the hub has come as far as `hub`. */
  ghost predicate Connected(f: Filter, at: Position, hub: Position, a: Arrival) {
    var c := a.connection;
    && Happened(c) && OpenedBy(TokenOf(at), c) && a.lines <= 3 * |a.frames|
    && HandedOver(c, a.fed, a.queue, a.dead, a.hubAt)
    && Accounted(f, c, a.frames, a.fed, a.queue == [] && !a.dead, a.hubAt)
    && (Grounded(c.subscribed, c.origin, c.boundary) ==> FramesUpTo(c.ended, a.frames, a.hubAt.stream))
    && Advances(c.subscribed, hub, c.boundary) && Advances(c.ended, c.boundary, a.hubAt)
  }

  lemma {:induction false} OpensAt(h: History, at: Position, c: Connection)
    requires Valid(h) && Standable(h, at) && OpenedBy(TokenOf(at), c) && Happened(c)
    ensures c.start.stream == at.stream
    ensures at.stream == "" ==> c.start.cursor == if at.cursor < 0 then 0 else at.cursor
    ensures if at.stream != "" then c.origin == at else c.origin.cursor == c.start.cursor
  {
    TokenResumes(at);
    BeginsAtItsStart(c);
    hide Happened;
  }

  /** Where the lines that came through lead, and what is read of them. */
  lemma {:induction false} ScanLeads(f: Filter, h: History, at: Position, hub: Position, a: Arrival)
    requires Connected(f, at, hub, a) && Standable(h, at) && Valid(h) && Future(h, a.connection.ended)
    ensures Standable(a.connection.ended, ScanOf(at, a).at)
    ensures if IdsIn(a.lines) == 0 then ScanOf(at, a) == Scan(at, [], []) else ScanOf(at, a).at.stream != ""
    ensures IdsIn(a.lines) <= |a.frames|
    ensures IdsIn(a.lines) > 0 ==>
              var p := ResumeToken.Parse(a.frames[IdsIn(a.lines) - 1].id);
              p.Some? && ScanOf(at, a).at == Position(p.value.0, p.value.1)
  {
    hide Happened, Accounted, HandedOver, Written, Forwarded, FramesNamed, ResumeToken.Parse, Scanned, LinesOf;
    hide Stands, CallsOf;
    hide FramesUpTo, Grounded, OpenedBy;
    var n := IdsIn(a.lines);
    AccountedNamed(f, a);
    StandableStays(h, a.connection.ended, at);
    CutResponse(Scan(at, [], []), a.frames, a.lines);
    FewerNamed(a.connection.ended, a.frames, n);
    StandsNamed(a.connection.ended, at, a.frames[..n]);
    if n == 0 {
      NoLines(at, LinesOf(a.frames));
    }
  }

  lemma {:induction false} AccountedNamed(f: Filter, a: Arrival)
    requires Happened(a.connection) && HandedOver(a.connection, a.fed, a.queue, a.dead, a.hubAt)
    requires Accounted(f, a.connection, a.frames, a.fed, a.queue == [] && !a.dead, a.hubAt)
    ensures FramesNamed(a.connection.ended, a.frames)
  {
    hide Happened, HandedOver, FramesNamed, Written, Forwarded, Harm;
    FramesAreNamed(f, a.connection, a.frames, a.fed, a.queue, a.dead, a.hubAt);
  }

  lemma {:induction false} FewerNamed(h: History, frames: seq<Sse>, n: nat)
    requires FramesNamed(h, frames) && n <= |frames|
    ensures FramesNamed(h, frames[..n])
  {
    assert forall m :: 0 <= m < n ==> frames[..n][m] == frames[m];
  }

  lemma {:induction false} NoLines(at: Position, lines: seq<Line>)
    ensures Scanned(Scan(at, [], []), lines[..0]) == Scan(at, [], []) && Torn(0) == 0
  {
  }

  // ---- a chain of connections ---------------------------------------------------------------

  /** Where a subscription that stood at `at` stands after these connections. */
  ghost function Led(at: Position, arrivals: seq<Arrival>): Position {
    if arrivals == [] then at else ScanOf(Led(at, arrivals[..|arrivals| - 1]), arrivals[|arrivals| - 1]).at
  }

  /** The callbacks it has made. */
  ghost function Made(at: Position, arrivals: seq<Arrival>): seq<Delivery> {
    if arrivals == [] then []
    else
      var front := arrivals[..|arrivals| - 1];
      Made(at, front) + ScanOf(Led(at, front), arrivals[|arrivals| - 1]).calls
  }

  /**
   * Where the subscription began: the position it stood at or, if that was in no stream, the
   * origin of the first connection of which an id came through.
   */
  ghost function Beginning(at: Position, arrivals: seq<Arrival>): Position {
    if arrivals == [] then at
    else
      var front, a := arrivals[..|arrivals| - 1], arrivals[|arrivals| - 1];
      if IdsIn(a.lines) == 0 then Beginning(at, front) else Begun(Beginning(at, front), Led(at, front), a.connection)
  }

  ghost function HubAfter(hub: Position, arrivals: seq<Arrival>): Position {
    if arrivals == [] then hub else arrivals[|arrivals| - 1].hubAt
  }

  ghost function EndOf(first: History, arrivals: seq<Arrival>): History {
    if arrivals == [] then first else arrivals[|arrivals| - 1].connection.ended
  }

  /**
   * Connections made one after another between the two histories, each opened by the token of
   * the position that the ones before it led to. Attempts that were refused leave no trace.
   */
  ghost predicate Subscription(f: Filter, first: History, h: History, at: Position, hub: Position,
                               arrivals: seq<Arrival>)
    decreases |arrivals|
  {
    if arrivals == [] then Evolves(first, h)
    else
      var front, a := arrivals[..|arrivals| - 1], arrivals[|arrivals| - 1];
      && Subscription(f, first, a.connection.subscribed, at, hub, front)
      && Connected(f, Led(at, front), HubAfter(hub, front), a) && Evolves(a.connection.ended, h)
  }

  lemma {:induction false} SubscriptionStays(f: Filter, first: History, h: History, later: History, at: Position,
                                             hub: Position, arrivals: seq<Arrival>)
    requires Subscription(f, first, h, at, hub, arrivals) && Evolves(h, later)
    ensures Subscription(f, first, later, at, hub, arrivals)
  {
    hide Connected;
    EvolvesIsTransitive(EndOf(first, arrivals), h, later);
  }

  lemma {:induction false} OneMoreArrival(f: Filter, first: History, h: History, at: Position, hub: Position,
                                          arrivals: seq<Arrival>, a: Arrival)
    requires Subscription(f, first, a.connection.subscribed, at, hub, arrivals)
    requires Connected(f, Led(at, arrivals), HubAfter(hub, arrivals), a) && Evolves(a.connection.ended, h)
    ensures Subscription(f, first, h, at, hub, arrivals + [a]) && HubAfter(hub, arrivals + [a]) == a.hubAt
    ensures Led(at, arrivals + [a]) == ScanOf(Led(at, arrivals), a).at
    ensures Made(at, arrivals + [a]) == Made(at, arrivals) + ScanOf(Led(at, arrivals), a).calls
  {
    hide Connected, ScanOf;
    assert (arrivals + [a])[..|arrivals|] == arrivals;
  }

  /** The last connection of a chain, and what it is known to have come after. */
  lemma {:induction false} LastArrival(f: Filter, first: History, h: History, at: Position, hub: Position,
                                       arrivals: seq<Arrival>)
    requires Subscription(f, first, h, at, hub, arrivals) && arrivals != []
    ensures var front, a := arrivals[..|arrivals| - 1], arrivals[|arrivals| - 1];
            && Subscription(f, first, a.connection.subscribed, at, hub, front)
            && Connected(f, Led(at, front), HubAfter(hub, front), a) && Evolves(a.connection.ended, h)
            && Happened(a.connection) && Valid(a.connection.subscribed) && Valid(a.connection.ended)
            && Evolves(a.connection.subscribed, a.connection.landed) && Evolves(a.connection.landed, a.connection.ended)
            && Evolves(a.connection.subscribed, a.connection.ended)
  {
    hide Accounted, HandedOver;
    HappenedSpans(arrivals[|arrivals| - 1].connection);
  }

  lemma {:induction false} SubscriptionSpans(f: Filter, first: History, h: History, at: Position, hub: Position,
                                             arrivals: seq<Arrival>)
    requires Subscription(f, first, h, at, hub, arrivals)
    ensures Evolves(first, h)
    decreases |arrivals|
  {
    hide Connected, Happened;
    if arrivals != [] {
      var c := arrivals[|arrivals| - 1].connection;
      LastArrival(f, first, h, at, hub, arrivals);
      SubscriptionSpans(f, first, c.subscribed, at, hub, arrivals[..|arrivals| - 1]);
      EvolvesIsTransitive(first, c.subscribed, c.ended);
      EvolvesIsTransitive(first, c.ended, h);
    }
  }

  /** A chain leads to where a subscription can stand, and never back to no stream. */
  lemma {:induction false} ChainLeads(f: Filter, first: History, h: History, at: Position, hub: Position,
                                      arrivals: seq<Arrival>)
    requires Valid(first) && Valid(h) && Subscription(f, first, h, at, hub, arrivals) && Standable(first, at)
    ensures Standable(h, Led(at, arrivals)) && (Led(at, arrivals).stream == "" ==> Led(at, arrivals) == at)
    decreases |arrivals|
  {
    hide Connected, Happened, ScanOf, Standable;
    if arrivals == [] {
      StandableStays(first, h, at);
    } else {
      var front, a := arrivals[..|arrivals| - 1], arrivals[|arrivals| - 1];
      LastArrival(f, first, h, at, hub, arrivals);
      ChainLeads(f, first, a.connection.subscribed, at, hub, front);
      ScanLeads(f, a.connection.subscribed, Led(at, front), HubAfter(hub, front), a);
      StandableStays(a.connection.ended, h, Led(at, arrivals));
    }
  }

  /** The hub only moves on. */
  lemma {:induction false} HubMovesOn(f: Filter, first: History, h: History, at: Position, hub: Position,
                                      arrivals: seq<Arrival>)
    requires Valid(first) && Valid(h) && Subscription(f, first, h, at, hub, arrivals) && Advances(first, hub, hub)
    ensures Advances(h, hub, HubAfter(hub, arrivals))
    decreases |arrivals|
  {
    hide Happened, Advances, Accounted, HandedOver, OpenedBy, Grounded, FramesUpTo;
    if arrivals == [] {
      AdvancesStays(first, h, hub, hub);
    } else {
      var front, a := arrivals[..|arrivals| - 1], arrivals[|arrivals| - 1];
      var c := a.connection;
      LastArrival(f, first, h, at, hub, arrivals);
      HubMovesOn(f, first, c.subscribed, at, hub, front);
      AdvancesOn(c.subscribed, c.subscribed, hub, HubAfter(hub, front), c.boundary) by {
        EvolvesFromItself(c.subscribed);
      }
      AdvancesOn(c.subscribed, c.ended, hub, c.boundary, a.hubAt);
      AdvancesStays(c.ended, h, hub, a.hubAt);
    }
  }

  // ---- connections that do no harm ------------------------------------------------------------

  /**
   * A connection that did no harm as far as it came through: none of its live frames arrived, or
   * its feed went on where its replay left off, but for records the filter does not select.
   */
  ghost predicate Harmless(f: Filter, a: Arrival) {
    var c := a.connection;
    !c.live || IdsIn(a.lines) <= |Written(f, c.replayed)| || Select(f, Harm(c.ended, c)) == []
  }

  ghost predicate AllHarmless(f: Filter, arrivals: seq<Arrival>) {
    forall i :: 0 <= i < |arrivals| ==> Harmless(f, arrivals[i])
  }

  /**
   * What suffices for that: the boundary's log held an event when the connection subscribed, and
   * without a token it did not begin in a stream newer than the boundary's; and its replay ended
   * cleanly, as it does if the session stays live and a start without a token is not past the
   * boundary. That a reconnect resumes in no stream newer than the boundary's is proved.
   */
  ghost predicate Sound(c: Connection) {
    && SoundBoundary(c.subscribed, c.boundary)
    && (c.start.stream == "" ==> NotNewer(c.subscribed, c.origin.stream, c.boundary.stream))
    && (c.manner == Clean
        || (Steady(c.subscribed, c.landed) && (c.start.stream == "" ==> c.start.cursor <= c.boundary.cursor)))
  }

  ghost predicate AllSound(arrivals: seq<Arrival>) {
    forall i :: 0 <= i < |arrivals| ==> Sound(arrivals[i].connection)
  }

  /** How many connections were cut inside a frame. */
  ghost function TornCount(arrivals: seq<Arrival>): nat {
    if arrivals == [] then 0 else TornCount(arrivals[..|arrivals| - 1]) + Torn(arrivals[|arrivals| - 1].lines)
  }

  /** What of it came through is exact if and only if it did no harm as far as it came through. */
  lemma {:induction false} HarmlessIffExact(f: Filter, at: Position, hub: Position, a: Arrival)
    requires Connected(f, at, hub, a)
    ensures Harmless(f, a) <==> Exact(a.connection.ended, f, a.connection.origin, a.frames[..IdsIn(a.lines)])
  {
    hide Harm, Exact, Written, Forwarded, Happened, HandedOver, Grounded, FramesUpTo;
    assert ExactUpTo(f, a.connection, a.frames, IdsIn(a.lines));
  }

  lemma {:induction false} SoundIsHarmless(f: Filter, a: Arrival)
    requires Happened(a.connection) && Sound(a.connection)
    requires Grounded(a.connection.subscribed, a.connection.origin, a.connection.boundary)
    ensures Harmless(f, a)
  {
    var c := a.connection;
    if c.live {
      assert Valid(c.subscribed);
      hide Happened, Harm, Grounded;
      if c.manner == Clean {
        CleanIsUnharmed(c);
      } else {
        CalmIsUnharmed(c);
      }
      assert Select(f, []) == [];
    }
  }

  /** A connection that carried the subscription on from `at` to `next`, making `calls`. */
  ghost predicate Continued(h: History, f: Filter, from: Position, seen: seq<Record>, at: Position,
                            from': Position, more: seq<Record>, next: Position, calls: seq<Delivery>, lost: nat) {
    && Following(h, from', seen + more, next)
    && AllBut(Owed(f, more), calls, lost)
    && (next.stream == "" ==> next == at)
    && (at.stream != "" ==> from' == from)
    && (at.stream == "" && next.stream != "" ==> from'.cursor == if at.cursor < 0 then 0 else at.cursor)
  }

  lemma {:induction false} LinesArrived(h: History, later: History, f: Filter, from: Position, seen: seq<Record>,
                                        at: Position, hub: Position, a: Arrival)
    returns (more: seq<Record>)
    requires Valid(h) && Following(h, from, seen, at) && Connected(f, at, hub, a) && Harmless(f, a)
    requires Future(h, a.connection.ended) && Future(a.connection.ended, later)
    ensures var s := ScanOf(at, a);
            Continued(later, f, from, seen, at, if IdsIn(a.lines) == 0 then from else Begun(from, at, a.connection),
                      more, s.at, s.calls, Torn(a.lines))
  {
    hide Exact, Owed, Valid, Evolves, OpenedBy, Scanned, LinesOf, Between, Happened, Accounted, HandedOver, Grounded;
    hide FramesUpTo, Harmless;
    var c := a.connection;
    HarmlessIffExact(f, at, hub, a);
    OpensAt(h, at, c);
    FollowingStays(h, c.ended, from, seen, at);
    ScanLeads(f, h, at, hub, a);
    if IdsIn(a.lines) == 0 {
      more := [];
      NothingMore(f, seen);
      FollowingStays(c.ended, later, from, seen, at);
    } else {
      var reached;
      more, reached := ConnectionContinues(c.ended, f, from, seen, at, c.origin, a.frames, a.lines);
      FollowingStays(c.ended, later, Begun(from, at, c), seen + more, reached);
    }
  }

  lemma {:induction false} NothingMore(f: Filter, seen: seq<Record>)
    ensures seen + [] == seen && Owed(f, []) == []
  {
  }

  /**
   * What a subscription that stood at `at` has come to: where it began, what it has seen, and how
   * many callbacks it lost.
   */
  ghost predicate Serves(h: History, f: Filter, at: Position, from: Position, seen: seq<Record>, next: Position,
                         calls: seq<Delivery>, lost: nat) {
    && Following(h, from, seen, next) && AllBut(Owed(f, seen), calls, lost)
    && (at.stream != "" ==> from == at) && (next.stream == "" ==> next == at)
    && (at.stream == "" && next.stream != "" ==> from.cursor == if at.cursor < 0 then 0 else at.cursor)
  }

  lemma {:induction false} ServesStart(h: History, f: Filter, at: Position)
    requires Standable(h, at)
    ensures Serves(h, f, at, at, [], at, [], 0)
  {
    BetweenNothing(h, at);
  }

  lemma {:induction false} ServesOn(h: History, later: History, f: Filter, at: Position, from: Position,
                                    seen: seq<Record>, mid: Position, calls: seq<Delivery>, lost: nat, from': Position,
                                    more: seq<Record>, next: Position, calls': seq<Delivery>, lost': nat)
    requires Serves(h, f, at, from, seen, mid, calls, lost)
    requires Continued(later, f, from, seen, mid, from', more, next, calls', lost')
    ensures Serves(later, f, at, from', seen + more, next, calls + calls', lost + lost')
  {
    hide Owed, AllBut, Between, Standable;
    OwedConcat(f, seen, more);
    AllButConcat(Owed(f, seen), calls, lost, Owed(f, more), calls', lost');
  }

  /**
   * Over any chain of connections that do no harm, what is missing of the events from its start is
   * one at each torn frame.
   */
  lemma {:induction false} HarmlessRun(f: Filter, first: History, h: History, at: Position, hub: Position,
                                       arrivals: seq<Arrival>)
    returns (from: Position, seen: seq<Record>)
    requires Valid(first) && Valid(h) && Subscription(f, first, h, at, hub, arrivals) && Standable(first, at)
    requires AllHarmless(f, arrivals)
    ensures from == Beginning(at, arrivals)
    ensures Serves(h, f, at, from, seen, Led(at, arrivals), Made(at, arrivals), TornCount(arrivals))
    decreases |arrivals|
  {
    hide Connected, Happened, ScanOf, Serves, Continued, Standable, Harmless, Valid, Evolves, HubAfter, Following;
    if arrivals == [] {
      from, seen := at, [];
      StandableStays(first, h, at);
      ServesStart(h, f, at);
    } else {
      var front, a := arrivals[..|arrivals| - 1], arrivals[|arrivals| - 1];
      var c := a.connection;
      LastArrival(f, first, h, at, hub, arrivals);
      assert forall i :: 0 <= i < |front| ==> front[i] == arrivals[i];
      var from0, seen0 := HarmlessRun(f, first, c.subscribed, at, hub, front);
      ServesFollows(c.subscribed, f, at, from0, seen0, Led(at, front), Made(at, front), TornCount(front));
      var more := LinesArrived(c.subscribed, h, f, from0, seen0, Led(at, front), HubAfter(hub, front), a);
      from, seen := if IdsIn(a.lines) == 0 then from0 else Begun(from0, Led(at, front), c), seen0 + more;
      ServesOn(c.subscribed, h, f, at, from0, seen0, Led(at, front), Made(at, front), TornCount(front), from, more,
               Led(at, arrivals), ScanOf(Led(at, front), a).calls, Torn(a.lines));
    }
  }

  lemma {:induction false} ServesFollows(h: History, f: Filter, at: Position, from: Position, seen: seq<Record>,
                                         next: Position, calls: seq<Delivery>, lost: nat)
    requires Serves(h, f, at, from, seen, next, calls, lost)
    ensures Following(h, from, seen, next)
  {
  }

  /** The records seen are where the chain began and onwards; nothing is missing exactly when nothing was lost. */
  lemma {:induction false} ServesMeans(h: History, f: Filter, at: Position, from: Position, seen: seq<Record>,
                                       next: Position, calls: seq<Delivery>, lost: nat)
    requires Valid(h) && Serves(h, f, at, from, seen, next, calls, lost)
    ensures AllBut(Owed(f, seen), calls, lost) && seen <= UnreadFrom(h, from) && (calls == Owed(f, seen) <==> lost == 0)
    ensures at.stream != "" ==> from == at
    ensures at.stream == "" && seen != [] ==> from.cursor == if at.cursor < 0 then 0 else at.cursor
  {
    hide Owed, UnreadFrom, Valid, AllBut;
    AllButCounts(Owed(f, seen), calls, lost);
    if next.stream != "" {
      PrefixOfBetween(h, from, seen, next);
    }
  }

  // ---- what a caller can know beforehand --------------------------------------------------------

  /** The hub has come to the session's current stream, and to where the subscription starts. */
  ghost predicate CaughtUp(h: History, hub: Position, since: int) {
    h.incs != [] && hub.stream != "" && hub.stream == Newest(h).id && since <= hub.cursor && 0 <= hub.cursor
  }

  /** Then, as long as the session stays live, no connection does harm. */
  lemma {:induction false} SteadyRun(f: Filter, first: History, h: History, since: int, hub: Position,
                                     arrivals: seq<Arrival>)
    requires Valid(first) && Valid(h) && Subscription(f, first, h, Position("", since), hub, arrivals)
    requires Decimal.IsInt64(since)
    requires CaughtUp(first, hub, since) && Steady(first, h)
    ensures AllHarmless(f, arrivals)
    decreases |arrivals|
  {
    hide Connected, Happened, Harmless, CaughtUp, Steady, Evolves, Valid, Subscription, Led, HubAfter, Standable;
    hide Advances, ScanOf;
    if arrivals != [] {
      var at, front, a := Position("", since), arrivals[..|arrivals| - 1], arrivals[|arrivals| - 1];
      var c := a.connection;
      LastArrival(f, first, h, at, hub, arrivals);
      SteadySpans(f, first, h, at, hub, arrivals);
      SteadyRun(f, first, c.subscribed, since, hub, front);
      SteadyStanding(f, first, c.subscribed, since, hub, front);
      SteadyArrival(f, first, Led(at, front), since, hub, HubAfter(hub, front), a);
      assert forall i :: 0 <= i < |front| ==> front[i] == arrivals[i];
    }
  }

  lemma {:induction false} SteadySpans(f: Filter, first: History, h: History, at: Position, hub: Position,
                                       arrivals: seq<Arrival>)
    requires Subscription(f, first, h, at, hub, arrivals) && arrivals != [] && Steady(first, h)
    ensures var c := arrivals[|arrivals| - 1].connection;
            Evolves(first, c.subscribed) && Steady(first, c.subscribed) && Steady(c.subscribed, c.landed)
  {
    hide Connected, Happened, Steady, Evolves, Valid, Subscription, Led, HubAfter;
    var c := arrivals[|arrivals| - 1].connection;
    LastArrival(f, first, h, at, hub, arrivals);
    SubscriptionSpans(f, first, c.subscribed, at, hub, arrivals[..|arrivals| - 1]);
    EvolvesIsTransitive(c.landed, c.ended, h);
    EvolvesIsTransitive(c.subscribed, c.landed, h);
    SteadyThroughout(first, c.subscribed, h);
    SteadyThroughout(c.subscribed, c.landed, h);
  }

  lemma {:induction false} SteadyStanding(f: Filter, first: History, h: History, since: int, hub: Position,
                                          arrivals: seq<Arrival>)
    requires Valid(first) && Valid(h) && Subscription(f, first, h, Position("", since), hub, arrivals)
    requires Decimal.IsInt64(since)
    requires CaughtUp(first, hub, since)
    ensures var at := Led(Position("", since), arrivals);
            Standable(h, at) && (at.stream == "" ==> at == Position("", since))
    ensures Advances(h, hub, HubAfter(hub, arrivals))
  {
    hide Connected, Happened, Evolves, Valid, Subscription, Led, HubAfter, Advances;
    NewestIsItself(first, hub);
    ChainLeads(f, first, h, Position("", since), hub, arrivals);
    HubMovesOn(f, first, h, Position("", since), hub, arrivals);
  }

  lemma {:induction false} NewestIsItself(h: History, hub: Position)
    requires Valid(h) && h.incs != [] && hub.stream == Newest(h).id
    ensures Advances(h, hub, hub)
  {
    IndexIs(h, |h.incs| - 1);
  }

  lemma {:induction false} SteadyArrival(f: Filter, first: History, at: Position, since: int, hub: Position,
                                         now: Position, a: Arrival)
    requires Connected(f, at, now, a) && Valid(a.connection.subscribed) && Evolves(first, a.connection.subscribed)
    requires Standable(a.connection.subscribed, at) && (at.stream == "" ==> at == Position("", since))
    requires CaughtUp(first, hub, since) && Steady(first, a.connection.subscribed)
    requires Steady(a.connection.subscribed, a.connection.landed)
    requires Advances(a.connection.subscribed, hub, now)
    ensures Harmless(f, a)
  {
    var c := a.connection;
    OpensAt(c.subscribed, at, c);
    hide Happened, Accounted, HandedOver, FramesUpTo, Grounded, Harm, Valid, Evolves, OpenedBy;
    EvolvesFromItself(c.subscribed);
    AdvancesOn(c.subscribed, c.subscribed, hub, now, c.boundary);
    SameNewest(first, c.subscribed);
    AtTheNewest(c.subscribed, hub, c.boundary);
    if c.live {
      CalmIsUnharmed(c);
      assert Select(f, []) == [];
    }
  }

  lemma {:induction false} AtTheNewest(h: History, hub: Position, p: Position)
    requires Valid(h) && h.incs != [] && hub.stream != "" && hub.stream == Newest(h).id && Advances(h, hub, p)
    ensures p.stream == hub.stream && hub.cursor <= p.cursor
  {
    IndexIs(h, |h.incs| - 1);
    assert h.incs[IndexIn(h.incs, p.stream)].id == p.stream;
  }

  /** The subscription stands in no stream that the hub has not come to. */
  ghost predicate Behind(h: History, at: Position, hub: Position) {
    at.stream != "" ==> NotNewer(h, at.stream, hub.stream)
  }

  lemma {:induction false} BehindOn(h: History, later: History, at: Position, hub: Position, next: Position)
    requires Valid(h) && Behind(h, at, hub) && Future(h, later) && Advances(later, hub, next)
    ensures Behind(later, at, next)
  {
    if at.stream != "" {
      NotNewerChain(h, later, at.stream, hub.stream, next.stream);
    }
  }

  /** A reconnect never resumes in a stream newer than the boundary's. */
  lemma {:induction false} ReconnectIsGrounded(f: Filter, at: Position, hub: Position, a: Arrival)
    requires var c := a.connection;
             Connected(f, at, hub, a) && Valid(c.subscribed) && Standable(c.subscribed, at)
             && Behind(c.subscribed, at, hub) && Sound(c)
    ensures Grounded(a.connection.subscribed, a.connection.origin, a.connection.boundary)
  {
    var c := a.connection;
    OpensAt(c.subscribed, at, c);
    hide Happened, Accounted, HandedOver, FramesUpTo, OpenedBy;
    if at.stream != "" {
      EvolvesFromItself(c.subscribed);
      NotNewerChain(c.subscribed, c.subscribed, at.stream, hub.stream, c.boundary.stream);
    }
  }

  /** A chain of sound connections does no harm, and stays behind the hub. */
  lemma {:induction false} SoundRun(f: Filter, first: History, h: History, at: Position, hub: Position,
                                    arrivals: seq<Arrival>)
    requires Valid(first) && Valid(h) && Subscription(f, first, h, at, hub, arrivals) && Standable(first, at)
    requires Behind(first, at, hub) && AllSound(arrivals) && Advances(first, hub, hub)
    ensures AllHarmless(f, arrivals) && Behind(h, Led(at, arrivals), HubAfter(hub, arrivals))
    decreases |arrivals|
  {
    hide Connected, Happened, Harmless, Sound, Behind, ScanOf;
    if arrivals == [] {
      AdvancesStays(first, h, hub, hub);
      BehindOn(first, h, at, hub, hub);
    } else {
      var front, a := arrivals[..|arrivals| - 1], arrivals[|arrivals| - 1];
      var c := a.connection;
      LastArrival(f, first, h, at, hub, arrivals);
      assert forall i :: 0 <= i < |front| ==> front[i] == arrivals[i];
      SoundRun(f, first, c.subscribed, at, hub, front);
      ChainLeads(f, first, c.subscribed, at, hub, front);
      SoundArrival(f, Led(at, front), HubAfter(hub, front), a, h);
    }
  }

  lemma {:induction false} SoundArrival(f: Filter, at: Position, hub: Position, a: Arrival, h: History)
    requires Connected(f, at, hub, a) && Sound(a.connection) && Future(a.connection.ended, h)
    requires Valid(a.connection.subscribed) && Valid(a.connection.ended)
    requires Evolves(a.connection.subscribed, a.connection.ended)
    requires Standable(a.connection.subscribed, at) && Behind(a.connection.subscribed, at, hub)
    ensures Harmless(f, a) && Behind(h, ScanOf(at, a).at, a.hubAt)
  {
    hide Happened, Accounted, HandedOver, Grounded, Sound, Harmless, OpenedBy, ScanOf, Advances, Behind, Valid, Evolves;
    var c := a.connection;
    ReconnectIsGrounded(f, at, hub, a);
    SoundIsHarmless(f, a);
    ScanLeads(f, c.subscribed, at, hub, a);
    if IdsIn(a.lines) == 0 {
      EvolvesFromItself(c.subscribed);
      BehindOn(c.subscribed, c.subscribed, at, hub, c.boundary);
      BehindOn(c.subscribed, c.ended, at, c.boundary, a.hubAt);
      BehindStays(c.ended, h, at, a.hubAt);
    } else {
      assert FrameUpTo(c.ended, a.frames[IdsIn(a.lines) - 1], a.hubAt.stream);
      UpToIsBehind(c.ended, a.frames[IdsIn(a.lines) - 1], ScanOf(at, a).at, a.hubAt);
      BehindStays(c.ended, h, ScanOf(at, a).at, a.hubAt);
    }
  }

  lemma {:induction false} UpToIsBehind(h: History, frame: Sse, at: Position, hub: Position)
    requires FrameUpTo(h, frame, hub.stream) && ResumeToken.Parse(frame.id).value.0 == at.stream
    ensures Behind(h, at, hub)
  {
  }

  lemma {:induction false} BehindStays(h: History, later: History, at: Position, hub: Position)
    requires Behind(h, at, hub) && Future(h, later)
    ensures Behind(later, at, hub)
  {
    if at.stream != "" {
      NotNewerStays(h, later, at.stream, hub.stream);
    }
  }

  // ---- after a connection that did harm -------------------------------------------------------

  lemma {:induction false} LedOn(at: Position, arrivals: seq<Arrival>, j: nat)
    requires j <= |arrivals|
    ensures Led(Led(at, arrivals[..j]), arrivals[j..]) == Led(at, arrivals)
    ensures Made(at, arrivals) == Made(at, arrivals[..j]) + Made(Led(at, arrivals[..j]), arrivals[j..])
    decreases |arrivals|
  {
    hide ScanOf;
    if j == |arrivals| {
      assert arrivals[..j] == arrivals && arrivals[j..] == [];
    } else {
      var front := arrivals[..|arrivals| - 1];
      LedOn(at, front, j);
      assert front[..j] == arrivals[..j] && arrivals[j..][..|arrivals| - j - 1] == front[j..];
    }
  }

  /** From any connection on, a chain is a chain from where the ones before it led. */
  lemma {:induction false} RestOfTheChain(f: Filter, first: History, h: History, at: Position, hub: Position,
                                          arrivals: seq<Arrival>, j: nat)
    requires Subscription(f, first, h, at, hub, arrivals) && j <= |arrivals|
    ensures Subscription(f, EndOf(first, arrivals[..j]), h, Led(at, arrivals[..j]), HubAfter(hub, arrivals[..j]),
                         arrivals[j..])
    decreases |arrivals|
  {
    hide Connected, ScanOf;
    if j == |arrivals| {
      assert arrivals[..j] == arrivals && arrivals[j..] == [];
    } else {
      var front, a := arrivals[..|arrivals| - 1], arrivals[|arrivals| - 1];
      RestOfTheChain(f, first, a.connection.subscribed, at, hub, front, j);
      LedOn(at, front, j);
      assert front[..j] == arrivals[..j] && arrivals[j..][..|arrivals| - j - 1] == front[j..];
      assert arrivals[j..][|arrivals| - j - 1] == a;
    }
  }

  /** Up to any connection a chain is one too. */
  lemma {:induction false} StartOfTheChain(f: Filter, first: History, h: History, at: Position, hub: Position,
                                           arrivals: seq<Arrival>, k: nat)
    requires Subscription(f, first, h, at, hub, arrivals) && k <= |arrivals|
    ensures Subscription(f, first, h, at, hub, arrivals[..k]) && Evolves(EndOf(first, arrivals[..k]), h)
    decreases |arrivals|
  {
    hide Connected, ScanOf, Happened;
    if k == |arrivals| {
      assert arrivals[..k] == arrivals;
    } else {
      var front, c := arrivals[..|arrivals| - 1], arrivals[|arrivals| - 1].connection;
      LastArrival(f, first, h, at, hub, arrivals);
      StartOfTheChain(f, first, c.subscribed, at, hub, front, k);
      assert front[..k] == arrivals[..k];
      EvolvesIsTransitive(c.subscribed, c.ended, h);
      SubscriptionStays(f, first, c.subscribed, h, at, hub, arrivals[..k]);
      EvolvesIsTransitive(EndOf(first, arrivals[..k]), c.subscribed, h);
    }
  }

  lemma {:induction false} EndIsValid(f: Filter, first: History, h: History, at: Position, hub: Position,
                                      arrivals: seq<Arrival>)
    requires Valid(first) && Subscription(f, first, h, at, hub, arrivals)
    ensures Valid(EndOf(first, arrivals)) && Subscription(f, first, EndOf(first, arrivals), at, hub, arrivals)
  {
    hide Connected, Happened;
    if arrivals == [] {
      EvolvesFromItself(first);
    } else {
      LastArrival(f, first, h, at, hub, arrivals);
      EvolvesFromItself(arrivals[|arrivals| - 1].connection.ended);
    }
  }

  /**
   * Whatever the connections before the j-th did: those from the j-th up to the k-th, if they do
   * no harm, make exactly the callbacks for the events that follow the position they were
   * opened at, but for one at each torn frame.
   */
  lemma {:induction false} HarmlessStretch(f: Filter, first: History, h: History, at: Position, hub: Position,
                                           arrivals: seq<Arrival>, j: nat, k: nat)
    returns (from: Position, seen: seq<Record>)
    requires Valid(first) && Valid(h) && Subscription(f, first, h, at, hub, arrivals) && Standable(first, at)
    requires j <= k <= |arrivals| && AllHarmless(f, arrivals[j..k])
    ensures var p, calls := Led(at, arrivals[..j]), Made(Led(at, arrivals[..j]), arrivals[j..k]);
            && Made(at, arrivals[..k]) == Made(at, arrivals[..j]) + calls
            && AllBut(Owed(f, seen), calls, TornCount(arrivals[j..k])) && seen <= UnreadFrom(h, from)
            && (calls == Owed(f, seen) <==> TornCount(arrivals[j..k]) == 0)
            && from == Beginning(p, arrivals[j..k]) && (p.stream != "" ==> from == p)
            && (p.stream == "" && seen != [] ==> from.cursor == if p.cursor < 0 then 0 else p.cursor)
  {
    hide Subscription, Standable, Led, Made, TornCount, AllHarmless, UnreadFrom, Owed, AllBut, Serves, Valid, Evolves;
    var upTo, p := arrivals[..k], Led(at, arrivals[..j]);
    StartOfTheChain(f, first, h, at, hub, arrivals, k);
    assert upTo[..j] == arrivals[..j] && upTo[j..] == arrivals[j..k];
    LedOn(at, upTo, j);
    StartOfTheChain(f, first, h, at, hub, upTo, j);
    EndIsValid(f, first, h, at, hub, arrivals[..j]);
    ChainLeads(f, first, EndOf(first, arrivals[..j]), at, hub, arrivals[..j]);
    RestOfTheChain(f, first, h, at, hub, upTo, j);
    from, seen := HarmlessRun(f, EndOf(first, arrivals[..j]), h, p, HubAfter(hub, arrivals[..j]), arrivals[j..k]);
    ServesMeans(h, f, p, from, seen, Led(p, arrivals[j..k]), Made(p, arrivals[j..k]), TornCount(arrivals[j..k]));
  }

  // ---- the client -------------------------------------------------------------------------------

  /**
   * One connection, of which an arbitrary number of lines arrives. If it was accepted, `arrival`
   * is that connection, opened by the token of the position.
   */
  method StreamOnce(hub: Reader, f: Filter, at: Position)
    returns (next: Position, calls: seq<Delivery>, ghost arrival: Option<Arrival>)
    requires hub.Ok()
    modifies hub, hub.store
    ensures hub.Ok() && Evolves(old(hub.store.history), hub.store.history)
    ensures Advances(hub.store.history, old(Position(hub.streamID, hub.cursor)), Position(hub.streamID, hub.cursor))
    ensures old(hub.store.faults) <= hub.store.faults
    ensures arrival.None? ==>
              && next == at && calls == []
              && (Standable(old(hub.store.history), at) ==> old(hub.store.faults) < hub.store.faults)
    ensures arrival.Some? ==>
              var a := arrival.value;
              && Connected(f, at, old(Position(hub.streamID, hub.cursor)), a)
              && Evolves(old(hub.store.history), a.connection.subscribed) && a.connection.ended == hub.store.history
              && a.hubAt == Position(hub.streamID, hub.cursor)
              && next == ScanOf(at, a).at && calls == ScanOf(at, a).calls
  {
    hide Valid, Evolves, Grounded, FramesUpTo, Happened, Accounted, Explained, HandedOver, Advances, Scanned, LinesOf;
    hide TokenOf, Reader.Ok;
    var lifetime: nat, received: nat := *, *;
    next, calls, arrival := at, [], None;
    ghost var h0 := hub.store.history;
    var accepted, frames, c := HandleStream(hub, f, TokenOf(at), 0, lifetime);
    if Standable(h0, at) {
      TokenResumes(at);
    }
    if !accepted {
      return;
    }
    var lines := LinesOf(frames);
    var n := if received < |lines| then received else |lines|;
    HubDelivered(hub, c);
    ghost var a := Arrival(c, frames, n, hub.taken, hub.queue, hub.dead, Position(hub.streamID, hub.cursor));
    arrival := Some(a);
    next, calls := Dispatch(lines[..n], at);
  }

  /**
   * Subscribe, over any number of connections each cut after any number of lines: the callbacks
   * are what the chain of its connections makes. If none did harm, they are for the matching
   * events from where the subscription began, in order and each with its sequence, but for one
   * event lost at each connection that was cut inside a frame; so none is lost exactly when no
   * cut fell there. None does harm if the hub had caught up and the session stays live. Every
   * reconnect is accepted, unless a database read fails.
   */
  method Subscribe(hub: Reader, f: Filter, since: int, connections: nat)
    returns (calls: seq<Delivery>, ghost from: Position, ghost seen: seq<Record>, ghost arrivals: seq<Arrival>)
    requires hub.Ok() && Decimal.IsInt64(since)
    modifies hub, hub.store
    ensures hub.Ok() && Evolves(old(hub.store.history), hub.store.history)
    ensures Subscription(f, old(hub.store.history), hub.store.history, Position("", since),
                         old(Position(hub.streamID, hub.cursor)), arrivals)
    ensures calls == Made(Position("", since), arrivals) && |arrivals| <= connections
    ensures |arrivals| < connections ==> old(hub.store.faults) < hub.store.faults
    ensures AllHarmless(f, arrivals) ==>
              && AllBut(Owed(f, seen), calls, TornCount(arrivals)) && seen <= UnreadFrom(hub.store.history, from)
              && (calls == Owed(f, seen) <==> TornCount(arrivals) == 0)
              && from == Beginning(Position("", since), arrivals)
              && (seen != [] ==> from.cursor == if since < 0 then 0 else since)
    ensures AllSound(arrivals) ==> AllHarmless(f, arrivals)
    ensures var first, hub0 := old(hub.store.history), old(Position(hub.streamID, hub.cursor));
            CaughtUp(first, hub0, since) && Steady(first, hub.store.history) ==> AllHarmless(f, arrivals)
  {
    hide Valid, Evolves, Subscription, Connected, Led, Made, HubAfter, ScanOf, Advances, AllHarmless, AllSound;
    hide AllBut, Owed, UnreadFrom;
    hide TornCount, CaughtUp, Serves, Beginning, Behind, Standable, Reader.Ok;
    ghost var first, hub0, at0 := hub.store.history, Position(hub.streamID, hub.cursor), Position("", since);
    var at := Position("", since);
    calls, from, seen, arrivals := [], at0, [], [];
    ReaderIsListed(hub);
    FutureOf(hub);
    SubscriptionStarts(f, first, at0, hub0);
    for n := 0 to connections
      invariant hub.Ok() && Subscription(f, first, hub.store.history, at0, hub0, arrivals)
      invariant at == Led(at0, arrivals) && calls == Made(at0, arrivals) && |arrivals| <= n
      invariant old(hub.store.faults) <= hub.store.faults
      invariant |arrivals| < n ==> old(hub.store.faults) < hub.store.faults
      invariant Advances(hub.store.history, HubAfter(hub0, arrivals), Position(hub.streamID, hub.cursor))
    {
      ghost var h, mid := hub.store.history, Position(hub.streamID, hub.cursor);
      FutureOf(hub);
      LeadsToStandable(f, first, h, since, hub0, arrivals);
      var next, dispatched;
      ghost var arrival;
      next, dispatched, arrival := StreamOnce(hub, f, at);
      ReaderIsListed(hub);
      FutureOf(hub);
      AdvancesOn(h, hub.store.history, HubAfter(hub0, arrivals), mid, Position(hub.streamID, hub.cursor));
      arrivals := NextArrivals(f, first, h, hub.store.history, at0, hub0, arrivals, mid, arrival,
                               Position(hub.streamID, hub.cursor));
      at, calls := next, calls + dispatched;
    }
    FutureOf(hub);
    from, seen := SubscriptionMeans(f, first, hub.store.history, since, hub0, arrivals);
  }

  lemma {:induction false} LeadsToStandable(f: Filter, first: History, h: History, since: int, hub: Position,
                                            arrivals: seq<Arrival>)
    requires Valid(first) && Valid(h) && Subscription(f, first, h, Position("", since), hub, arrivals)
    requires Decimal.IsInt64(since)
    ensures Standable(h, Led(Position("", since), arrivals))
  {
    hide Subscription, Led, Valid;
    ChainLeads(f, first, h, Position("", since), hub, arrivals);
  }

  lemma {:induction false} SubscriptionStarts(f: Filter, h: History, at: Position, hub: Position)
    ensures Subscription(f, h, h, at, hub, []) && Led(at, []) == at && Made(at, []) == [] && HubAfter(hub, []) == hub
  {
    EvolvesFromItself(h);
  }

  /** An attempt adds its connection to the chain, if it was accepted. */
  lemma {:induction false} NextArrivals(f: Filter, first: History, h: History, later: History, at: Position,
                                        hub: Position, arrivals: seq<Arrival>, mid: Position, arrival: Option<Arrival>,
                                        hubAt: Position)
    returns (arrivals': seq<Arrival>)
    requires Subscription(f, first, h, at, hub, arrivals) && Valid(h) && Valid(later) && Evolves(h, later)
    requires Advances(h, HubAfter(hub, arrivals), mid) && Advances(later, HubAfter(hub, arrivals), hubAt)
    requires arrival.Some? ==>
               var a := arrival.value;
               && Connected(f, Led(at, arrivals), mid, a) && Evolves(h, a.connection.subscribed)
               && a.connection.ended == later && a.hubAt == hubAt && Advances(later, hubAt, hubAt)
    ensures Subscription(f, first, later, at, hub, arrivals') && Advances(later, HubAfter(hub, arrivals'), hubAt)
    ensures |arrivals'| == if arrival.None? then |arrivals| else |arrivals| + 1
    ensures if arrival.None? then arrivals' == arrivals
            else
              && Led(at, arrivals') == ScanOf(Led(at, arrivals), arrival.value).at
              && Made(at, arrivals') == Made(at, arrivals) + ScanOf(Led(at, arrivals), arrival.value).calls
  {
    hide Subscription, Led, Made, ScanOf, Advances, Valid, Evolves, HubAfter;
    if arrival.None? {
      arrivals' := arrivals;
      SubscriptionStays(f, first, h, later, at, hub, arrivals);
    } else {
      var a := arrival.value;
      arrivals' := arrivals + [a];
      SubscriptionStays(f, first, h, a.connection.subscribed, at, hub, arrivals);
      ConnectedFrom(f, Led(at, arrivals), h, HubAfter(hub, arrivals), mid, a);
      EvolvesFromItself(later);
      OneMoreArrival(f, first, later, at, hub, arrivals, a);
    }
  }

  lemma {:induction false} ConnectedFrom(f: Filter, at: Position, h: History, hub: Position, mid: Position, a: Arrival)
    requires Connected(f, at, mid, a) && Valid(h) && Evolves(h, a.connection.subscribed) && Advances(h, hub, mid)
    ensures Connected(f, at, hub, a)
  {
    assert Valid(a.connection.subscribed);
    hide Happened, Accounted, HandedOver, Grounded, FramesUpTo, OpenedBy, Advances, Valid, Evolves;
    AdvancesOn(h, a.connection.subscribed, hub, mid, a.connection.boundary);
  }

  lemma {:induction false} SubscriptionMeans(f: Filter, first: History, h: History, since: int, hub: Position,
                                             arrivals: seq<Arrival>)
    returns (from: Position, seen: seq<Record>)
    requires Valid(first) && Valid(h) && Subscription(f, first, h, Position("", since), hub, arrivals)
    requires Decimal.IsInt64(since)
    requires Advances(first, hub, hub)
    ensures Evolves(first, h)
    ensures AllHarmless(f, arrivals) ==>
              && AllBut(Owed(f, seen), Made(Position("", since), arrivals), TornCount(arrivals))
              && seen <= UnreadFrom(h, from)
              && (Made(Position("", since), arrivals) == Owed(f, seen) <==> TornCount(arrivals) == 0)
              && from == Beginning(Position("", since), arrivals)
              && (seen != [] ==> from.cursor == if since < 0 then 0 else since)
    ensures AllSound(arrivals) ==> AllHarmless(f, arrivals)
    ensures CaughtUp(first, hub, since) && Steady(first, h) ==> AllHarmless(f, arrivals)
  {
    hide Valid, Evolves, Subscription, Led, Made, Advances, AllHarmless, AllSound, AllBut, Owed, UnreadFrom;
    hide TornCount, CaughtUp, Serves;
    var at := Position("", since);
    SubscriptionSpans(f, first, h, at, hub, arrivals);
    if AllSound(arrivals) {
      SoundRun(f, first, h, at, hub, arrivals);
    }
    if CaughtUp(first, hub, since) && Steady(first, h) {
      SteadyRun(f, first, h, since, hub, arrivals);
    }
    from, seen := at, [];
    if AllHarmless(f, arrivals) {
      from, seen := HarmlessRun(f, first, h, at, hub, arrivals);
      ServesMeans(h, f, at, from, seen, Led(at, arrivals), Made(at, arrivals), TornCount(arrivals));
    }
  }
}
