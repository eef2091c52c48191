/**
 * The SSE endpoint (app/internal/eventbus/server.go, handleStream): replay the log from a
 * resume token up to the hub's boundary, then follow the hub live.
 */
module EventBus {
  import opened Wrappers
  import opened Events
  import opened Incarnations
  import opened EventStore
  import opened SessionHub
  import opened LiveLoop
  import opened ReplayLoop
  import opened StreamExactness
  import ResumeToken
  import Decimal

  // ---- what is promised -----------------------------------------------------------------------

  /** resumeParam: an absent token is a fresh connect, an unparseable one is refused. */
  function ResumeParam(token: string): Option<(string, int)> {
    if token == "" then Some(("", 0)) else ResumeToken.Parse(token)
  }

  /** The frames of an accepted connection at its end, cut anywhere. */
  ghost predicate Accounted(f: Filter, c: Connection, frames: seq<Sse>, fed: seq<Record>, drained: bool,
                            hubAt: Position) {
    var h := c.ended;
    && frames == Written(f, c.replayed) + (if c.live then Written(f, Forwarded(f, c.joined, fed)) else [])
    && (forall n :: 0 <= n <= |frames| ==> ExactUpTo(f, c, frames, n))
    && (c.live && c.feed.stream != "" && drained ==>
          (Exact(h, f, c.origin, frames) && NothingWithheld(h, f, c, frames, hubAt) <==> Select(f, Harm(h, c)) == []))
    && (c.live && Unplaced(c) ==> Exact(h, f, c.feed, frames))
  }

  /** Cut after n frames, exactly when they are the matching events after the origin. */
  ghost predicate ExactUpTo(f: Filter, c: Connection, frames: seq<Sse>, n: nat)
    requires n <= |frames|
  {
    Exact(c.ended, f, c.origin, frames[..n]) <==>
    !c.live || n <= |Written(f, c.replayed)| || Select(f, Harm(c.ended, c)) == []
  }

  /** What the reads of its replay say of the harm a live connection does. */
  ghost predicate Explained(c: Connection) {
    && (c.manner == Over <==> Late(c))
    && (c.manner == Dark <==> c.calls != [] && !c.calls[|c.calls| - 1].found)
    && (Grounded(c.subscribed, c.origin, c.boundary) && c.manner == Clean ==> Harm(c.ended, c) == [])
    && (Grounded(c.subscribed, c.origin, c.boundary) && c.joined.stream != "" && 1 < c.boundary.cursor ==>
          (Harm(c.ended, c) == [] <==> c.manner == Clean))
    && (Calm(c) ==> Harm(c.ended, c) == [])
  }

  /** Every frame's id is of a stream the hub has come to. */
  ghost predicate FramesUpTo(h: History, frames: seq<Sse>, stream: string) {
    forall m :: 0 <= m < |frames| ==> FrameUpTo(h, frames[m], stream)
  }

  ghost predicate FrameUpTo(h: History, frame: Sse, stream: string) {
    ResumeToken.Parse(frame.id).Some? && NotNewer(h, ResumeToken.Parse(frame.id).value.0, stream)
  }

  /**
   * Where a connection without a stream starts: at the number asked for, or if that is 0 and a
   * tail was asked for, where the last `tail` matching events of the log of that moment begin;
   * at 0 if there was no such log, or it could not be read.
   */
  ghost predicate StartsAt(h: History, subscribed: History, f: Filter, tail: nat, asked: int, failed: bool,
                           cursor: int) {
    if asked != 0 || tail == 0 then cursor == asked
    else
      || (cursor == 0 && failed)
      || exists s: History :: TailedAt(h, subscribed, f, tail, s, cursor)
  }

  ghost predicate TailedAt(h: History, subscribed: History, f: Filter, tail: nat, s: History, cursor: int) {
    Evolves(h, s) && Evolves(s, subscribed)
    && cursor == if s.live && s.incs != [] then TailStart(f, Newest(s), tail) else 0
  }

  /** A tail start past 0 is the sequence of an event, which is there from then on. */
  lemma {:induction false} TailIsInTheLog(f: Filter, early: Incarnation, now: Incarnation, tail: nat)
    requires early.id == now.id && early.log <= now.log && TailStart(f, early, tail) != 0
    ensures RowsFrom(now, TailStart(f, early, tail)) != []
  {
    var rows, chosen := RowsFrom(early, 0), Select(f, RowsFrom(early, 0));
    var k := SelectedAt(f, rows, |chosen| - tail);
    hide Select;
    assert rows[k].sequence == TailStart(f, early, tail);
  }

  /**
   * So on a session that stays live, `?tail=N` is cut back to the boundary whenever the last
   * N matching events begin past it, and what lies between is sent as well.
   */
  lemma {:induction false} TailPastTheHubIsCutBack(h: History, f: Filter, tail: nat, s: History, c: Connection)
    requires Happened(c) && c.live && c.start.stream == "" && TailedAt(h, c.subscribed, f, tail, s, c.start.cursor)
    requires Steady(h, c.landed) && c.boundary.stream == Newest(c.subscribed).id && c.subscribed.incs != []
    requires c.boundary.cursor < c.start.cursor && 1 < c.start.cursor
    ensures c.manner == Over && Harm(c.ended, c) != []
  {
    HappenedSpans(c);
    hide Happened, Harm, Evolves, RowsFrom, TailStart;
    EvolvesIsTransitive(s, c.subscribed, c.landed);
    EvolvesIsTransitive(h, s, c.subscribed);
    SteadyThroughout(h, s, c.landed);
    SteadyThroughout(h, c.subscribed, c.landed);
    NewestGrows(s, c.subscribed);
    TailIsInTheLog(f, Newest(s), Newest(c.subscribed), tail);
    SteadyStartIsCutBack(c);
    StartIsPast(c);
    OverIsHarmed(c);
  }

  lemma {:induction false} NewestGrows(h: History, later: History)
    requires Evolves(h, later) && |h.incs| == |later.incs| > 0
    ensures Newest(h).id == Newest(later).id && Newest(h).log <= Newest(later).log
  {
  }

  // ---- the handler --------------------------------------------------------------------------

  /** What a reader owes its one subscriber, spelled out. */
  lemma {:induction false} HubDelivers(hub: Reader)
    requires hub.Ok()
    ensures Valid(hub.store.history) && (hub.boundary.stream == "" <==> hub.streamID == "")
    ensures if hub.streamID == "" then hub.taken == []
            else InLog(hub.store.history, hub.boundary) &&
                 Subscribed(hub.store.history, hub.boundary, hub.taken, hub.queue, hub.dead,
                            Position(hub.streamID, hub.cursor))
  {
    if hub.streamID != "" {
      Named(hub.store.history, hub.boundary.stream);
    }
  }

  /** What the hub had handed over to a connection by its end, and where it stood then. */
  ghost predicate HandedOver(c: Connection, fed: seq<Record>, queue: seq<Frame>, dead: bool, hubAt: Position) {
    && (c.feed.stream == "" <==> hubAt.stream == "")
    && if hubAt.stream == "" then fed == []
       else InLog(c.ended, c.feed) && Subscribed(c.ended, c.feed, fed, queue, dead, hubAt)
  }

  lemma {:induction false} HubDelivered(hub: Reader, c: Connection)
    requires hub.Ok() && c.feed == hub.boundary && c.ended == hub.store.history
    ensures HandedOver(c, hub.taken, hub.queue, hub.dead, Position(hub.streamID, hub.cursor))
  {
    HubDelivers(hub);
  }

  /** Every frame's id is a position in one of the session's logs, which a token can name. */
  ghost predicate FramesNamed(h: History, frames: seq<Sse>) {
    forall m :: 0 <= m < |frames| ==> FrameNamed(h, frames[m])
  }

  ghost predicate FrameNamed(h: History, frame: Sse) {
    && ResumeToken.Parse(frame.id).Some?
    && var (stream, cursor) := ResumeToken.Parse(frame.id).value;
    Listed(h, stream) && stream != "" && ':' !in stream && Decimal.IsInt64(cursor)
  }

  ghost predicate RecordsNamed(h: History, rows: seq<Record>) {
    forall k :: 0 <= k < |rows| ==> Listed(h, rows[k].stream) && 1 <= rows[k].sequence < MAX_SEQUENCE
  }

  lemma {:induction false} WrittenNamed(h: History, f: Filter, rows: seq<Record>)
    requires Valid(h) && RecordsNamed(h, rows)
    ensures FramesNamed(h, Written(f, rows))
  {
    FramesOfSelected(f, rows);
    hide Written, Select, SseOf, ResumeToken.Parse, ResumeToken.Encode, Valid;
    forall m | 0 <= m < |Written(f, rows)| ensures FrameNamed(h, Written(f, rows)[m]) {
      var k := SelectedAt(f, rows, m);
      IdOfRecord(h, rows[k]);
    }
  }

  lemma {:induction false} UnreadNamed(h: History, p: Position, rows: seq<Record>)
    requires Valid(h) && rows <= UnreadFrom(h, p)
    ensures RecordsNamed(h, rows)
  {
    forall k | 0 <= k < |rows| ensures Listed(h, rows[k].stream) && 1 <= rows[k].sequence < MAX_SEQUENCE {
      PassedIsListed(h, p, rows, k);
    }
  }

  lemma {:induction false} ForwardedNamed(h: History, f: Filter, p: Position, fed: seq<Record>)
    requires RecordsNamed(h, fed)
    ensures RecordsNamed(h, Forwarded(f, p, fed))
  {
    if fed != [] {
      ForwardedNamed(h, f, p, fed[..|fed| - 1]);
    }
  }

  lemma {:induction false} ReplayedNamed(c: Connection)
    requires Happened(c)
    ensures RecordsNamed(c.ended, c.replayed) && Valid(c.ended)
  {
    ReplayIs(c.subscribed, c.landed, c.start, c.boundary, c.calls);
    hide ReadsOk, ReplayOf, Captured, OnCourse, UnreadFrom, UpTo;
    var s := ReplayOf(c.start, c.boundary, c.calls);
    if !s.manner.Over? && s.cur.stream != "" {
      BetweenStays(c.landed, c.ended, s.origin, s.passed, s.cur);
      PrefixOfBetween(c.ended, s.origin, s.passed, s.cur);
      UnreadNamed(c.ended, s.origin, s.passed);
    }
  }

  lemma {:induction false} FramesAreNamed(f: Filter, c: Connection, frames: seq<Sse>, fed: seq<Record>,
                                          queue: seq<Frame>, dead: bool, hubAt: Position)
    requires Happened(c) && HandedOver(c, fed, queue, dead, hubAt)
    requires frames == Written(f, c.replayed) + (if c.live then Written(f, Forwarded(f, c.joined, fed)) else [])
    ensures FramesNamed(c.ended, frames)
  {
    hide Happened, Written, Forwarded, UnreadFrom, Subscribed;
    ReplayedNamed(c);
    WrittenNamed(c.ended, f, c.replayed);
    if hubAt.stream != "" {
      FedFacts(c.ended, c.feed, fed, queue, dead, hubAt);
      UnreadNamed(c.ended, c.feed, fed);
    }
    ForwardedNamed(c.ended, f, c.joined, fed);
    WrittenNamed(c.ended, f, Forwarded(f, c.joined, fed));
  }

  /** The part of handleStream after the subscription: replay, then live. */
  method Stream(hub: Reader, f: Filter, start: Position, boundary: Position, lifetime: nat)
    returns (frames: seq<Sse>, ghost c: Connection)
    requires hub.Ok() && hub.taken == [] && hub.boundary == boundary == Position(hub.streamID, hub.cursor)
    requires start.stream == "" || Listed(hub.store.history, start.stream)
    modifies hub, hub.store
    ensures hub.Ok() && hub.Forward() && Evolves(old(hub.store.history), hub.store.history)
    ensures Happened(c) && c.start == start && c.subscribed == old(hub.store.history) && c.ended == hub.store.history
    ensures c.boundary == boundary && c.feed == hub.boundary
    ensures Accounted(f, c, frames, hub.taken, hub.queue == [] && !hub.dead, Position(hub.streamID, hub.cursor))
    ensures Grounded(c.subscribed, c.origin, c.boundary) ==> FramesUpTo(hub.store.history, frames, hub.streamID)
    ensures old(hub.store.faults) <= hub.store.faults
    ensures !c.live ==> old(hub.store.faults) < hub.store.faults || lifetime <= |c.replayed|
    ensures c.live ==> hub.queue == [] || |hub.taken| == lifetime
  {
    hide Accounted, Happened, Grounded, FramesUpTo, Valid, Evolves, Advances, Written, Forwarded, ReadsOk, ReplayOf;
    hide Captured, Subscribed, InLog, Reader.Ok;
    ghost var subscribed, from := hub.store.history, Position(hub.streamID, hub.cursor);
    HubDelivers(hub);
    CapturedAtFirst(hub);
    var ending, cur, replayed;
    ghost var calls;
    ending, cur, replayed, calls := Replay(hub, f, start, boundary, lifetime);
    frames := replayed;
    ghost var landed, at := hub.store.history, Position(hub.streamID, hub.cursor);
    HubDelivers(hub);
    if ending != Done {
      c := CutShort(landed, f, subscribed, start, boundary, calls, frames, hub.boundary, hub.taken,
                    hub.queue == [] && !hub.dead, Position(hub.streamID, hub.cursor), hub.queue, hub.dead);
      return;
    }
    var written := Live(hub, f, cur.stream, cur.cursor, lifetime);
    HubDelivers(hub);
    EvolvesIsTransitive(subscribed, landed, hub.store.history);
    AdvancesOn(landed, hub.store.history, from, at, Position(hub.streamID, hub.cursor));
    frames := frames + written;
    c := JoinedLive(landed, hub.store.history, f, subscribed, start, boundary, calls, hub.boundary, hub.taken,
                    hub.queue, hub.dead, Position(hub.streamID, hub.cursor), frames);
  }

  lemma {:induction false} CapturedAtFirst(hub: Reader)
    requires hub.Ok() && hub.boundary == Position(hub.streamID, hub.cursor)
    ensures Captured(hub.store.history, hub.boundary) && Evolves(hub.store.history, hub.store.history)
  {
  }

  /** A connection cut while it was replaying. */
  lemma {:induction false} CutShort(h: History, f: Filter, subscribed: History, start: Position, boundary: Position,
                                    calls: seq<Call>, frames: seq<Sse>, feed: Position, fed: seq<Record>, drained: bool,
                                    hubAt: Position, queue: seq<Frame>, dead: bool) returns (c: Connection)
    requires Valid(subscribed) && Valid(h) && Captured(subscribed, boundary)
    requires start.stream == "" || Listed(subscribed, start.stream)
    requires ReadsOk(subscribed, h, start, boundary, calls) && !ReplayOf(start, boundary, calls).done
    requires frames == Written(f, ReplayOf(start, boundary, calls).passed)
    requires boundary.stream != "" ==> feed == boundary && Subscribed(h, feed, fed, queue, dead, hubAt)
    ensures Happened(c) && c.subscribed == subscribed && c.start == start && c.boundary == boundary && c.feed == feed
    ensures c.ended == h
    ensures !c.live && c.replayed == ReplayOf(start, boundary, calls).passed
    ensures Accounted(f, c, frames, fed, drained, hubAt)
    ensures Grounded(c.subscribed, c.origin, c.boundary) ==> FramesUpTo(h, frames, hubAt.stream)
  {
    hide ReplayOf, ReadsOk, Captured, Written, UnreadFrom, Grounded, SoundBoundary, FramesUpTo, Happened, Evolves;
    hide Underway, Valid;
    hide Subscribed, UpTo;
    var s := ReplayOf(start, boundary, calls);
    c := CutConnection(h, subscribed, start, boundary, calls, feed);
    CutHappened(h, subscribed, start, boundary, calls, feed);
    ReplayIs(subscribed, h, start, boundary, calls);
    assert frames + [] == frames;
    UnderwayIsExact(h, f, subscribed, start, s.origin, boundary, s.passed, s.cur);
    forall n | 0 <= n <= |frames| ensures ExactUpTo(f, c, frames, n) {
      CutIsExact(h, f, c.origin, frames, n);
    }
    if Grounded(subscribed, c.origin, boundary) && s.cur.stream != "" {
      BoundaryIsNamed(h, subscribed, c.origin, feed, boundary, fed, queue, dead, hubAt);
      UnderwayUpTo(h, subscribed, start, s.origin, boundary, s.passed, s.cur, hubAt.stream);
      WrittenUpTo(h, f, s.passed, hubAt.stream);
    } else if s.cur.stream == "" {
      NothingUpTo(h, f, s.passed, hubAt.stream);
    }
  }

  ghost function CutConnection(h: History, subscribed: History, start: Position, boundary: Position, calls: seq<Call>,
                         feed: Position): Connection {
    var s := ReplayOf(start, boundary, calls);
    Connection(subscribed, h, h, start, boundary, feed, calls, false,
               if s.cur.stream == "" then start else s.origin, s.manner, s.passed, s.cur)
  }

  lemma {:induction false} CutHappened(h: History, subscribed: History, start: Position, boundary: Position,
                                       calls: seq<Call>, feed: Position)
    requires Valid(subscribed) && Valid(h) && Captured(subscribed, boundary)
    requires start.stream == "" || Listed(subscribed, start.stream)
    requires ReadsOk(subscribed, h, start, boundary, calls) && !ReplayOf(start, boundary, calls).done
    requires boundary.stream != "" ==> feed == boundary
    ensures Happened(CutConnection(h, subscribed, start, boundary, calls, feed))
  {
    hide ReplayOf, ReadsOk, Captured, Evolves, Valid;
    EvolvesFromItself(h);
  }

  lemma {:induction false} BoundaryIsNamed(h: History, subscribed: History, origin: Position, feed: Position,
                                           boundary: Position, fed: seq<Record>, queue: seq<Frame>, dead: bool,
                                           hubAt: Position)
    requires Valid(subscribed) && Grounded(subscribed, origin, boundary)
    requires boundary.stream != "" ==> feed == boundary && Subscribed(h, feed, fed, queue, dead, hubAt)
    ensures NotNewer(h, boundary.stream, hubAt.stream)
  {
    Named(subscribed, boundary.stream);
  }

  lemma {:induction false} CutIsExact(h: History, f: Filter, origin: Position, frames: seq<Sse>, n: nat)
    requires Exact(h, f, origin, frames) && n <= |frames|
    ensures Exact(h, f, origin, frames[..n])
  {
    hide Written, UnreadFrom;
  }

  /** What a replay under way has written is exact; before it has found a stream it has written nothing. */
  lemma {:induction false} UnderwayIsExact(h: History, f: Filter, subscribed: History, start: Position,
                                           origin: Position, boundary: Position, passed: seq<Record>, cur: Position)
    requires Underway(h, subscribed, start, origin, boundary, passed, cur)
    ensures cur.stream == "" ==> passed == [] && Written(f, passed) == []
    ensures Exact(h, f, if cur.stream == "" then start else origin, Written(f, passed))
  {
    hide UnreadFrom, OnCourse;
    NothingWritten(f);
    if cur.stream != "" {
      PrefixOfBetween(h, origin, passed, cur);
      PrefixIsExact(h, f, origin, passed);
    }
  }

  lemma {:induction false} UnderwayUpTo(h: History, subscribed: History, start: Position, origin: Position,
                                        boundary: Position, passed: seq<Record>, cur: Position, stream: string)
    requires Underway(h, subscribed, start, origin, boundary, passed, cur) && cur.stream != ""
    requires Grounded(subscribed, origin, boundary) && NotNewer(h, boundary.stream, stream)
    ensures UpTo(h, passed, stream) && Valid(h) && forall k :: 0 <= k < |passed| ==>
              1 <= passed[k].sequence < MAX_SEQUENCE
  {
    hide Between, Grounded;
    UpToThrough(h, passed, cur.stream, boundary.stream, stream);
    PrefixOfBetween(h, origin, passed, cur);
    forall k | 0 <= k < |passed| ensures 1 <= passed[k].sequence < MAX_SEQUENCE {
      PassedIsListed(h, origin, passed, k);
    }
  }

  lemma {:induction false} UpToThrough(h: History, rows: seq<Record>, a: string, b: string, c: string)
    requires UpTo(h, rows, a) && NotNewer(h, a, b) && NotNewer(h, b, c)
    ensures UpTo(h, rows, c)
  {
  }

  lemma {:induction false} NothingUpTo(h: History, f: Filter, rows: seq<Record>, stream: string)
    requires rows == []
    ensures FramesUpTo(h, Written(f, rows), stream)
  {
  }

  /** The frames of records the hub has come to. */
  lemma {:induction false} WrittenUpTo(h: History, f: Filter, rows: seq<Record>, stream: string)
    requires Valid(h) && UpTo(h, rows, stream) && forall k :: 0 <= k < |rows| ==> 1 <= rows[k].sequence < MAX_SEQUENCE
    ensures FramesUpTo(h, Written(f, rows), stream)
  {
    FramesOfSelected(f, rows);
    hide Written, Select, SseOf, ResumeToken.Parse, ResumeToken.Encode, Valid;
    forall m | 0 <= m < |Written(f, rows)| ensures FrameUpTo(h, Written(f, rows)[m], stream) {
      var k := SelectedAt(f, rows, m);
      IdOfRecord(h, rows[k]);
    }
  }

  /** A connection whose replay came to its end, and that was then fed by the hub. */
  lemma {:induction false} JoinedLive(landed: History, h: History, f: Filter, subscribed: History, start: Position,
                                      boundary: Position, calls: seq<Call>, feed: Position, fed: seq<Record>,
                                      queue: seq<Frame>, dead: bool, hubAt: Position, frames: seq<Sse>)
    returns (c: Connection)
    requires Valid(subscribed) && Valid(landed) && Valid(h) && Evolves(landed, h)
    requires Captured(subscribed, boundary) && (start.stream == "" || Listed(subscribed, start.stream))
    requires ReadsOk(subscribed, landed, start, boundary, calls) && Finished(ReplayOf(start, boundary, calls), boundary)
    requires (boundary.stream != "" ==> feed == boundary) && (feed.stream == "" <==> hubAt.stream == "")
    requires if hubAt.stream == "" then fed == [] else InLog(h, feed) && Subscribed(h, feed, fed, queue, dead, hubAt)
    requires var s := ReplayOf(start, boundary, calls);
             frames == Written(f, s.passed) + Written(f, Forwarded(f, s.cur, fed))
    ensures Happened(c) && c.subscribed == subscribed && c.start == start && c.boundary == boundary && c.feed == feed
    ensures c.ended == h
    ensures c.live && Accounted(f, c, frames, fed, queue == [] && !dead, hubAt)
    ensures Grounded(c.subscribed, c.origin, c.boundary) ==> FramesUpTo(h, frames, hubAt.stream)
  {
    hide ReadsOk, Written, Forwarded, Subscribed, InLog, Captured, Accounted, Grounded, FramesUpTo, Valid, Evolves;
    var s := ReplayOf(start, boundary, calls);
    var from := if s.cur.stream == "" then Position(feed.stream, start.cursor) else s.origin;
    c := Connection(subscribed, landed, h, start, boundary, feed, calls, true, from, s.manner, s.passed, s.cur);
    assert Happened(c);
    hide Happened, ReplayOf;
    EndsAccounted(f, c, fed, queue, dead, hubAt, frames);
    if Grounded(subscribed, from, boundary) {
      GroundedUpTo(f, c, fed, queue, dead, hubAt, frames);
    }
  }

  lemma {:induction false} EndsAccounted(f: Filter, c: Connection, fed: seq<Record>, queue: seq<Frame>, dead: bool,
                                         hubAt: Position, frames: seq<Sse>)
    requires Happened(c) && c.live && (c.feed.stream == "" <==> hubAt.stream == "")
    requires if hubAt.stream == "" then fed == []
             else InLog(c.ended, c.feed) && Subscribed(c.ended, c.feed, fed, queue, dead, hubAt)
    requires frames == Written(f, c.replayed) + Written(f, Forwarded(f, c.joined, fed))
    ensures Accounted(f, c, frames, fed, queue == [] && !dead, hubAt)
  {
    hide Happened, Joining, Subscribed, InLog, Forwarded, Written, Select, Harm, NothingWithheld, Exact, UnreadFrom;
    if hubAt.stream == "" {
      NothingFedIsExact(f, c, fed, frames);
      forall n | 0 <= n <= |frames| ensures ExactUpTo(f, c, frames, n) {
        CutIsExact(c.ended, f, c.origin, frames, n);
      }
    } else {
      HappenedJoins(c);
      assert Fed(c.ended, f, c, frames, fed, queue, dead, hubAt);
      forall n | 0 <= n <= |frames| ensures ExactUpTo(f, c, frames, n) {
        ExactIffUnharmed(c.ended, f, c, frames, fed, queue, dead, hubAt, n);
      }
      ExactIffUnharmed(c.ended, f, c, frames, fed, queue, dead, hubAt, 0);
      if Unplaced(c) {
        ExactFromTheBoundary(c.ended, f, c, frames, fed, queue, dead, hubAt);
      }
    }
  }

  /** With a hub that has found no stream a connection has written its replay, and nothing else. */
  lemma {:induction false} NothingFedIsExact(f: Filter, c: Connection, fed: seq<Record>, frames: seq<Sse>)
    requires Happened(c) && c.live && c.feed.stream == "" && fed == []
    requires frames == Written(f, c.replayed) + Written(f, Forwarded(f, c.joined, fed))
    ensures frames == Written(f, c.replayed) && Exact(c.ended, f, c.origin, frames)
    ensures Unplaced(c) ==> Exact(c.ended, f, c.feed, frames)
  {
    LoopStarts(f, c.joined);
    assert frames == Written(f, c.replayed) + [] == Written(f, c.replayed);
    HappenedLands(c);
    hide ReadsOk, ReplayOf, Written, UpTo;
    if c.manner.Over? {
      Named(c.landed, c.boundary.stream);
    }
    if c.joined.stream != "" {
      ReplayOkStays(c.landed, c.ended, c.start, c.origin, c.replayed, c.joined);
      PrefixOfBetween(c.ended, c.origin, c.replayed, c.joined);
      PrefixIsExact(c.ended, f, c.origin, c.replayed);
    }
  }

  /** What the reads of its replay say of any live connection. */
  lemma {:induction false} LiveIsExplained(c: Connection)
    requires Happened(c) && c.live
    ensures Explained(c)
  {
    assert Valid(c.subscribed);
    CutBackIffLate(c);
    HappenedLands(c);
    hide Happened, Grounded, Harm, Late, Calm, Valid, Landed;
    if Grounded(c.subscribed, c.origin, c.boundary) {
      if c.manner == Clean {
        CleanIsUnharmed(c);
      }
      if c.joined.stream != "" && 1 < c.boundary.cursor {
        UnharmedIffClean(c);
      }
    }
    if Calm(c) {
      CalmIsUnharmed(c);
    }
  }

  /** No frame of a grounded connection is of a stream the hub has not come to. */
  lemma {:induction false} GroundedUpTo(f: Filter, c: Connection, fed: seq<Record>, queue: seq<Frame>, dead: bool,
                                        hubAt: Position, frames: seq<Sse>)
    requires Happened(c) && c.live && Grounded(c.subscribed, c.origin, c.boundary)
    requires hubAt.stream == "" ==> c.feed.stream == ""
    requires hubAt.stream != "" ==> Subscribed(c.ended, c.feed, fed, queue, dead, hubAt)
    requires frames == Written(f, c.replayed) + Written(f, Forwarded(f, c.joined, fed))
    ensures FramesUpTo(c.ended, frames, hubAt.stream)
  {
    hide Forwarded, Grounded, Between, Written, UnreadFrom, ReadsOk, ReplayOf;
    GroundedStands(c);
    FedUpTo(c.ended, f, c.feed, c.joined, fed, queue, dead, hubAt);
    ReplayedUpTo(c, hubAt.stream);
    WrittenUpTo(c.ended, f, c.replayed, hubAt.stream);
    WrittenUpTo(c.ended, f, Forwarded(f, c.joined, fed), hubAt.stream);
  }

  lemma {:induction false} FedUpTo(h: History, f: Filter, feed: Position, p: Position, fed: seq<Record>,
                                   queue: seq<Frame>, dead: bool, hubAt: Position)
    requires Valid(h) && Subscribed(h, feed, fed, queue, dead, hubAt)
    ensures UpTo(h, Forwarded(f, p, fed), hubAt.stream)
    ensures forall k :: 0 <= k < |Forwarded(f, p, fed)| ==> 1 <= Forwarded(f, p, fed)[k].sequence < MAX_SEQUENCE
  {
    FedFacts(h, feed, fed, queue, dead, hubAt);
    assert UpTo(h, fed, hubAt.stream) by {
      assert forall k :: 0 <= k < |fed| ==> (fed + Records(queue))[k] == fed[k];
    }
    hide Subscribed, UnreadFrom, UpTo;
    forall k | 0 <= k < |fed| ensures 1 <= fed[k].sequence < MAX_SEQUENCE {
      PassedIsListed(h, feed, fed, k);
    }
    ForwardedUpTo(h, f, p, fed, hubAt.stream);
    ForwardedAreFed(f, p, fed);
  }

  lemma {:induction false} ForwardedAreFed(f: Filter, p: Position, fed: seq<Record>)
    requires forall k :: 0 <= k < |fed| ==> 1 <= fed[k].sequence < MAX_SEQUENCE
    ensures forall k :: 0 <= k < |Forwarded(f, p, fed)| ==> 1 <= Forwarded(f, p, fed)[k].sequence < MAX_SEQUENCE
  {
    if fed != [] {
      ForwardedAreFed(f, p, fed[..|fed| - 1]);
    }
  }

  lemma {:induction false} ReplayedUpTo(c: Connection, stream: string)
    requires Happened(c) && c.live && Grounded(c.subscribed, c.origin, c.boundary)
    requires NotNewer(c.ended, c.boundary.stream, stream)
    ensures UpTo(c.ended, c.replayed, stream)
    ensures forall k :: 0 <= k < |c.replayed| ==> 1 <= c.replayed[k].sequence < MAX_SEQUENCE
  {
    GroundedStands(c);
    HappenedLands(c);
    hide ReadsOk, ReplayOf, Grounded, OnCourse, UnreadFrom;
    if !c.manner.Over? && c.joined.stream != "" {
      ReplayOkStays(c.landed, c.ended, c.start, c.origin, c.replayed, c.joined);
      hide Landed, Between, Happened;
      UpToThrough(c.ended, c.replayed, c.joined.stream, c.boundary.stream, stream);
      PrefixOfBetween(c.ended, c.origin, c.replayed, c.joined);
      forall k | 0 <= k < |c.replayed| ensures 1 <= c.replayed[k].sequence < MAX_SEQUENCE {
        PassedIsListed(c.ended, c.origin, c.replayed, k);
      }
    }
  }

  /**
   * handleStream. `lifetime` bounds how many reads and frames the connection lives to see.
   * A refused connection writes nothing. Of an accepted one it is known exactly when its
   * frames are the matching events after its origin, whatever is appended or rotated meanwhile.
   */
  method HandleStream(hub: Reader, f: Filter, token: string, tail: nat, lifetime: nat)
    returns (accepted: bool, frames: seq<Sse>, ghost c: Connection)
    requires hub.Ok()
    modifies hub, hub.store
    ensures hub.Ok() && Evolves(old(hub.store.history), hub.store.history)
    ensures Advances(hub.store.history, old(Position(hub.streamID, hub.cursor)), Position(hub.streamID, hub.cursor))
    ensures old(hub.store.faults) <= hub.store.faults
    ensures !accepted ==>
              && frames == []
              && (ResumeParam(token).None? || old(hub.store.faults) < hub.store.faults
                  || var stream := ResumeParam(token).value.0; stream != "" && !Listed(old(hub.store.history), stream))
    ensures accepted ==>
              Happened(c) && c.ended == hub.store.history && c.feed == hub.boundary && ResumeParam(token).Some?
    ensures accepted ==>
              var (stream, asked) := ResumeParam(token).value;
              && c.start.stream == stream
              && (if stream != "" then c.start.cursor == asked
                  else StartsAt(old(hub.store.history), c.subscribed, f, tail, asked,
                                old(hub.store.faults) < hub.store.faults, c.start.cursor))
    ensures accepted ==>
              Accounted(f, c, frames, hub.taken, hub.queue == [] && !hub.dead, Position(hub.streamID, hub.cursor))
    ensures accepted && c.live ==> Explained(c)
    ensures accepted && Grounded(c.subscribed, c.origin, c.boundary) ==>
              FramesUpTo(hub.store.history, frames, hub.streamID)
    ensures accepted ==> Evolves(old(hub.store.history), c.subscribed)
    ensures accepted ==>
              && Advances(c.subscribed, old(Position(hub.streamID, hub.cursor)), c.boundary)
              && Advances(hub.store.history, c.boundary, Position(hub.streamID, hub.cursor))
    ensures accepted && !c.live ==> old(hub.store.faults) < hub.store.faults || lifetime <= |c.replayed|
    ensures accepted && c.live ==> hub.queue == [] || |hub.taken| == lifetime
  {
    hide Accounted, Explained, Happened, Grounded, FramesUpTo, Valid, Evolves, Advances, StartsAt, Reader.Ok;
    ghost var h0, from := hub.store.history, Position(hub.streamID, hub.cursor);
    ReaderIsListed(hub);
    FutureOf(hub);
    EvolvesFromItself(h0);
    accepted, frames := false, [];
    c := NoConnection(h0);
    var resume := ResumeParam(token);
    if resume.None? {
      return;
    }
    var ok, start := Opening(hub, f, resume.value.0, resume.value.1, tail);
    if !ok {
      return;
    }
    ghost var h1 := hub.store.history;
    hub.Run();
    ghost var subscribed := hub.store.history;
    EvolvesIsTransitive(h0, h1, subscribed);
    FutureOf(hub);
    ListedStays(h1, subscribed, start.stream);
    StartsAtStays(h0, h1, subscribed, f, tail, resume.value.1, start.cursor);
    hub.Subscribe();
    ReaderIsListed(hub);
    ghost var at := Position(hub.streamID, hub.cursor);
    AdvancesOn(h1, subscribed, from, from, at);
    accepted := true;
    frames, c := Stream(hub, f, start, Position(hub.streamID, hub.cursor), lifetime);
    EvolvesIsTransitive(h0, subscribed, hub.store.history);
    FutureOf(hub);
    AdvancesOn(subscribed, hub.store.history, from, at, Position(hub.streamID, hub.cursor));
    if c.live {
      LiveIsExplained(c);
    }
  }

  /**
   * The part of handleStream before the subscription: is the stream the session's, and where does a
   * fresh connection start?
   */
  method Opening(hub: Reader, f: Filter, stream: string, asked: int, tail: nat) returns (ok: bool, start: Position)
    requires hub.Ok()
    modifies hub.store
    ensures hub.Ok() && Valid(hub.store.history) && Evolves(old(hub.store.history), hub.store.history)
    ensures Advances(hub.store.history, Position(hub.streamID, hub.cursor), Position(hub.streamID, hub.cursor))
    ensures old(hub.store.faults) <= hub.store.faults
    ensures !ok ==>
              old(hub.store.faults) < hub.store.faults || (stream != "" && !Listed(old(hub.store.history), stream))
    ensures ok ==> start.stream == stream && (stream == "" || Listed(hub.store.history, stream))
    ensures ok ==> if stream != "" then start.cursor == asked
                   else StartsAt(old(hub.store.history), hub.store.history, f, tail, asked,
                                 old(hub.store.faults) < hub.store.faults, start.cursor)
  {
    hide Evolves, Advances, TailStart, TailedAt, Reader.AtListed, Reader.Delivering;
    ghost var h0 := hub.store.history;
    ReaderIsListed(hub);
    EvolvesFromItself(h0);
    ok, start := true, Position(stream, asked);
    if stream != "" {
      var owned := hub.store.Owns(stream);
      HubStays(hub, h0);
      NotOwned(h0, hub.store.history, stream);
      ok := owned.Ok? && owned.value;
    } else if asked == 0 && tail > 0 {
      var found, offset := hub.store.TailOffset(f, tail);
      HubStays(hub, h0);
      if found {
        start := Position("", offset);
        StartIsTailed(h0, hub.store.history, f, tail, offset);
      }
    }
  }

  lemma {:induction false} NotOwned(h: History, later: History, id: string)
    requires Future(h, later)
    ensures !Listed(later, id) ==> !Listed(h, id)
  {
    if Listed(h, id) {
      IndexIsStable(h, later, id);
    }
  }

  lemma {:induction false} StartsAtStays(h: History, s: History, subscribed: History, f: Filter, tail: nat, asked: int,
                                         cursor: int)
    requires Evolves(s, subscribed)
    ensures StartsAt(h, s, f, tail, asked, false, cursor) ==> StartsAt(h, subscribed, f, tail, asked, false, cursor)
    ensures StartsAt(h, s, f, tail, asked, true, cursor) ==> StartsAt(h, subscribed, f, tail, asked, true, cursor)
    ensures StartsAt(h, subscribed, f, tail, asked, false, cursor) ==>
              StartsAt(h, subscribed, f, tail, asked, true, cursor)
  {
    hide TailStart, Evolves;
    if StartsAt(h, s, f, tail, asked, true, cursor) && asked == 0 && tail > 0 && exists t: History ::
      TailedAt(h, s, f, tail, t, cursor) {
      var t: History :| TailedAt(h, s, f, tail, t, cursor);
      EvolvesIsTransitive(t, s, subscribed);
      assert TailedAt(h, subscribed, f, tail, t, cursor);
    }
  }

  ghost function NoConnection(h: History): Connection {
    var nowhere := Position("", 0);
    Connection(h, h, h, nowhere, nowhere, nowhere, [], false, nowhere, Clean, [], nowhere)
  }

  lemma {:induction false} StartIsTailed(h: History, s: History, f: Filter, tail: nat, cursor: int)
    requires Evolves(h, s) && Valid(s)
    ensures (if s.live then s.incs != [] && cursor == TailStart(f, Newest(s), tail) else cursor == 0) ==>
              TailedAt(h, s, f, tail, s, cursor)
  {
    EvolvesFromItself(s);
    hide Evolves, TailStart;
  }

  /** What others do to the log leaves the hub's reader where it was. */
  lemma {:induction false} HubStays(hub: Reader, h0: History)
    requires Valid(h0) && Future(h0, hub.store.history) && hub.AtListed(h0) && hub.Delivering(h0)
    ensures hub.Ok()
    ensures Advances(hub.store.history, Position(hub.streamID, hub.cursor), Position(hub.streamID, hub.cursor))
  {
    hub.DeliveringStays(h0, hub.store.history);
  }

  // ---- cutting and reconnecting -----------------------------------------------------------

  /**
   * Every frame's id is a resume point: it parses back to the position just past its
   * record, and from there on, at any later time, exactly the rest of the stream follows.
   */
  lemma {:induction false} FrameIdResumes(h: History, f: Filter, origin: Position, passed: seq<Record>, m: nat)
    returns (k: nat, at: Position)
    requires Valid(h) && passed <= UnreadFrom(h, origin) && m < |Written(f, passed)|
    ensures k < |passed| && Select(f, passed[..k + 1]) == Select(f, passed)[..m + 1]
    ensures passed[k] == Select(f, passed)[m]
    ensures Written(f, passed[..k + 1]) == Written(f, passed)[..m + 1]
    ensures at == Position(passed[k].stream, passed[k].sequence + 1)
    ensures ResumeToken.Parse(Written(f, passed)[m].id) == Some((at.stream, at.cursor))
    ensures Listed(h, at.stream) && ':' !in at.stream && at.stream != "" && Decimal.IsInt64(at.cursor)
    ensures Between(h, origin, passed[..k + 1], at)
  {
    hide UnreadFrom, ResumeToken.Parse, ResumeToken.Encode, Between, Select, Valid, Listed, Written, SseOf;
    FramesOfSelected(f, passed);
    k := SelectedAt(f, passed, m);
    FramesOfPrefix(f, passed, k, m);
    at := Position(passed[k].stream, passed[k].sequence + 1);
    PassedIsListed(h, origin, passed, k);
    IdOfRecord(h, passed[k]);
    RestIsBetween(h, origin, passed, k);
  }

  lemma {:induction false} RestIsBetween(h: History, origin: Position, passed: seq<Record>, k: nat)
    requires Valid(h) && passed <= UnreadFrom(h, origin) && k < |passed|
    ensures Between(h, origin, passed[..k + 1], Position(passed[k].stream, passed[k].sequence + 1))
  {
    var at := Position(passed[k].stream, passed[k].sequence + 1);
    forall later | Future(h, later)
      ensures UnreadFrom(later, origin) == passed[..k + 1] + UnreadFrom(later, at)
    {
      RestLater(h, later, origin, passed, k);
    }
  }

  lemma {:induction false} RestLater(h: History, later: History, origin: Position, passed: seq<Record>, k: nat)
    requires Valid(h) && Future(h, later) && passed <= UnreadFrom(h, origin) && k < |passed|
    ensures UnreadFrom(later, origin) == passed[..k + 1] + Unread(later, passed[k].stream, passed[k].sequence + 1)
  {
    hide Unread, Evolves, Valid;
    UnreadGrows(h, later, origin.stream, origin.cursor);
    var u := UnreadFrom(later, origin);
    assert passed <= u;
    assert u[k] == passed[k];
    RestAfterRecord(later, origin.stream, origin.cursor, k);
    assert u == u[..k + 1] + u[k + 1..] && u[..k + 1] == passed[..k + 1];
  }
}
