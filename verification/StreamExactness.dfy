/**
 * When what a connection of the SSE endpoint wrote is the session's events after its origin
 * (app/internal/eventbus/server.go, handleStream): what its replay and the hub's feed leave out
 * between them, or send twice.
 */
module StreamExactness {
  import opened Events
  import opened Incarnations
  import opened EventStore
  import opened SessionHub
  import opened LiveLoop
  import opened ReplayLoop

  // ---- a connection ---------------------------------------------------------------------------

  /**
   * What one connection was: the histories when it subscribed, when its replay ended and when
   * it ended itself; the start it was given; the boundary it replayed up to and the position the
   * hub's feed begins at, which differ only if the hub had found no stream yet; the reads of its
   * replay; and whether it went on to the live feed. The other four are what the reads make of
   * the start: where the connection began, how its replay ended, what that passed, and where it
   * left off.
   */
  datatype Connection = Connection(
    subscribed: History, landed: History, ended: History, start: Position, boundary: Position, feed: Position,
    calls: seq<Call>, live: bool,
    origin: Position, manner: Manner, replayed: seq<Record>, joined: Position)

  /**
   * The reads were made, and the connection is what they make of it. Without any stream found it is
   * placed in the feed's.
   */
  ghost predicate Happened(c: Connection) {
    var s := ReplayOf(c.start, c.boundary, c.calls);
    && Valid(c.subscribed) && Valid(c.landed) && Valid(c.ended) && Captured(c.subscribed, c.boundary)
    && (c.start.stream == "" || Listed(c.subscribed, c.start.stream))
    && ReadsOk(c.subscribed, c.landed, c.start, c.boundary, c.calls) && Evolves(c.landed, c.ended)
    && c.manner == s.manner && c.replayed == s.passed && c.joined == s.cur
    && (if s.cur.stream != "" then c.origin == s.origin
        else c.origin == if c.live then Position(c.feed.stream, c.start.cursor) else c.start)
    && (if c.live then Finished(s, c.boundary) else !s.done)
    && (c.boundary.stream != "" ==> c.feed == c.boundary)
  }

  /** The frames are the first of the matching events after the origin: in order, once each, none left out. */
  ghost predicate Exact(h: History, f: Filter, origin: Position, frames: seq<Sse>) {
    frames <= Written(f, UnreadFrom(h, origin))
  }

  /** That is to say, they are what some of the records after the origin come to. */
  lemma {:induction false} ExactIsOfAPrefix(h: History, f: Filter, origin: Position, frames: seq<Sse>)
    returns (pre: seq<Record>)
    requires Exact(h, f, origin, frames)
    ensures pre <= UnreadFrom(h, origin) && frames == Written(f, pre)
  {
    var u := UnreadFrom(h, origin);
    hide UnreadFrom, Written, Select;
    if frames == [] {
      pre := [];
      NothingWritten(f);
    } else {
      FramesOfSelected(f, u);
      var k := SelectedAt(f, u, |frames| - 1);
      FramesOfPrefix(f, u, k, |frames| - 1);
      pre := u[..k + 1];
    }
  }

  lemma {:induction false} PrefixIsExact(h: History, f: Filter, origin: Position, pre: seq<Record>)
    requires pre <= UnreadFrom(h, origin)
    ensures Exact(h, f, origin, Written(f, pre))
  {
    var u := UnreadFrom(h, origin);
    hide UnreadFrom, Written;
    WrittenConcat(f, pre, u[|pre|..]);
    assert pre + u[|pre|..] == u;
  }

  /** Of what follows the origin, only what the hub has not read yet is still to be written. */
  ghost predicate NothingWithheld(h: History, f: Filter, c: Connection, frames: seq<Sse>, hubAt: Position) {
    Written(f, UnreadFrom(h, c.origin)) == frames + Written(f, Kept(c.joined, UnreadFrom(h, hubAt)))
  }

  // ---- what lies between two positions --------------------------------------------------------

  /** The records from p up to q, if p's stream is not newer than q's. */
  ghost function Gap(h: History, p: Position, q: Position): seq<Record> {
    var i, j := IndexIn(h.incs, p.stream), IndexIn(h.incs, q.stream);
    if i <= j < |h.incs| then GapAt(h.incs, i, p.cursor, j, q.cursor) else []
  }

  lemma {:induction false} GapIsBetween(h: History, p: Position, q: Position)
    requires NotNewer(h, p.stream, q.stream) && (p.stream == q.stream ==> p.cursor <= q.cursor)
    ensures UnreadFrom(h, p) == Gap(h, p, q) + UnreadFrom(h, q)
  {
    var i, j := IndexIn(h.incs, p.stream), IndexIn(h.incs, q.stream);
    assert h.incs[i].id == p.stream && h.incs[j].id == q.stream;
    hide GapAt, UnreadAt;
    GapSplits(h.incs, i, p.cursor, j, q.cursor);
  }

  lemma {:induction false} GapStays(h: History, later: History, p: Position, q: Position)
    requires Future(h, later) && NotNewer(h, p.stream, q.stream) && InLog(h, q)
    ensures Gap(later, p, q) == Gap(h, p, q)
  {
    IndexIsStable(h, later, p.stream);
    IndexIsStable(h, later, q.stream);
    GapIsStable(h.incs, later.incs, IndexIn(h.incs, p.stream), p.cursor, IndexIn(h.incs, q.stream), q.cursor);
  }

  lemma {:induction false} GapIsThere(h: History, p: Position, q: Position)
    requires NotNewer(h, p.stream, q.stream) && SoundBoundary(h, q) && 1 < q.cursor
    requires p.stream == q.stream ==> p.cursor < q.cursor
    ensures Gap(h, p, q) != []
  {
    var i, j := IndexIn(h.incs, p.stream), IndexIn(h.incs, q.stream);
    assert h.incs[i].id == p.stream && h.incs[j].id == q.stream;
    GapIsNotEmpty(h.incs, i, p.cursor, j, q.cursor);
  }

  /** Up to the head of a stream there are only records of older ones. */
  lemma {:induction false} GapIsOlder(incs: seq<Incarnation>, i: nat, cursor: int, j: nat, id: string)
    requires i <= j < |incs| && (i == j ==> cursor <= 0) && forall k :: i <= k < j ==> incs[k].id != id
    ensures forall k :: 0 <= k < |GapAt(incs, i, cursor, j, 0)| ==> GapAt(incs, i, cursor, j, 0)[k].stream != id
    decreases j - i
  {
    if i < j {
      GapIsOlder(incs, i + 1, 0, j, id);
    }
  }

  // ---- what a connection leaves out, or sends again -------------------------------------------

  /** The replay passed nothing and the feed is not compared with where it stood. */
  ghost predicate Unplaced(c: Connection) {
    c.manner.Over? || c.joined.stream == ""
  }

  /** The position the feed has to continue from for the stream to be exact. */
  ghost function Rest(c: Connection): Position {
    if Unplaced(c) then c.origin else c.joined
  }

  /** The feed begins before that position, and not only by what the skip test leaves out. */
  ghost predicate Repeats(h: History, c: Connection) {
    if Unplaced(c) then c.feed.cursor < c.origin.cursor
    else
      || IndexIn(h.incs, c.feed.stream) < IndexIn(h.incs, c.joined.stream)
      || (c.feed.stream == c.joined.stream && c.feed.cursor <= c.joined.cursor)
  }

  /** The records a live connection sends although they are not due, or else never sends. */
  ghost function Harm(h: History, c: Connection): seq<Record> {
    if !Repeats(h, c) then Gap(h, Rest(c), c.feed)
    else if Unplaced(c) then Gap(h, c.feed, c.origin)
    else if c.feed.stream == c.joined.stream then []
    else Gap(h, c.feed, Position(c.joined.stream, 0))
  }

  /** A connection that went on to the live feed, as its replay left it. */
  ghost predicate Joining(h: History, c: Connection) {
    && Valid(h) && InLog(h, c.feed)
    && if Unplaced(c)
       then c.replayed == [] && c.origin.stream == c.feed.stream && (c.joined.stream == "" || c.joined == c.feed)
       else Between(h, c.origin, c.replayed, c.joined) && Listed(h, c.joined.stream)
  }

  lemma {:induction false} Named(h: History, id: string)
    requires Valid(h) && Listed(h, id)
    ensures id != "" && NotNewer(h, id, id)
  {
    assert h.incs[IndexIn(h.incs, id)].id == id;
  }

  lemma {:induction false} RestFollows(h: History, c: Connection)
    requires Joining(h, c)
    ensures UnreadFrom(h, c.origin) == c.replayed + UnreadFrom(h, Rest(c))
    ensures Valid(h) && Listed(h, Rest(c).stream) && Listed(h, c.feed.stream) && c.feed.stream != ""
  {
    Named(h, c.feed.stream);
    EvolvesFromItself(h);
    assert Future(h, h);
    hide UnreadFrom;
    if Unplaced(c) {
      assert [] + UnreadFrom(h, c.origin) == UnreadFrom(h, c.origin);
    }
  }

  /** A feed that begins at or after the place to continue from is not skipped into. */
  lemma {:induction false} LaterFeed(h: History, p: Position, feed: Position)
    requires Valid(h) && Listed(h, feed.stream)
    requires p.stream == ""
             || (NotNewer(h, p.stream, feed.stream) && (p.stream == feed.stream ==> p.cursor <= feed.cursor))
    ensures Kept(p, UnreadFrom(h, feed)) == UnreadFrom(h, feed)
  {
    var u := UnreadFrom(h, feed);
    hide Kept, UnreadFrom;
    forall k | 0 <= k < |u| ensures !Skips(p, u[k]) {
      UnreadIsNamed(h, feed, k);
      if p.stream != "" && u[k].stream == p.stream {
        Named(h, p.stream);
        assert h.incs[IndexIn(h.incs, p.stream)].id == p.stream;
        assert h.incs[IndexIn(h.incs, feed.stream)].id == feed.stream;
      }
    }
    KeptWhole(p, u);
  }

  /** When the harm is left out, it lies before everything that is fed. */
  lemma {:induction false} LeftOut(h: History, c: Connection)
    requires Joining(h, c) && !Repeats(h, c)
    ensures UnreadFrom(h, Rest(c)) == Harm(h, c) + UnreadFrom(h, c.feed)
    ensures Kept(c.joined, UnreadFrom(h, c.feed)) == UnreadFrom(h, c.feed)
  {
    RestFollows(h, c);
    hide UnreadFrom, Kept, NoneBefore, Between;
    Named(h, c.feed.stream);
    IndexTells(h, Rest(c).stream, c.feed.stream);
    GapIsBetween(h, Rest(c), c.feed);
    LaterFeed(h, c.joined, c.feed);
  }

  lemma {:induction false} IndexTells(h: History, a: string, b: string)
    requires Listed(h, a) && Listed(h, b)
    ensures a == b <==> IndexIn(h.incs, a) == IndexIn(h.incs, b)
  {
    assert h.incs[IndexIn(h.incs, a)].id == a && h.incs[IndexIn(h.incs, b)].id == b;
  }

  /** When the harm is sent again, it comes first of what the skip test lets through. */
  lemma {:induction false} SentAgain(h: History, c: Connection)
    requires Joining(h, c) && Repeats(h, c)
    ensures Kept(c.joined, UnreadFrom(h, c.feed)) == Harm(h, c) + UnreadFrom(h, Rest(c))
    ensures Harm(h, c) != [] ==> SplitsOff(UnreadFrom(h, c.feed), Harm(h, c), UnreadFrom(h, Rest(c)))
  {
    RestFollows(h, c);
    hide Between, NoneBefore, SplitsOff;
    IndexTells(h, Rest(c).stream, c.feed.stream);
    if Unplaced(c) {
      SentFromBefore(h, c.joined, c.feed, c.origin);
    } else if c.feed.stream == c.joined.stream {
      KeptOfTheFeed(h, c.feed, c.joined);
      assert [] + UnreadFrom(h, c.joined) == UnreadFrom(h, c.joined);
    } else {
      SentFromOlder(h, c.joined, c.feed);
    }
  }

  /** The rows begin with `harm`, and end with `rest` somewhere after it. */
  ghost predicate SplitsOff(rows: seq<Record>, harm: seq<Record>, rest: seq<Record>) {
    harm <= rows && |harm| + |rest| <= |rows| && rest == rows[|rows| - |rest|..]
  }

  /** If the filter selects nothing of the harm, what it selects of the feed reaches back to no older stream. */
  lemma {:induction false} HiddenHarm(h: History, f: Filter, c: Connection)
    requires Joining(h, c) && Select(f, Harm(h, c)) == []
    ensures NoneBefore(h, c.joined, Select(f, UnreadFrom(h, c.feed)))
  {
    RestFollows(h, c);
    hide Between, NoneBefore, UnreadFrom, Kept, Select, Gap;
    IndexTells(h, Rest(c).stream, c.feed.stream);
    if c.joined.stream == "" {
      NoStreamIsBefore(h, c.joined, Select(f, UnreadFrom(h, c.feed)));
    } else {
      Named(h, c.joined.stream);
      if IndexIn(h.incs, c.feed.stream) < IndexIn(h.incs, c.joined.stream) {
        GapIsBetween(h, c.feed, Position(c.joined.stream, 0));
        SelectConcat(f, Harm(h, c), UnreadFrom(h, Position(c.joined.stream, 0)));
        assert [] + Select(f, UnreadFrom(h, Position(c.joined.stream, 0))) ==
               Select(f, UnreadFrom(h, Position(c.joined.stream, 0)));
        SelectedFollow(h, f, c.joined, Position(c.joined.stream, 0));
      } else {
        SelectedFollow(h, f, c.joined, c.feed);
      }
    }
  }

  lemma {:induction false} NoStreamIsBefore(h: History, p: Position, rows: seq<Record>)
    requires p.stream == ""
    ensures NoneBefore(h, p, rows)
  {
  }

  lemma {:induction false} SelectedFollow(h: History, f: Filter, p: Position, feed: Position)
    requires Valid(h) && NotNewer(h, p.stream, feed.stream)
    ensures NoneBefore(h, p, Select(f, UnreadFrom(h, feed)))
  {
    var u, chosen := UnreadFrom(h, feed), Select(f, UnreadFrom(h, feed));
    hide UnreadFrom, Select;
    forall m | 0 <= m < |chosen| ensures NotNewer(h, p.stream, chosen[m].stream) {
      var k := SelectedAt(f, u, m);
      UnreadIsNamed(h, feed, k);
    }
  }

  lemma {:induction false} SentFromBefore(h: History, p: Position, feed: Position, origin: Position)
    requires Valid(h) && Listed(h, feed.stream) && origin.stream == feed.stream && feed.cursor < origin.cursor
    requires p.stream == "" || p == feed
    ensures var gap := Gap(h, feed, origin);
            && Kept(p, UnreadFrom(h, feed)) == gap + UnreadFrom(h, origin)
            && SplitsOff(UnreadFrom(h, feed), gap, UnreadFrom(h, origin))
  {
    Named(h, feed.stream);
    GapIsBetween(h, feed, origin);
    LaterFeed(h, p, feed);
  }

  /** The replay has left the feed's stream behind: what lies before its own stream is sent again. */
  lemma {:induction false} SentFromOlder(h: History, p: Position, feed: Position)
    requires Valid(h) && NotNewer(h, feed.stream, p.stream) && feed.stream != p.stream
    ensures var gap := Gap(h, feed, Position(p.stream, 0));
            && Kept(p, UnreadFrom(h, feed)) == gap + UnreadFrom(h, p)
            && SplitsOff(UnreadFrom(h, feed), gap, UnreadFrom(h, p))
  {
    var head := Position(p.stream, 0);
    GapIsBetween(h, feed, head);
    OlderIsKept(h, p, feed);
    HeadIsKept(h, p);
    HeadHoldsAll(h, p);
    hide Gap, Kept, UnreadFrom, NotNewer, Valid, Skips;
    KeptConcat(p, Gap(h, feed, head), UnreadFrom(h, head));
  }

  lemma {:induction false} OlderIsKept(h: History, p: Position, feed: Position)
    requires Valid(h) && NotNewer(h, feed.stream, p.stream) && feed.stream != p.stream
    ensures var gap := Gap(h, feed, Position(p.stream, 0));
            Kept(p, gap) == gap && forall k :: 0 <= k < |gap| ==> gap[k].stream != p.stream && !Skips(p, gap[k])
  {
    var i, j := IndexIn(h.incs, feed.stream), IndexIn(h.incs, p.stream);
    IndexTells(h, feed.stream, p.stream);
    forall k | i <= k < j ensures h.incs[k].id != p.stream {
      IndexIs(h, k);
    }
    GapIsOlder(h.incs, i, feed.cursor, j, p.stream);
    KeptWhole(p, Gap(h, feed, Position(p.stream, 0)));
  }

  lemma {:induction false} HeadHoldsAll(h: History, p: Position)
    requires Listed(h, p.stream)
    ensures |UnreadFrom(h, p)| <= |UnreadFrom(h, Position(p.stream, 0))|
    ensures var all := UnreadFrom(h, Position(p.stream, 0)); UnreadFrom(h, p) == all[|all| - |UnreadFrom(h, p)|..]
  {
    var inc := h.incs[IndexIn(h.incs, p.stream)];
    assert RowsFrom(inc, 0)[Below(p.cursor, |inc.log|)..] == RowsFrom(inc, p.cursor);
  }

  lemma {:induction false} HeadIsKept(h: History, p: Position)
    requires Valid(h) && Listed(h, p.stream)
    ensures Kept(p, UnreadFrom(h, Position(p.stream, 0))) == UnreadFrom(h, p)
  {
    var head := Position(p.stream, 0);
    if 0 <= p.cursor {
      KeptOfTheFeed(h, head, p);
    } else {
      LaterFeed(h, p, head);
      assert RowsFrom(h.incs[IndexIn(h.incs, p.stream)], p.cursor) == RowsFrom(h.incs[IndexIn(h.incs, p.stream)], 0);
    }
  }

  // ---- exactly when a connection is exact -----------------------------------------------------

  /** What a live connection wrote: for its replay, and of what it was fed. */
  ghost predicate Fed(h: History, f: Filter, c: Connection, frames: seq<Sse>, fed: seq<Record>, queue: seq<Frame>,
                      dead: bool, hubAt: Position) {
    && Subscribed(h, c.feed, fed, queue, dead, hubAt)
    && frames == Written(f, c.replayed) + Written(f, Forwarded(f, c.joined, fed))
  }

  lemma {:induction false} FedFacts(h: History, feed: Position, fed: seq<Record>, queue: seq<Frame>, dead: bool,
                                    hubAt: Position)
    requires Valid(h) && Subscribed(h, feed, fed, queue, dead, hubAt)
    ensures fed <= UnreadFrom(h, feed)
    ensures queue == [] && !dead ==> UnreadFrom(h, feed) == fed + UnreadFrom(h, hubAt)
  {
    hide UnreadFrom;
    EvolvesFromItself(h);
    assert Future(h, h);
    assert queue == [] ==> fed + Records(queue) == fed;
  }

  /**
   * What is due after the replay: the harm, if it is left out, and then the feed; else what comes
   * after the harm in the feed.
   */
  lemma {:induction false} DueAndKept(h: History, f: Filter, c: Connection)
    requires Joining(h, c)
    ensures var due, harm := Written(f, UnreadFrom(h, Rest(c))), Written(f, Harm(h, c));
            var kept := Written(f, Kept(c.joined, UnreadFrom(h, c.feed)));
            && Written(f, UnreadFrom(h, c.origin)) == Written(f, c.replayed) + due
            && (if Repeats(h, c) then kept == harm + due else due == harm + kept)
  {
    hide Between, UnreadFrom, Kept, Written, Harm, Repeats, Rest;
    RestFollows(h, c);
    WrittenConcat(f, c.replayed, UnreadFrom(h, Rest(c)));
    if Repeats(h, c) {
      SentAgain(h, c);
      WrittenConcat(f, Harm(h, c), UnreadFrom(h, Rest(c)));
    } else {
      LeftOut(h, c);
      WrittenConcat(f, Harm(h, c), UnreadFrom(h, c.feed));
    }
  }

  /** Without harm that the filter selects, the loop forwards exactly what the end of the replay does not cover. */
  lemma {:induction false} FeedIsCompared(h: History, f: Filter, c: Connection, fed: seq<Record>)
    requires Joining(h, c) && Select(f, Harm(h, c)) == [] && fed <= UnreadFrom(h, c.feed)
    ensures Forwarded(f, c.joined, fed) == Kept(c.joined, fed)
  {
    var u := UnreadFrom(h, c.feed);
    HiddenHarm(h, f, c);
    hide UnreadFrom, Kept, Forwarded, Select, Harm, Joining;
    UnreadOrdered(h, c.feed, fed);
    SelectConcat(f, fed, u[|fed|..]);
    assert fed + u[|fed|..] == u;
    FewerAreBefore(h, c.joined, Select(f, fed), Select(f, u));
    ForwardedIsKept(h, f, c.joined, fed);
  }

  lemma {:induction false} FewerAreBefore(h: History, p: Position, few: seq<Record>, all: seq<Record>)
    requires few <= all && NoneBefore(h, p, all)
    ensures NoneBefore(h, p, few)
  {
    assert forall k :: 0 <= k < |few| ==> few[k] == all[k];
  }

  /** Then every frame written is due, in its turn, and nothing the hub has read is withheld. */
  lemma {:induction false} UnharmedIsExact(h: History, f: Filter, c: Connection, frames: seq<Sse>, fed: seq<Record>,
                                           queue: seq<Frame>, dead: bool, hubAt: Position)
    requires Joining(h, c) && Fed(h, f, c, frames, fed, queue, dead, hubAt) && Select(f, Harm(h, c)) == []
    ensures Exact(h, f, c.origin, frames)
    ensures queue == [] && !dead ==> NothingWithheld(h, f, c, frames, hubAt)
  {
    hide Kept, UnreadFrom, Valid, Evolves, Forwarded, Select, Subscribed, Harm, Repeats, Rest, Joining, Written;
    RestFollows(h, c);
    FedFacts(h, c.feed, fed, queue, dead, hubAt);
    DueAndKept(h, f, c);
    FeedIsCompared(h, f, c, fed);
    NoFrames(f, Harm(h, c));
    var rest := UnreadFrom(h, c.feed)[|fed|..];
    KeptSplits(f, c.joined, UnreadFrom(h, c.feed), fed, rest);
    var w0, a, b := Written(f, c.replayed), Written(f, Kept(c.joined, fed)), Written(f, Kept(c.joined, rest));
    assert Written(f, UnreadFrom(h, Rest(c))) == a + b;
    assert frames == w0 + a && w0 + (a + b) == frames + b;
    assert queue == [] && !dead ==> rest == UnreadFrom(h, hubAt);
  }

  lemma {:induction false} KeptSplits(f: Filter, p: Position, all: seq<Record>, fed: seq<Record>, rest: seq<Record>)
    requires fed <= all && rest == all[|fed|..]
    ensures Written(f, Kept(p, all)) == Written(f, Kept(p, fed)) + Written(f, Kept(p, rest))
  {
    hide Kept, Written;
    assert all == fed + rest;
    KeptConcat(p, fed, rest);
    WrittenConcat(f, Kept(p, fed), Kept(p, rest));
  }

  lemma {:induction false} NoFrames(f: Filter, rows: seq<Record>)
    ensures Written(f, rows) == [] <==> Select(f, rows) == []
  {
  }

  /** A frame of the harm is not a frame of what is due after it. */
  lemma {:induction false} HarmIsNotDue(h: History, f: Filter, p: Position, harm: seq<Record>, rest: seq<Record>)
    requires Valid(h) && SplitsOff(UnreadFrom(h, p), harm, rest) && Written(f, harm) != [] && Written(f, rest) != []
    ensures Written(f, harm)[0] != Written(f, rest)[0]
  {
    FramesOfSelected(f, harm);
    FramesOfSelected(f, rest);
    hide Written, Select, SseOf, UnreadFrom;
    var i := SelectedAt(f, harm, 0);
    var j := SelectedAt(f, rest, 0);
    var u := UnreadFrom(h, p);
    var k := |u| - |rest| + j;
    assert u[i] == harm[i] && u[k] == rest[j];
    UnreadInOrder(h, p, i, k);
    PassedIsListed(h, p, u, i);
    PassedIsListed(h, p, u, k);
    FramesDiffer(h, u[i], u[k]);
  }

  /** The first frame written live is the first that the end of the replay lets through. */
  lemma {:induction false} FirstFrame(f: Filter, p: Position, fed: seq<Record>, all: seq<Record>)
    requires fed <= all
    ensures Written(f, Forwarded(f, p, fed)) == [] <==> Written(f, Kept(p, fed)) == []
    ensures Written(f, Forwarded(f, p, fed)) != [] ==>
              Written(f, Kept(p, all)) != [] && Written(f, Forwarded(f, p, fed))[0] == Written(f, Kept(p, all))[0]
  {
    FirstWritten(f, p, fed);
    FramesOfSelected(f, Forwarded(f, p, fed));
    FramesOfSelected(f, Kept(p, fed));
    var rest := all[|fed|..];
    hide Written, Select, SseOf, Kept, Forwarded;
    assert all == fed + rest;
    KeptConcat(p, fed, rest);
    WrittenConcat(f, Kept(p, fed), Kept(p, rest));
  }

  /**
   * The first frame written live is not the one that is due; and while there is none, something is
   * withheld or sent that is not due.
   */
  lemma {:induction false} HarmedIsNotExact(h: History, f: Filter, c: Connection, frames: seq<Sse>, fed: seq<Record>,
                                            queue: seq<Frame>, dead: bool, hubAt: Position, n: nat)
    requires Joining(h, c) && Fed(h, f, c, frames, fed, queue, dead, hubAt) && Select(f, Harm(h, c)) != []
    requires n <= |frames|
    ensures |Written(f, c.replayed)| < n ==> !Exact(h, f, c.origin, frames[..n])
    ensures |frames| == |Written(f, c.replayed)| && queue == [] && !dead ==> !NothingWithheld(h, f, c, frames, hubAt)
  {
    assert Valid(h);
    FedFacts(h, c.feed, fed, queue, dead, hubAt);
    NoFrames(f, Harm(h, c));
    hide Kept, UnreadFrom, Valid, Forwarded, Select, Subscribed, Harm, Repeats, Written;
    DueAndKept(h, f, c);
    var w0, live, harm := Written(f, c.replayed), Written(f, Forwarded(f, c.joined, fed)), Written(f, Harm(h, c));
    var due, kept := Written(f, UnreadFrom(h, Rest(c))), Written(f, Kept(c.joined, UnreadFrom(h, c.feed)));
    FirstFrame(f, c.joined, fed, UnreadFrom(h, c.feed));
    if |w0| < n {
      WrongFrame(h, f, c);
      assert frames[|w0|] == live[0] == kept[0];
      assert frames[..n][|w0|] == kept[0];
      assert due != [] ==> (w0 + due)[|w0|] == due[0];
    }
    if |frames| == |w0| && queue == [] && !dead {
      KeptConcat(c.joined, fed, UnreadFrom(h, hubAt));
      WrittenConcat(f, Kept(c.joined, fed), Kept(c.joined, UnreadFrom(h, hubAt)));
      assert live == [];
      assert kept == Written(f, Kept(c.joined, UnreadFrom(h, hubAt)));
      assert |due| != |kept|;
    }
  }

  lemma {:induction false} WrongFrame(h: History, f: Filter, c: Connection)
    requires Joining(h, c) && Written(f, Harm(h, c)) != []
    ensures var due, kept := Written(f, UnreadFrom(h, Rest(c))), Written(f, Kept(c.joined, UnreadFrom(h, c.feed)));
            kept != [] && due != [] ==> kept[0] != due[0]
  {
    assert Valid(h);
    NoFrames(f, Harm(h, c));
    NothingWritten(f);
    hide Kept, UnreadFrom, Valid, Select, Harm, Repeats, Written;
    DueAndKept(h, f, c);
    if Repeats(h, c) {
      SentAgain(h, c);
      if Written(f, UnreadFrom(h, Rest(c))) != [] {
        HarmIsNotDue(h, f, c.feed, Harm(h, c), UnreadFrom(h, Rest(c)));
      }
    } else {
      LeftOut(h, c);
      if Written(f, UnreadFrom(h, c.feed)) != [] {
        SplitAtTheFeed(UnreadFrom(h, Rest(c)), Harm(h, c), UnreadFrom(h, c.feed));
        HarmIsNotDue(h, f, Rest(c), Harm(h, c), UnreadFrom(h, c.feed));
      }
    }
  }

  lemma {:induction false} SplitAtTheFeed(rows: seq<Record>, harm: seq<Record>, rest: seq<Record>)
    requires rows == harm + rest
    ensures SplitsOff(rows, harm, rest)
  {
  }

  /** What the replay wrote is exact whatever the feed brings. */
  lemma {:induction false} ReplayIsExact(h: History, f: Filter, c: Connection, frames: seq<Sse>, fed: seq<Record>,
                                         queue: seq<Frame>, dead: bool, hubAt: Position, n: nat)
    requires Joining(h, c) && Fed(h, f, c, frames, fed, queue, dead, hubAt) && n <= |frames|
    ensures n <= |Written(f, c.replayed)| ==> Exact(h, f, c.origin, frames[..n])
    ensures |Written(f, c.replayed)| <= |frames|
    ensures Exact(h, f, c.origin, frames) ==> Exact(h, f, c.origin, frames[..n])
  {
    hide Kept, UnreadFrom, Valid, Forwarded, Select, Subscribed, Harm, Repeats, Rest, Written, Joining;
    DueAndKept(h, f, c);
  }

  /**
   * The frames of a connection that went on to the live feed, cut anywhere: they are exact
   * until the first one written live, and from there on if and only if the connection does
   * no harm that its filter selects. That is, no matching record lies between where its replay
   * left off and where the feed begins, and none that the skip test lets through lies between
   * where the feed begins and where the replay left off.
   */
  lemma {:induction false} ExactIffUnharmed(h: History, f: Filter, c: Connection, frames: seq<Sse>, fed: seq<Record>,
                                            queue: seq<Frame>, dead: bool, hubAt: Position, n: nat)
    requires Joining(h, c) && Fed(h, f, c, frames, fed, queue, dead, hubAt) && n <= |frames|
    ensures Exact(h, f, c.origin, frames[..n]) <==> n <= |Written(f, c.replayed)| || Select(f, Harm(h, c)) == []
    ensures queue == [] && !dead ==>
              (Exact(h, f, c.origin, frames) && NothingWithheld(h, f, c, frames, hubAt) <==>
                 Select(f, Harm(h, c)) == [])
  {
    hide Kept, UnreadFrom, Valid, Forwarded, Select, Subscribed, Harm, Repeats, Rest, NothingWithheld, Written;
    hide Joining, Fed, Exact;
    ReplayIsExact(h, f, c, frames, fed, queue, dead, hubAt, n);
    assert frames[..|frames|] == frames;
    if Select(f, Harm(h, c)) == [] {
      UnharmedIsExact(h, f, c, frames, fed, queue, dead, hubAt);
    } else {
      HarmedIsNotExact(h, f, c, frames, fed, queue, dead, hubAt, n);
      HarmedIsNotExact(h, f, c, frames, fed, queue, dead, hubAt, |frames|);
    }
  }

  // ---- what the reads tell ----------------------------------------------------------------------

  lemma {:induction false} HappenedSpans(c: Connection)
    requires Happened(c)
    ensures Evolves(c.subscribed, c.landed) && Evolves(c.subscribed, c.ended)
  {
    ReadsSpan(c.subscribed, c.landed, c.start, c.boundary, c.calls);
    EvolvesIsTransitive(c.subscribed, c.landed, c.ended);
  }

  /** A connection that went live has a replay that landed. */
  lemma {:induction false} HappenedLands(c: Connection)
    requires Happened(c) && c.live
    ensures Landed(c.landed, c.subscribed, c.start, c.origin, c.boundary, c.manner, c.replayed, c.joined)
    ensures c.manner == Dark <==> c.calls != [] && !c.calls[|c.calls| - 1].found
    ensures c.origin.cursor == c.start.cursor && (c.start.stream != "" ==> c.origin == c.start)
  {
    hide ReadsOk, ReplayOf, Landed, Underway, Captured, Evolves;
    var s := ReplayOf(c.start, c.boundary, c.calls);
    ReplayIs(c.subscribed, c.landed, c.start, c.boundary, c.calls);
    LandedHasOrigin(c.landed, c.subscribed, c.start, s.origin, c.boundary, s.manner, s.passed, s.cur, c.origin);
  }

  /** Live or not, a connection begins at the start it was given. */
  lemma {:induction false} BeginsAtItsStart(c: Connection)
    requires Happened(c)
    ensures c.origin.cursor == c.start.cursor && (c.start.stream != "" ==> c.origin == c.start)
  {
    if c.live {
      HappenedLands(c);
    } else {
      hide ReadsOk, ReplayOf, Captured, Evolves, OnCourse, Between;
      ReplayIs(c.subscribed, c.landed, c.start, c.boundary, c.calls);
    }
  }

  /** Without a stream a replay has no origin yet, so any will do. */
  lemma {:induction false} LandedHasOrigin(landed: History, subscribed: History, start: Position, origin: Position,
                                           boundary: Position, manner: Manner, before: seq<Record>, cur: Position,
                                           from: Position)
    requires Landed(landed, subscribed, start, origin, boundary, manner, before, cur)
    requires cur.stream == "" || from == origin
    requires cur.stream == "" ==> from.cursor == start.cursor
    ensures Landed(landed, subscribed, start, from, boundary, manner, before, cur)
    ensures from.cursor == start.cursor && (start.stream != "" ==> from == start)
  {
    if manner.Over? {
      Named(landed, boundary.stream);
    }
  }

  lemma {:induction false} HappenedJoins(c: Connection)
    requires Happened(c) && c.live && InLog(c.ended, c.feed)
    ensures Joining(c.ended, c)
  {
    HappenedLands(c);
    hide ReadsOk, ReplayOf, UpTo;
    if c.manner.Over? {
      Named(c.landed, c.boundary.stream);
    } else if c.joined.stream != "" {
      ReplayOkStays(c.landed, c.ended, c.start, c.origin, c.replayed, c.joined);
    }
  }

  /** A clean replay that ended in the boundary's stream has left nothing before it. */
  lemma {:induction false} CleanAtTheBoundary(c: Connection)
    requires Happened(c) && c.live && c.manner == Clean && c.boundary.stream != ""
    requires c.joined.stream == c.boundary.stream
    ensures Harm(c.ended, c) == []
  {
    LandedClean(c);
    hide Happened, GapInLog;
    if c.joined.cursor < c.boundary.cursor {
      GapStays(c.landed, c.ended, c.joined, c.boundary);
    }
  }

  lemma {:induction false} LandedClean(c: Connection)
    requires Happened(c) && c.live && c.manner == Clean && c.boundary.stream != ""
    ensures AtOrPast(c.landed, c.joined, c.boundary) && InLog(c.landed, c.boundary) && c.feed == c.boundary
    ensures Valid(c.landed) && Future(c.landed, c.ended)
  {
    HappenedLands(c);
    hide ReadsOk, ReplayOf, ReplayOk, OnCourse, AtOrPast, InLog, Valid, Evolves;
  }

  /** A grounded connection's replay stands in no stream newer than the boundary's. */
  lemma {:induction false} GroundedStands(c: Connection)
    requires Happened(c) && c.live && Grounded(c.subscribed, c.origin, c.boundary)
    ensures c.boundary.stream != "" && c.feed == c.boundary && SoundBoundary(c.ended, c.boundary) && Valid(c.ended)
    ensures c.joined.stream != "" ==> NotNewer(c.ended, c.joined.stream, c.boundary.stream)
  {
    HappenedLands(c);
    HappenedSpans(c);
    hide ReadsOk, ReplayOf, ReplayOk, Arrived;
    SoundBoundaryStays(c.subscribed, c.ended, c.boundary);
    Named(c.ended, c.boundary.stream);
    if c.joined.stream != "" {
      OnCourseStays(c.landed, c.ended, c.subscribed, c.origin, c.boundary, c.joined);
    }
  }

  /** A clean replay of a grounded connection does no harm. */
  lemma {:induction false} CleanIsUnharmed(c: Connection)
    requires Happened(c) && c.live && Grounded(c.subscribed, c.origin, c.boundary) && c.manner == Clean
    ensures Harm(c.ended, c) == []
  {
    GroundedStands(c);
    LandedClean(c);
    hide Happened, Grounded, Harm;
    assert NotNewer(c.landed, c.boundary.stream, c.joined.stream);
    Named(c.landed, c.joined.stream);
    NotNewerStays(c.landed, c.ended, c.boundary.stream, c.joined.stream);
    IndexTells(c.ended, c.joined.stream, c.boundary.stream);
    CleanAtTheBoundary(c);
  }

  /** A dark replay that had found a stream left out what lies before a boundary past the first sequence. */
  lemma {:induction false} DarkIsHarmed(c: Connection)
    requires Happened(c) && c.live && Grounded(c.subscribed, c.origin, c.boundary)
    requires c.manner == Dark && c.joined.stream != "" && 1 < c.boundary.cursor
    ensures Harm(c.ended, c) != []
  {
    hide Happened, Grounded, Gap;
    GroundedStands(c);
    LandedDark(c);
    Named(c.ended, c.boundary.stream);
    IndexTells(c.ended, c.joined.stream, c.boundary.stream);
    GapIsThere(c.ended, c.joined, c.boundary);
  }

  lemma {:induction false} LandedDark(c: Connection)
    requires Happened(c) && c.live && c.manner == Dark
    ensures !Reached(c.joined, c.boundary)
  {
    HappenedLands(c);
    hide Happened, ReplayOk, OnCourse;
  }

  /**
   * A replay that was cut back makes the feed repeat what lies between the boundary and a start
   * past the first sequence.
   */
  lemma {:induction false} OverIsHarmed(c: Connection)
    requires Happened(c) && c.live && c.manner == Over && 1 < c.origin.cursor
    ensures Harm(c.ended, c) != []
  {
    hide Happened, Valid;
    OverLands(c);
    IndexIsStable(c.landed, c.ended, c.boundary.stream);
    var j := IndexIn(c.ended.incs, c.boundary.stream);
    assert c.landed.incs[j].log <= c.ended.incs[j].log;
    GapIsNotEmpty(c.ended.incs, j, c.boundary.cursor, j, c.origin.cursor);
  }

  lemma {:induction false} OverLands(c: Connection)
    requires Happened(c) && c.live && c.manner == Over
    ensures Future(c.landed, c.ended) && c.boundary.stream != "" && Listed(c.landed, c.boundary.stream)
    ensures c.origin.cursor <= |c.landed.incs[IndexIn(c.landed.incs, c.boundary.stream)].log|
    ensures c.feed == c.boundary && c.origin.stream == c.boundary.stream && c.boundary.cursor < c.origin.cursor
  {
    hide ReadsOk, ReplayOf, Evolves, Captured, OnCourse, BeganPast, ReplayOk, AtOrPast, Reached, Underway;
    HappenedLands(c);
    Named(c.landed, c.boundary.stream);
  }

  /**
   * A grounded connection that found a stream, with the boundary past the first sequence of
   * its log, does no harm if and only if its replay ended cleanly.
   */
  lemma {:induction false} UnharmedIffClean(c: Connection)
    requires Happened(c) && c.live && Grounded(c.subscribed, c.origin, c.boundary)
    requires c.joined.stream != "" && 1 < c.boundary.cursor
    ensures Harm(c.ended, c) == [] <==> c.manner == Clean
  {
    hide Happened, Grounded, Harm;
    match c.manner {
      case Clean => CleanIsUnharmed(c);
      case Dark => DarkIsHarmed(c);
      case Over =>
        StartIsPast(c);
        OverIsHarmed(c);
    }
  }

  lemma {:induction false} StartIsPast(c: Connection)
    requires Happened(c) && c.live && c.manner == Over
    ensures c.boundary.cursor < c.origin.cursor == c.start.cursor
  {
    HappenedLands(c);
  }

  /** The rows of one stream from a cursor on; none if the stream is unknown. */
  ghost function RowsOf(h: History, stream: string, cursor: int): seq<Record> {
    var i := IndexIn(h.incs, stream);
    if i < |h.incs| then RowsFrom(h.incs[i], cursor) else []
  }

  /**
   * No token, a start past the boundary, and a first read that resolved to the boundary's stream
   * when its log held a record at or after the start.
   */
  ghost predicate Late(c: Connection) {
    && c.start.stream == "" && c.boundary.cursor < c.start.cursor
    && c.calls != [] && c.calls[0].found && c.calls[0].batch.resolved == c.boundary.stream
    && RowsOf(c.calls[0].after, c.boundary.stream, c.start.cursor) != []
  }

  /** A replay is cut back to the boundary exactly in that case. */
  lemma {:induction false} CutBackIffLate(c: Connection)
    requires Happened(c)
    ensures c.manner == Over <==> Late(c)
  {
    OverIffFirstReadOverruns(c.subscribed, c.landed, c.start, c.boundary, c.calls);
    if c.calls != [] {
      FirstRead(c.subscribed, c.landed, c.start, c.boundary, c.calls);
      hide ReadsOk, ReplayOf, Captured;
      if c.start.stream == "" && c.calls[0].found {
        FirstRows(c.calls[0], c.start.cursor);
      }
    }
  }

  lemma {:induction false} FirstRows(call: Call, cursor: int)
    requires CallFrom(call, "", cursor) && call.found
    ensures call.batch.rows == RowsOf(call.after, call.batch.resolved, cursor)
    ensures call.before.incs != [] && call.batch.resolved == Newest(call.before).id
  {
    IndexIs(call.after, |call.before.incs| - 1);
  }

  /**
   * As long as the session stays live, a start without a token past the boundary of its current
   * stream is cut back if a record at or after it is there when the connection subscribes.
   */
  lemma {:induction false} SteadyStartIsCutBack(c: Connection)
    requires Happened(c) && c.live && Steady(c.subscribed, c.landed) && c.start.stream == ""
    requires c.boundary.stream == Newest(c.subscribed).id && c.boundary.cursor < c.start.cursor
    requires RowsFrom(Newest(c.subscribed), c.start.cursor) != []
    ensures c.manner == Over
  {
    assert Valid(c.subscribed);
    hide Happened, RowsFrom, Evolves;
    ListedAt(c.subscribed, |c.subscribed.incs| - 1);
    Named(c.subscribed, c.boundary.stream);
    ReadAtLeastOnce(c);
    SteadyFirstRead(c);
    CutBackIffLate(c);
    NewestRowsStay(c.subscribed, c.calls[0].after, c.start.cursor);
  }

  lemma {:induction false} NewestRowsStay(h: History, later: History, cursor: int)
    requires Future(h, later) && h.incs != [] && RowsFrom(Newest(h), cursor) != []
    ensures RowsOf(later, Newest(h).id, cursor) != []
  {
    var last := |h.incs| - 1;
    IndexIs(later, last);
    RowsStay(h.incs[last], later.incs[last], cursor);
  }

  lemma {:induction false} ReadAtLeastOnce(c: Connection)
    requires Happened(c) && c.live && c.start.stream != c.boundary.stream
    ensures c.calls != []
  {
    assert ReplayOf(c.start, c.boundary, []) == Progress(c.start, c.start, [], Clean, false);
  }

  lemma {:induction false} SteadyFirstRead(c: Connection)
    requires Happened(c) && Steady(c.subscribed, c.landed) && c.calls != [] && c.start.stream == ""
    requires c.subscribed.incs != []
    ensures var call := c.calls[0];
            && call.found && call.batch.resolved == Newest(c.subscribed).id && Valid(call.after)
            && Evolves(c.subscribed, call.after)
            && |call.after.incs| == |c.subscribed.incs|
  {
    var call := c.calls[0];
    HappenedRead(c);
    hide Happened, Evolves, Valid, CallFrom;
    CallSpans(call, c.start);
    EvolvesIsTransitive(call.before, call.after, c.landed);
    SteadyThroughout(c.subscribed, call.before, c.landed);
    SteadyThroughout(call.before, call.after, c.landed);
    EvolvesIsTransitive(c.subscribed, call.before, call.after);
    FoundIfLive(call, c.start);
    FirstRows(call, c.start.cursor);
    SameNewest(c.subscribed, call.before);
  }

  lemma {:induction false} HappenedRead(c: Connection)
    requires Happened(c) && c.calls != []
    ensures CallFrom(c.calls[0], c.start.stream, c.start.cursor)
    ensures Evolves(c.subscribed, c.calls[0].before) && Evolves(c.calls[0].after, c.landed) && Valid(c.subscribed)
  {
    FirstRead(c.subscribed, c.landed, c.start, c.boundary, c.calls);
  }

  lemma {:induction false} FoundIfLive(call: Call, p: Position)
    requires CallFrom(call, p.stream, p.cursor) && call.before.live
    ensures call.found
  {
  }

  lemma {:induction false} SameNewest(h: History, later: History)
    requires Evolves(h, later) && |h.incs| == |later.incs| > 0
    ensures Newest(h).id == Newest(later).id
  {
  }

  /**
   * What a caller can know beforehand of a session that stays live: the hub has come to its
   * current stream, or the boundary's log holds an event and the connection resumes in no newer
   * stream; and without a token the start is not past the boundary.
   */
  ghost predicate Calm(c: Connection) {
    && Steady(c.subscribed, c.landed) && c.subscribed.incs != []
    && ((c.boundary.stream != "" && c.boundary.stream == Newest(c.subscribed).id)
        || Grounded(c.subscribed, c.origin, c.boundary))
    && (c.start.stream == "" ==> c.start.cursor <= c.boundary.cursor)
  }

  /** Such a connection does no harm. */
  lemma {:induction false} CalmIsUnharmed(c: Connection)
    requires Happened(c) && c.live && Valid(c.subscribed) && Calm(c)
    ensures c.manner == Clean && Harm(c.ended, c) == []
  {
    CutBackIffLate(c);
    HappenedLands(c);
    if c.calls != [] {
      SteadyIsNotDark(c.subscribed, c.landed, c.start, c.boundary, c.calls);
    }
    assert c.manner == Clean;
    if Grounded(c.subscribed, c.origin, c.boundary) {
      CleanIsUnharmed(c);
    } else {
      ArrivesAtTheNewest(c);
      CleanAtTheBoundary(c);
    }
  }

  lemma {:induction false} ArrivesAtTheNewest(c: Connection)
    requires Happened(c) && c.live && c.manner == Clean && Steady(c.subscribed, c.landed)
    requires c.boundary.stream != "" && c.boundary.stream == Newest(c.subscribed).id
    ensures c.joined.stream == c.boundary.stream
  {
    HappenedLands(c);
    HappenedSpans(c);
    hide ReadsOk, ReplayOf, UpTo, Between, ReplayOk, OnCourse;
    assert NotNewer(c.landed, c.boundary.stream, c.joined.stream);
    IndexIs(c.landed, |c.landed.incs| - 1);
    IndexTells(c.landed, c.boundary.stream, c.joined.stream);
  }

  /** Cut back to the boundary, or without a stream found, a connection is exact from where the feed begins. */
  lemma {:induction false} ExactFromTheBoundary(h: History, f: Filter, c: Connection, frames: seq<Sse>,
                                                fed: seq<Record>, queue: seq<Frame>, dead: bool, hubAt: Position)
    requires Joining(h, c) && Fed(h, f, c, frames, fed, queue, dead, hubAt) && Unplaced(c)
    ensures Exact(h, f, c.feed, frames)
    ensures queue == [] && !dead ==> NothingWithheld(h, f, c.(origin := c.feed), frames, hubAt)
  {
    hide UnreadFrom, Kept, Forwarded, Between, Subscribed, Written;
    var back := c.(origin := c.feed);
    NothingToRepeat(h, f, back);
    UnharmedIsExact(h, f, back, frames, fed, queue, dead, hubAt);
  }

  lemma {:induction false} NothingToRepeat(h: History, f: Filter, c: Connection)
    requires Unplaced(c) && c.origin == c.feed
    ensures Select(f, Harm(h, c)) == []
  {
    assert Harm(h, c) == [];
  }
}
