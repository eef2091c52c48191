/**
 * The replay loop of the SSE endpoint (app/internal/eventbus/server.go, handleStream): the
 * log is read from a resume point on, up to the position the hub stood at when the
 * connection subscribed.
 */
module ReplayLoop {
  import opened Events
  import opened Incarnations
  import opened EventStore
  import opened SessionHub
  import opened LiveLoop
  import ResumeToken

  // ---- one batch ------------------------------------------------------------------------------

  /** The cursor a batch starts at within the stream it resolved to. */
  ghost function BatchStart(p: Position, b: Batch): int {
    if p.stream == "" || p.stream == b.resolved then p.cursor else 0
  }

  /** Stopping before the first row at or past the boundary leaves the replay exactly on it. */
  lemma {:induction false} StopIsOnBoundary(inc: Incarnation, cursor: int, boundary: int, k: nat)
    requires k < |RowsFrom(inc, cursor)| && boundary <= RowsFrom(inc, cursor)[k].sequence
    requires forall m :: 0 <= m < k ==> RowsFrom(inc, cursor)[m].sequence < boundary
    requires cursor <= boundary || cursor <= 1
    ensures RowsFrom(inc, boundary) == RowsFrom(inc, cursor)[k..]
  {
    var rows := RowsFrom(inc, cursor);
    if k > 0 {
      assert rows[k - 1].sequence + 1 == rows[k].sequence;
    }
    assert Below(boundary, |inc.log|) == Below(cursor, |inc.log|) + k;
  }

  /** The same, read again once the log has grown. */
  lemma {:induction false} StopInGrownLog(early: Incarnation, now: Incarnation, cursor: int, boundary: int, k: nat)
    requires early.id == now.id && early.log <= now.log && (cursor <= boundary || cursor <= 1)
    requires k < |RowsFrom(early, cursor)| && boundary <= RowsFrom(early, cursor)[k].sequence
    requires forall m :: 0 <= m < k ==> RowsFrom(early, cursor)[m].sequence < boundary
    ensures RowsFrom(now, boundary) ==
              RowsFrom(early, cursor)[k..] + RowsFrom(now, Past(RowsFrom(early, cursor), cursor))
  {
    var rows := RowsFrom(early, cursor);
    StopIsOnBoundary(early, cursor, boundary, k);
    RowsSplit(early, now, boundary);
    hide RowsFrom;
    assert rows[k..][|rows[k..]| - 1] == rows[|rows| - 1];
  }

  lemma {:induction false} StopInLog(before: History, after: History, later: History, p: Position, b: Batch,
                                     boundary: int, k: nat)
    requires Valid(after) && Future(after, later) && ReadStep(before, after, p.stream, p.cursor, b) && p.stream != ""
    requires k < |b.rows| && boundary <= b.rows[k].sequence
    requires forall m :: 0 <= m < k ==> b.rows[m].sequence < boundary
    requires p.stream == b.resolved ==> p.cursor <= boundary
    ensures Unread(later, b.resolved, boundary) == b.rows[k..] + Unread(later, b.resolved, b.next)
  {
    hide RowsFrom, AllRows;
    var j := IndexIn(after.incs, b.resolved);
    IndexIsStable(after, later, b.resolved);
    assert after.incs[IndexIn(after.incs, p.stream)].id == p.stream;
    StopInGrownLog(after.incs[j], later.incs[j], BatchStart(p, b), boundary, k);
    ConcatIsAssociative(b.rows[k..], RowsFrom(later.incs[j], b.next), AllRows(later.incs[j + 1..]));
  }

  lemma {:induction false} StopIsBetween(before: History, after: History, p: Position, b: Batch, boundary: int, k: nat)
    requires Valid(after) && ReadStep(before, after, p.stream, p.cursor, b) && p.stream != ""
    requires k < |b.rows| && boundary <= b.rows[k].sequence
    requires forall m :: 0 <= m < k ==> b.rows[m].sequence < boundary
    requires p.stream == b.resolved ==> p.cursor <= boundary
    ensures Between(after, p, b.rows[..k], Position(b.resolved, boundary))
  {
    var to := Position(b.resolved, boundary);
    BatchIsBetween(before, after, p.stream, p.cursor, b);
    hide ReadStep, Valid, Unread;
    forall later | Future(after, later) ensures UnreadFrom(later, p) == b.rows[..k] + UnreadFrom(later, to) {
      var next := Position(b.resolved, b.next);
      assert UnreadFrom(later, p) == b.rows + UnreadFrom(later, next);
      StopInLog(before, after, later, p, b, boundary, k);
      ConcatIsAssociative(b.rows[..k], b.rows[k..], UnreadFrom(later, next));
      assert b.rows == b.rows[..k] + b.rows[k..];
    }
  }

  /** Where the replay of one batch breaks off: m rows passed, all of them before the boundary. */
  ghost predicate CutAt(b: Batch, boundary: Position, m: nat) {
    && m <= |b.rows|
    && (forall k :: 0 <= k < m ==> b.resolved == boundary.stream ==> b.rows[k].sequence < boundary.cursor)
    && (m < |b.rows| ==> b.resolved == boundary.stream && boundary.cursor <= b.rows[m].sequence)
  }

  /** The loop's position once the batch is dealt with. */
  ghost function After(b: Batch, boundary: Position, m: nat): Position {
    Position(b.resolved, if m < |b.rows| then boundary.cursor else b.next)
  }

  /** How many rows of a batch come before the boundary. */
  ghost function Cutoff(b: Batch, boundary: Position): (m: nat)
    ensures CutAt(b, boundary, m)
  {
    CutFrom(b, boundary, 0)
  }

  ghost function CutFrom(b: Batch, boundary: Position, i: nat): (m: nat)
    requires i <= |b.rows|
    requires forall k :: 0 <= k < i ==> b.resolved == boundary.stream ==> b.rows[k].sequence < boundary.cursor
    ensures CutAt(b, boundary, m)
    decreases |b.rows| - i
  {
    if i == |b.rows| || (b.resolved == boundary.stream && boundary.cursor <= b.rows[i].sequence) then i
    else CutFrom(b, boundary, i + 1)
  }

  lemma {:induction false} CutIs(b: Batch, boundary: Position, m: nat)
    requires CutAt(b, boundary, m)
    ensures m == Cutoff(b, boundary)
  {
    hide CutFrom;
  }

  /** Writes the matching rows of a batch that lie before the boundary. */
  method WriteBatch(f: Filter, b: Batch, boundary: Position) returns (frames: seq<Sse>, stopped: bool)
    requires Consecutive(b)
    ensures frames == Written(f, b.rows[..Cutoff(b, boundary)]) && stopped == (Cutoff(b, boundary) < |b.rows|)
  {
    hide Written, ResumeToken.Encode, Matches, Cutoff;
    frames := [];
    NothingWritten(f);
    assert b.rows[..0] == [];
    for i := 0 to |b.rows|
      invariant frames == Written(f, b.rows[..i])
      invariant forall k :: 0 <= k < i ==> b.resolved == boundary.stream ==> b.rows[k].sequence < boundary.cursor
    {
      if b.resolved == boundary.stream && b.rows[i].sequence >= boundary.cursor {
        CutIs(b, boundary, i);
        return frames, true;
      }
      assert b.rows[..i + 1] == b.rows[..i] + [b.rows[i]];
      WrittenSnoc(f, b.rows[..i], b.rows[i]);
      var chosen := Match(f, b.rows[i].event);
      if !chosen {
        continue;
      }
      var resume := b.next;
      if i + 1 < |b.rows| {
        resume := b.rows[i + 1].sequence;
      }
      frames := frames + [Sse(ResumeToken.Encode(b.resolved, resume), b.rows[i].event)];
    }
    CutIs(b, boundary, |b.rows|);
    stopped := false;
  }

  lemma {:induction false} WholeBatch(b: Batch, boundary: Position, m: nat)
    requires CutAt(b, boundary, m)
    ensures m <= |b.rows| && (m == |b.rows| ==> b.rows[..m] == b.rows)
  {
  }

  /** A batch, cut at the boundary, lies between the position read from and the one after it. */
  lemma {:induction false} CutIsBetween(before: History, after: History, p: Position, b: Batch, boundary: Position,
                                        m: nat)
    requires Valid(after) && ReadStep(before, after, p.stream, p.cursor, b) && p.stream != "" && CutAt(b, boundary, m)
    requires m < |b.rows| && p.stream == boundary.stream ==> p.cursor <= boundary.cursor
    ensures Between(after, p, b.rows[..m], After(b, boundary, m))
  {
    if m < |b.rows| {
      StopIsBetween(before, after, p, b, boundary.cursor, m);
    } else {
      BatchIsBetween(before, after, p.stream, p.cursor, b);
      assert b.rows[..m] == b.rows;
    }
  }

  // ---- where a replay stands ------------------------------------------------------------------

  /** The loop's own test for being done. */
  predicate Reached(p: Position, boundary: Position) {
    p.stream == boundary.stream && boundary.cursor <= p.cursor
  }

  /** The hub's position: in a log, or nowhere yet. */
  ghost predicate Captured(h: History, boundary: Position) {
    if boundary.stream == "" then boundary.cursor == 0 else InLog(h, boundary)
  }

  lemma {:induction false} CapturedStays(h: History, later: History, boundary: Position)
    requires Captured(h, boundary) && Future(h, later)
    ensures Captured(later, boundary)
  {
    if boundary.stream != "" {
      InLogStays(h, later, boundary);
    }
  }

  /**
   * What a replay in progress has established: the records passed are exactly those between
   * its origin and where it stands. Without a token it has neither before its first read.
   */
  ghost predicate ReplayOk(h: History, start: Position, origin: Position, passed: seq<Record>, cur: Position) {
    && Valid(h)
    && if cur.stream == "" then start.stream == "" && cur == start && passed == []
       else
         && (if start.stream != "" then origin == start else origin.cursor == start.cursor)
         && NotNewer(h, origin.stream, cur.stream)
         && Between(h, origin, passed, cur) && UpTo(h, passed, cur.stream)
  }

  lemma {:induction false} ReplayOkStays(h: History, later: History, start: Position, origin: Position,
                                         passed: seq<Record>, cur: Position)
    requires ReplayOk(h, start, origin, passed, cur) && Future(h, later)
    ensures ReplayOk(later, start, origin, passed, cur)
  {
    if cur.stream != "" {
      NotNewerStays(h, later, origin.stream, cur.stream);
      BetweenStays(h, later, origin, passed, cur);
      UpToStays(h, later, passed, cur.stream);
    }
  }

  lemma {:induction false} ReplayStarts(h: History, start: Position)
    requires Valid(h) && (start.stream == "" || Listed(h, start.stream))
    ensures ReplayOk(h, start, start, [], start)
  {
    BetweenNothing(h, start);
  }

  /** The stream a read starts in becomes the origin when the connection brought none. */
  ghost function OriginAfter(origin: Position, cur: Position, b: Batch): Position {
    if cur.stream == "" then Position(b.resolved, cur.cursor) else origin
  }

  /** The first read of a connection without a token found records although it started past the boundary. */
  ghost predicate Overruns(cur: Position, b: Batch, boundary: Position) {
    cur.stream == "" && b.resolved == boundary.stream && boundary.cursor < cur.cursor && b.rows != []
  }

  lemma {:induction false} ResolvedIsListed(before: History, after: History, streamID: string, cursor: int, b: Batch)
    requires ReadStep(before, after, streamID, cursor, b)
    ensures Listed(after, b.resolved) && (streamID != "" ==> NotNewer(after, streamID, b.resolved))
  {
  }

  /** One read, cut at the boundary, carries the replay on. */
  lemma {:induction false} ReplayGoesOn(earlier: History, before: History, after: History, start: Position,
                                        origin: Position, boundary: Position, passed: seq<Record>, cur: Position,
                                        b: Batch, m: nat)
    requires ReplayOk(earlier, start, origin, passed, cur) && Future(earlier, before) && Future(before, after)
    requires ReadStep(before, after, cur.stream, cur.cursor, b) && CutAt(b, boundary, m) && b.resolved != ""
    requires !Reached(cur, boundary) && !Overruns(cur, b, boundary)
    ensures ReplayOk(after, start, OriginAfter(origin, cur, b), passed + b.rows[..m], After(b, boundary, m))
  {
    hide UpTo, Between, NotNewer, ReadStep, Valid;
    EvolvesIsTransitive(earlier, before, after);
    ReplayOkStays(earlier, after, start, origin, passed, cur);
    var p := Position(Origin(cur.stream, b), cur.cursor);
    assert ReadStep(before, after, p.stream, p.cursor, b) by { SameRead(before, after, cur, b); }
    CutIsBetween(before, after, p, b, boundary, m);
    ResolvedIsListed(before, after, p.stream, p.cursor, b);
    RowsAreConsecutive(b, before, after, p.stream, p.cursor);
    if cur.stream == "" {
      UpToNext(after, [], "", b.rows[..m], b.resolved);
      assert [] + b.rows[..m] == b.rows[..m];
    } else {
      UpToNext(after, passed, cur.stream, b.rows[..m], b.resolved);
      BetweenJoins(after, origin, passed, cur, b.rows[..m], After(b, boundary, m));
      NotNewerThrough(after, origin.stream, cur.stream, b.resolved);
    }
  }

  lemma {:induction false} SameRead(before: History, after: History, cur: Position, b: Batch)
    requires ReadStep(before, after, cur.stream, cur.cursor, b)
    ensures ReadStep(before, after, Origin(cur.stream, b), cur.cursor, b)
  {
  }

  lemma {:induction false} NotNewerThrough(h: History, a: string, b: string, c: string)
    requires NotNewer(h, a, b) && NotNewer(h, b, c)
    ensures NotNewer(h, a, c)
  {
  }

  // ---- how a replay ends ------------------------------------------------------------------------

  /**
   * Clean: on the boundary or past it, or at the end of the log. Dark: a read found the
   * session without a live stream and the replay broke off where it stood. Over: the first
   * read, without a token, started past the boundary and found records there, and was cut
   * back to the boundary.
   */
  datatype Manner = Clean | Dark | Over

  /** Nothing that was in the log before the boundary is left to replay. */
  ghost predicate AtOrPast(h: History, cur: Position, boundary: Position) {
    if boundary.stream == "" then cur.stream == "" ==> boundary.cursor <= cur.cursor
    else
      && NotNewer(h, boundary.stream, cur.stream)
      && (cur.stream == boundary.stream && cur.cursor < boundary.cursor ==>
            GapInLog(h.incs[IndexIn(h.incs, boundary.stream)], cur.cursor, boundary.cursor) == [])
  }

  /** The end of any replay that goes on to join the live feed. */
  ghost predicate Arrived(h: History, start: Position, origin: Position, boundary: Position, manner: Manner,
                          passed: seq<Record>, cur: Position) {
    match manner
    case Clean => ReplayOk(h, start, origin, passed, cur) && AtOrPast(h, cur, boundary)
    case Dark => ReplayOk(h, start, origin, passed, cur) && !Reached(cur, boundary)
    case Over =>
      && Valid(h) && InLog(h, boundary) && start.stream == "" && passed == [] && cur == boundary
      && origin == Position(boundary.stream, start.cursor) && boundary.cursor < origin.cursor
      && RowsFrom(h.incs[IndexIn(h.incs, boundary.stream)], origin.cursor) != []
  }

  /** The loop's own test, on a boundary in the log. */
  lemma {:induction false} ReachedIsPast(h: History, cur: Position, boundary: Position)
    requires Captured(h, boundary) && Reached(cur, boundary)
    ensures AtOrPast(h, cur, boundary)
  {
  }

  /** Past the boundary there is a record, but the batch is cut before its first row. */
  lemma {:induction false} OverrunIsCutAtOnce(before: History, after: History, start: int, b: Batch, boundary: Position,
                                              m: nat)
    requires ReadStep(before, after, "", start, b) && CutAt(b, boundary, m)
    requires Overruns(Position("", start), b, boundary)
    ensures m == 0 && After(b, boundary, m) == boundary
    ensures Listed(after, boundary.stream) && RowsFrom(after.incs[IndexIn(after.incs, boundary.stream)], start) != []
  {
    assert boundary.cursor <= b.rows[0].sequence;
  }

  /** A batch that is cut, or empty, ends the replay at or past the boundary. */
  lemma {:induction false} LastReadArrives(earlier: History, before: History, after: History, boundary: Position,
                                           cur: Position, b: Batch, m: nat)
    requires Captured(earlier, boundary) && Future(earlier, before) && Future(before, after)
    requires ReadStep(before, after, cur.stream, cur.cursor, b) && CutAt(b, boundary, m) && b.resolved != ""
    requires m < |b.rows| || b.rows == []
    ensures AtOrPast(after, After(b, boundary, m), boundary)
  {
    CapturedStays(earlier, before, boundary);
    CapturedStays(before, after, boundary);
    if boundary.stream != "" {
      IndexIsStable(before, after, boundary.stream);
    }
  }

  lemma {:induction false} ReadArrives(earlier: History, before: History, after: History, start: Position,
                                       origin: Position, boundary: Position, passed: seq<Record>, cur: Position,
                                       b: Batch, m: nat)
    requires ReplayOk(earlier, start, origin, passed, cur) && Future(earlier, before) && Future(before, after)
    requires Captured(earlier, boundary) && !Reached(cur, boundary)
    requires ReadStep(before, after, cur.stream, cur.cursor, b) && CutAt(b, boundary, m) && b.resolved != ""
    ensures var origin', next := OriginAfter(origin, cur, b), After(b, boundary, m);
            && m <= |b.rows| && (m == |b.rows| ==> b.rows[..m] == b.rows)
            && (if Overruns(cur, b, boundary)
                then
                  && m == 0 && next == boundary
                  && Arrived(after, start, origin', boundary, Over, passed + b.rows[..m], next)
                else
                  && ReplayOk(after, start, origin', passed + b.rows[..m], next)
                  && (m < |b.rows| || b.rows == [] ==>
                        Arrived(after, start, origin', boundary, Clean, passed + b.rows[..m], next)))
  {
    hide ReadStep, ReplayOk, AtOrPast, CutAt;
    WholeBatch(b, boundary, m);
    if Overruns(cur, b, boundary) {
      StandsAtItsStart(earlier, start, origin, passed, cur);
      OverrunIsCutAtOnce(before, after, cur.cursor, b, boundary, m);
      EvolvesIsTransitive(earlier, before, after);
      CapturedStays(earlier, after, boundary);
      assert passed + b.rows[..m] == [];
    } else {
      ReplayGoesOn(earlier, before, after, start, origin, boundary, passed, cur, b, m);
      if m < |b.rows| || b.rows == [] {
        LastReadArrives(earlier, before, after, boundary, cur, b, m);
      }
    }
  }

  lemma {:induction false} StandsAtItsStart(h: History, start: Position, origin: Position, passed: seq<Record>,
                                            cur: Position)
    requires ReplayOk(h, start, origin, passed, cur) && cur.stream == ""
    ensures passed == [] && cur == start
  {
  }

  // ---- staying on course ------------------------------------------------------------------------

  /** The boundary lies in a log that already holds an event. */
  ghost predicate SoundBoundary(h: History, boundary: Position) {
    InLog(h, boundary) && h.incs[IndexIn(h.incs, boundary.stream)].log != []
  }

  lemma {:induction false} SoundBoundaryStays(h: History, later: History, boundary: Position)
    requires SoundBoundary(h, boundary) && Future(h, later)
    ensures SoundBoundary(later, boundary)
  {
    IndexIsStable(h, later, boundary.stream);
    assert h.incs[IndexIn(h.incs, boundary.stream)].log <= later.incs[IndexIn(h.incs, boundary.stream)].log;
  }

  /** The connection resumes in a stream not newer than the boundary's, whose log holds an event. */
  ghost predicate Grounded(subscribed: History, origin: Position, boundary: Position) {
    SoundBoundary(subscribed, boundary) && NotNewer(subscribed, origin.stream, boundary.stream)
  }

  /** A grounded replay never leaves the boundary's stream behind. */
  ghost predicate OnCourse(h: History, subscribed: History, origin: Position, boundary: Position, cur: Position) {
    && Evolves(subscribed, h)
    && (Grounded(subscribed, origin, boundary) && cur.stream != "" ==> NotNewer(h, cur.stream, boundary.stream))
  }

  lemma {:induction false} OnCourseStays(h: History, later: History, subscribed: History, origin: Position,
                                         boundary: Position, cur: Position)
    requires OnCourse(h, subscribed, origin, boundary, cur) && Future(h, later)
    ensures OnCourse(later, subscribed, origin, boundary, cur)
  {
    EvolvesIsTransitive(subscribed, h, later);
    if Grounded(subscribed, origin, boundary) && cur.stream != "" {
      NotNewerStays(h, later, cur.stream, boundary.stream);
    }
  }

  /** A read from short of the boundary never jumps past the boundary's stream. */
  lemma {:induction false} ReadStaysShort(before: History, after: History, p: Position, b: Batch, boundary: Position)
    requires Valid(after) && ReadStep(before, after, p.stream, p.cursor, b) && p.stream != ""
    requires SoundBoundary(after, boundary) && NotNewer(after, p.stream, boundary.stream) && !Reached(p, boundary)
    ensures NotNewer(after, b.resolved, boundary.stream)
  {
    var i, j, k := IndexIn(after.incs, p.stream), IndexIn(after.incs, b.resolved), IndexIn(after.incs, boundary.stream);
    assert i == k ==> p.stream == boundary.stream && |RowsFrom(after.incs[i], p.cursor)| > 0;
  }

  lemma {:induction false} ReadStaysOnCourse(subscribed: History, earlier: History, before: History, after: History,
                                             origin: Position, boundary: Position, cur: Position, b: Batch, m: nat)
    requires OnCourse(earlier, subscribed, origin, boundary, cur) && Future(earlier, before) && Future(before, after)
    requires ReadStep(before, after, cur.stream, cur.cursor, b) && CutAt(b, boundary, m) && !Reached(cur, boundary)
    ensures OnCourse(after, subscribed, OriginAfter(origin, cur, b), boundary, After(b, boundary, m))
  {
    hide ReadStep, SoundBoundary, NotNewer, CutAt;
    EvolvesIsTransitive(earlier, before, after);
    EvolvesIsTransitive(subscribed, earlier, after);
    if Grounded(subscribed, OriginAfter(origin, cur, b), boundary) {
      SoundBoundaryStays(subscribed, after, boundary);
      if cur.stream == "" {
        NotNewerStays(subscribed, after, b.resolved, boundary.stream);
      } else {
        NotNewerStays(earlier, after, cur.stream, boundary.stream);
        ReadStaysShort(before, after, cur, b, boundary);
      }
    }
  }

  // ---- a whole replay ---------------------------------------------------------------------------

  /** A replay that began at or past the boundary has passed nothing and stands where it began. */
  ghost predicate Punctual(origin: Position, boundary: Position, passed: seq<Record>, cur: Position) {
    cur.stream != "" ==> if passed == [] then cur == origin else !Reached(origin, boundary)
  }

  ghost predicate BeganPast(origin: Position, boundary: Position, passed: seq<Record>, cur: Position) {
    cur.stream != "" && Reached(origin, boundary) ==> passed == [] && cur == origin
  }

  lemma {:induction false} ReadIsPunctual(before: History, after: History, origin: Position, boundary: Position,
                                          passed: seq<Record>, cur: Position, b: Batch, m: nat)
    requires Punctual(origin, boundary, passed, cur) && !Reached(cur, boundary) && !Overruns(cur, b, boundary)
    requires cur.stream == "" ==> passed == []
    requires ReadStep(before, after, cur.stream, cur.cursor, b) && CutAt(b, boundary, m)
    ensures var origin', next := OriginAfter(origin, cur, b), After(b, boundary, m);
            && (m == |b.rows| && b.rows != [] ==> Punctual(origin', boundary, passed + b.rows[..m], next))
            && (m < |b.rows| || b.rows == [] ==> BeganPast(origin', boundary, passed + b.rows[..m], next))
  {
    if cur.stream == "" {
      assert b.rows != [] ==> cur.cursor <= b.rows[0].sequence;
      assert passed + b.rows[..m] == b.rows[..m];
    } else {
      assert !Reached(origin, boundary);
    }
  }

  /** All that a round has to keep: the replay's position, its course, and a boundary it has not reached. */
  ghost predicate Underway(h: History, subscribed: History, start: Position, origin: Position, boundary: Position,
                           passed: seq<Record>, cur: Position) {
    && ReplayOk(h, start, origin, passed, cur) && OnCourse(h, subscribed, origin, boundary, cur)
    && Captured(h, boundary) && Punctual(origin, boundary, passed, cur)
  }

  ghost predicate Landed(h: History, subscribed: History, start: Position, origin: Position, boundary: Position,
                         manner: Manner, passed: seq<Record>, cur: Position) {
    && Arrived(h, start, origin, boundary, manner, passed, cur) && OnCourse(h, subscribed, origin, boundary, cur)
    && Captured(h, boundary) && (manner != Over ==> BeganPast(origin, boundary, passed, cur))
  }

  lemma {:induction false} UnderwayStays(h: History, later: History, subscribed: History, start: Position,
                                         origin: Position, boundary: Position, passed: seq<Record>, cur: Position)
    requires Underway(h, subscribed, start, origin, boundary, passed, cur) && Future(h, later)
    ensures Underway(later, subscribed, start, origin, boundary, passed, cur) && Evolves(subscribed, h)
    ensures cur.stream == "" || Listed(later, cur.stream)
  {
    ReplayOkStays(h, later, start, origin, passed, cur);
    OnCourseStays(h, later, subscribed, origin, boundary, cur);
    CapturedStays(h, later, boundary);
  }

  lemma {:induction false} UnderwayReads(subscribed: History, earlier: History, before: History, after: History,
                                         start: Position, origin: Position, boundary: Position, passed: seq<Record>,
                                         cur: Position, b: Batch, m: nat)
    requires Underway(earlier, subscribed, start, origin, boundary, passed, cur) && !Reached(cur, boundary)
    requires Future(earlier, before) && Future(before, after)
    requires ReadStep(before, after, cur.stream, cur.cursor, b) && CutAt(b, boundary, m) && b.resolved != ""
    ensures var origin', next := OriginAfter(origin, cur, b), After(b, boundary, m);
            && m <= |b.rows| && (m == |b.rows| ==> b.rows[..m] == b.rows)
            && (if Overruns(cur, b, boundary)
                then
                  && m < |b.rows|
                  && Landed(after, subscribed, start, origin', boundary, Over, passed + b.rows[..m], next)
                else
                  && (m == |b.rows| && b.rows != [] ==>
                        Underway(after, subscribed, start, origin', boundary, passed + b.rows[..m], next))
                  && (m < |b.rows| || b.rows == [] ==>
                        Landed(after, subscribed, start, origin', boundary, Clean, passed + b.rows[..m], next)))
  {
    hide ReplayOk, OnCourse, Arrived, Captured, ReadStep, CutAt, Punctual, BeganPast;
    if !Overruns(cur, b, boundary) {
      if cur.stream == "" {
        StandsAtItsStart(earlier, start, origin, passed, cur);
      }
      ReadIsPunctual(before, after, origin, boundary, passed, cur, b, m);
    }
    ReadArrives(earlier, before, after, start, origin, boundary, passed, cur, b, m);
    ReadStaysOnCourse(subscribed, earlier, before, after, origin, boundary, cur, b, m);
    EvolvesIsTransitive(earlier, before, after);
    CapturedStays(earlier, after, boundary);
  }

  lemma {:induction false} UnderwayGoesDark(subscribed: History, h: History, start: Position, origin: Position,
                                            boundary: Position, passed: seq<Record>, cur: Position)
    requires Underway(h, subscribed, start, origin, boundary, passed, cur) && !Reached(cur, boundary)
    ensures Landed(h, subscribed, start, origin, boundary, Dark, passed, cur)
  {
  }

  lemma {:induction false} UnderwayStarts(h: History, start: Position, boundary: Position)
    requires ReplayOk(h, start, start, [], start) && Captured(h, boundary)
    ensures Underway(h, h, start, start, boundary, [], start) && Evolves(h, h)
  {
  }

  lemma {:induction false} UnderwayArrives(h: History, subscribed: History, start: Position, origin: Position,
                                           boundary: Position, passed: seq<Record>, cur: Position)
    requires Underway(h, subscribed, start, origin, boundary, passed, cur) && Reached(cur, boundary)
    ensures Landed(h, subscribed, start, origin, boundary, Clean, passed, cur)
  {
    ReachedIsPast(h, cur, boundary);
  }

  lemma {:induction false} LandedStays(h: History, later: History, subscribed: History, start: Position,
                                       origin: Position, boundary: Position, manner: Manner, passed: seq<Record>,
                                       cur: Position)
    requires Landed(h, subscribed, start, origin, boundary, manner, passed, cur) && Future(h, later)
    ensures Landed(later, subscribed, start, origin, boundary, manner, passed, cur)
  {
    hide Between, UpTo, Grounded;
    OnCourseStays(h, later, subscribed, origin, boundary, cur);
    CapturedStays(h, later, boundary);
    if manner.Over? {
      IndexIsStable(h, later, boundary.stream);
      RowsStay(h.incs[IndexIn(h.incs, boundary.stream)], later.incs[IndexIn(h.incs, boundary.stream)], origin.cursor);
    } else {
      ReplayOkStays(h, later, start, origin, passed, cur);
      if manner.Clean? {
        AtOrPastStays(h, later, cur, boundary);
      }
    }
  }

  lemma {:induction false} RowsStay(early: Incarnation, now: Incarnation, cursor: int)
    requires early.id == now.id && early.log <= now.log && RowsFrom(early, cursor) != []
    ensures RowsFrom(now, cursor) != []
  {
    RowsSplit(early, now, cursor);
  }

  lemma {:induction false} AtOrPastStays(h: History, later: History, cur: Position, boundary: Position)
    requires AtOrPast(h, cur, boundary) && Captured(h, boundary) && Future(h, later)
    ensures AtOrPast(later, cur, boundary)
  {
    if boundary.stream != "" {
      NotNewerStays(h, later, boundary.stream, cur.stream);
      IndexIsStable(h, later, boundary.stream);
      var i := IndexIn(h.incs, boundary.stream);
      GapInLogIsStable(h.incs[i], later.incs[i], cur.cursor, boundary.cursor);
    }
  }

  /** Where the loop stands, what it has passed, and whether a read has ended it, and how. */
  datatype Progress = Progress(cur: Position, origin: Position, passed: seq<Record>, manner: Manner, done: bool)

  /** What one read makes of it. */
  ghost function Read(s: Progress, c: Call, boundary: Position): Progress {
    if !c.found then s.(manner := Dark, done := true)
    else
      var m := Cutoff(c.batch, boundary);
      Progress(After(c.batch, boundary, m), OriginAfter(s.origin, s.cur, c.batch), s.passed + c.batch.rows[..m],
               if Overruns(s.cur, c.batch, boundary) then Over else Clean, m < |c.batch.rows| || c.batch.rows == [])
  }

  /** A replay is what its reads make of its start. */
  ghost function ReplayOf(start: Position, boundary: Position, calls: seq<Call>): Progress {
    if calls == [] then Progress(start, start, [], Clean, false)
    else Read(ReplayOf(start, boundary, calls[..|calls| - 1]), calls[|calls| - 1], boundary)
  }

  /** The loop goes no further. */
  ghost predicate Finished(s: Progress, boundary: Position) {
    s.done || Reached(s.cur, boundary)
  }

  /** Reads made one after another, between the two histories, each from where the ones before it left the loop. */
  ghost predicate ReadsOk(first: History, h: History, start: Position, boundary: Position, calls: seq<Call>)
    decreases |calls|
  {
    if calls == [] then Evolves(first, h)
    else
      var s, c := ReplayOf(start, boundary, calls[..|calls| - 1]), calls[|calls| - 1];
      && ReadsOk(first, c.before, start, boundary, calls[..|calls| - 1]) && !Finished(s, boundary)
      && CallFrom(c, s.cur.stream, s.cur.cursor) && Evolves(c.after, h)
  }

  lemma {:induction false} ReadsStay(first: History, h: History, later: History, start: Position, boundary: Position,
                                     calls: seq<Call>)
    requires ReadsOk(first, h, start, boundary, calls) && Evolves(h, later)
    ensures ReadsOk(first, later, start, boundary, calls)
  {
    EvolvesIsTransitive(if calls == [] then first else calls[|calls| - 1].after, h, later);
  }

  lemma {:induction false} ReadsSpan(first: History, h: History, start: Position, boundary: Position, calls: seq<Call>)
    requires ReadsOk(first, h, start, boundary, calls)
    ensures Evolves(first, h)
    decreases |calls|
  {
    if calls != [] {
      var c := calls[|calls| - 1];
      ReadsSpan(first, c.before, start, boundary, calls[..|calls| - 1]);
      hide CallFrom;
      assert Evolves(c.before, c.after) by { CallSpans(c, ReplayOf(start, boundary, calls[..|calls| - 1]).cur); }
      EvolvesIsTransitive(first, c.before, c.after);
      EvolvesIsTransitive(first, c.after, h);
    }
  }

  lemma {:induction false} CallSpans(c: Call, p: Position)
    requires CallFrom(c, p.stream, p.cursor)
    ensures Evolves(c.before, c.after) && Valid(c.before) && Valid(c.after)
  {
  }

  lemma {:induction false} OneMoreRead(first: History, earlier: History, h: History, start: Position,
                                       boundary: Position, calls: seq<Call>, c: Call)
    requires ReadsOk(first, earlier, start, boundary, calls) && Evolves(earlier, c.before) && Evolves(c.after, h)
    requires var s := ReplayOf(start, boundary, calls);
             !Finished(s, boundary) && CallFrom(c, s.cur.stream, s.cur.cursor)
    ensures ReadsOk(first, h, start, boundary, calls + [c])
    ensures ReplayOf(start, boundary, calls + [c]) == Read(ReplayOf(start, boundary, calls), c, boundary)
  {
    assert (calls + [c])[..|calls|] == calls;
    ReadsStay(first, earlier, c.before, start, boundary, calls);
  }

  /** What any such run of reads has established, and how it ended if it did. */
  lemma {:induction false} ReplayIs(first: History, h: History, start: Position, boundary: Position, calls: seq<Call>)
    requires Valid(first) && Valid(h) && ReadsOk(first, h, start, boundary, calls) && Captured(first, boundary)
    requires start.stream == "" || Listed(first, start.stream)
    ensures var s := ReplayOf(start, boundary, calls);
            && (!s.done ==> s.manner == Clean && Underway(h, first, start, s.origin, boundary, s.passed, s.cur))
            && (Finished(s, boundary) ==> Landed(h, first, start, s.origin, boundary, s.manner, s.passed, s.cur))
            && (s.manner == Dark <==> calls != [] && !calls[|calls| - 1].found)
    decreases |calls|
  {
    var s := ReplayOf(start, boundary, calls);
    if calls == [] {
      ReplayStarts(first, start);
      UnderwayStarts(first, start, boundary);
      UnderwayStays(first, h, first, start, start, boundary, [], start);
    } else {
      var front, c := calls[..|calls| - 1], calls[|calls| - 1];
      var p := ReplayOf(start, boundary, front);
      CallSpans(c, p.cur);
      ReplayIs(first, c.before, start, boundary, front);
      hide Underway, Landed, Valid, Evolves, ReadsOk, ReplayOf, CutAt;
      ReadIs(first, c, h, start, boundary, p);
    }
    if Finished(s, boundary) && !s.done {
      UnderwayArrives(h, first, start, s.origin, boundary, s.passed, s.cur);
    }
  }

  lemma {:induction false} ReadIs(first: History, c: Call, h: History, start: Position, boundary: Position, p: Progress)
    requires Underway(c.before, first, start, p.origin, boundary, p.passed, p.cur) && !Finished(p, boundary)
    requires p.manner == Clean
    requires CallFrom(c, p.cur.stream, p.cur.cursor) && Future(c.after, h)
    ensures var s := Read(p, c, boundary);
            && (!s.done ==> s.manner == Clean && Underway(h, first, start, s.origin, boundary, s.passed, s.cur))
            && (s.done ==> Landed(h, first, start, s.origin, boundary, s.manner, s.passed, s.cur))
            && (s.manner == Dark <==> !c.found)
  {
    hide Underway, Landed, CutAt, ReadStep, Cutoff;
    var s := Read(p, c, boundary);
    EvolvesFromItself(c.before);
    hide Valid, Evolves;
    if c.found {
      UnderwayReads(first, c.before, c.before, c.after, start, p.origin, boundary, p.passed, p.cur, c.batch,
                    Cutoff(c.batch, boundary));
      if s.done {
        LandedStays(c.after, h, first, start, s.origin, boundary, s.manner, s.passed, s.cur);
      } else {
        UnderwayStays(c.after, h, first, start, s.origin, boundary, s.passed, s.cur);
      }
    } else {
      EvolvesIsTransitive(c.before, c.after, h);
      UnderwayGoesDark(first, c.before, start, p.origin, boundary, p.passed, p.cur);
      LandedStays(c.before, h, first, start, p.origin, boundary, Dark, p.passed, p.cur);
    }
  }

  /**
   * A replay is cut back exactly when its first read, made without a token from past the
   * boundary, finds a record in the boundary's stream. It is then the only read.
   */
  lemma {:induction false} OverIffFirstReadOverruns(first: History, h: History, start: Position, boundary: Position,
                                                    calls: seq<Call>)
    requires ReadsOk(first, h, start, boundary, calls)
    ensures ReplayOf(start, boundary, calls).manner == Over <==>
            calls != [] && calls[0].found && Overruns(start, calls[0].batch, boundary)
    ensures calls != [] && !ReplayOf(start, boundary, calls).done ==> ReplayOf(start, boundary, calls).cur.stream != ""
    decreases |calls|
  {
    if calls != [] {
      var front, c := calls[..|calls| - 1], calls[|calls| - 1];
      OverIffFirstReadOverruns(first, c.before, start, boundary, front);
      if front == [] {
        assert calls[0] == c;
      } else {
        assert front[0] == calls[0];
        var p := ReplayOf(start, boundary, front);
        hide ReadsOk, ReplayOf, Cutoff;
        OverIsDone(first, c.before, start, boundary, front);
      }
    }
  }

  lemma {:induction false} OverIsDone(first: History, h: History, start: Position, boundary: Position, calls: seq<Call>)
    requires ReadsOk(first, h, start, boundary, calls)
    ensures ReplayOf(start, boundary, calls).manner == Over ==> ReplayOf(start, boundary, calls).done
  {
    if calls != [] {
      var c, p := calls[|calls| - 1], ReplayOf(start, boundary, calls[..|calls| - 1]);
      if c.found && Overruns(p.cur, c.batch, boundary) {
        OverrunIsCutAtOnce(c.before, c.after, p.cur.cursor, c.batch, boundary, Cutoff(c.batch, boundary));
      }
    }
  }

  /** The first read, if there was one, was made from the start at some moment between the two histories. */
  lemma {:induction false} FirstRead(first: History, h: History, start: Position, boundary: Position, calls: seq<Call>)
    requires ReadsOk(first, h, start, boundary, calls) && calls != []
    ensures CallFrom(calls[0], start.stream, start.cursor) && Evolves(first, calls[0].before)
    ensures Evolves(calls[0].after, h)
    decreases |calls|
  {
    var front, c := calls[..|calls| - 1], calls[|calls| - 1];
    if front != [] {
      FirstRead(first, c.before, start, boundary, front);
      CallSpans(c, ReplayOf(start, boundary, front).cur);
      EvolvesIsTransitive(calls[0].after, c.before, c.after);
      EvolvesIsTransitive(calls[0].after, c.after, h);
    } else {
      assert ReplayOf(start, boundary, []) == Progress(start, start, [], Clean, false);
    }
  }

  /** A session that stayed live through a replay did not darken it. */
  lemma {:induction false} SteadyIsNotDark(first: History, h: History, start: Position, boundary: Position,
                                           calls: seq<Call>)
    requires ReadsOk(first, h, start, boundary, calls) && Steady(first, h) && calls != []
    ensures calls[|calls| - 1].found
  {
    var front, c := calls[..|calls| - 1], calls[|calls| - 1];
    CallSpans(c, ReplayOf(start, boundary, front).cur);
    ReadsSpan(first, c.before, start, boundary, front);
    EvolvesIsTransitive(c.before, c.after, h);
    SteadyThroughout(first, c.before, h);
  }

  // ---- the loop ---------------------------------------------------------------------------------

  datatype Ending = More | Done | Cut

  /** The database read of one round, and all that is known of it. */
  method ReadOn(hub: Reader, cur: Position, ghost h0: History, ghost from: Position, ghost feed: Position)
    returns (ok: bool, b: Batch, ghost snapshot: History)
    requires hub.Ok() && Evolves(h0, hub.store.history) && (cur.stream == "" || Listed(hub.store.history, cur.stream))
    requires Advances(hub.store.history, from, Position(hub.streamID, hub.cursor))
    requires from.stream != "" ==> hub.boundary == feed
    modifies hub.store
    ensures hub.Ok() && Future(old(hub.store.history), snapshot) && Future(snapshot, hub.store.history)
    ensures Future(old(hub.store.history), hub.store.history) && Evolves(h0, hub.store.history)
    ensures Advances(hub.store.history, from, Position(hub.streamID, hub.cursor))
    ensures from.stream != "" ==> hub.boundary == feed
    ensures old(hub.store.faults) <= hub.store.faults && (!ok ==> old(hub.store.faults) < hub.store.faults)
    ensures ok && b.resolved == "" ==> b == Batch([], "", cur.cursor) && !snapshot.live
    ensures ok && b.resolved != "" ==> ReadStep(snapshot, hub.store.history, cur.stream, cur.cursor, b)
  {
    hide Between, UnreadFrom, ReadStep, Reader.AtListed, Reader.Delivering;
    ghost var earlier := hub.store.history;
    ok, b, snapshot := hub.store.ReadFromStream(cur.stream, cur.cursor);
    ghost var now := hub.store.history;
    HistoryMoves(h0, earlier, snapshot, now);
    hub.DeliveringStays(earlier, now);
    ListedStays(earlier, snapshot, cur.stream);
    AdvancesStays(earlier, now, from, Position(hub.streamID, hub.cursor));
  }

  lemma {:induction false} HistoryMoves(first: History, earlier: History, snapshot: History, now: History)
    requires Evolves(first, earlier) && Evolves(earlier, snapshot) && Evolves(snapshot, now)
    ensures Evolves(first, now) && Evolves(earlier, now) && Evolves(first, snapshot)
  {
    EvolvesIsTransitive(first, earlier, snapshot);
    EvolvesIsTransitive(first, snapshot, now);
    EvolvesIsTransitive(earlier, snapshot, now);
  }

  /**
   * One read of the replay. It is Done at the boundary or on an empty batch, and Cut when
   * the read fails.
   */
  method ReplayRead(hub: Reader, f: Filter, cur: Position, boundary: Position, ghost first: History,
                    ghost start: Position, ghost calls: seq<Call>)
    returns (ending: Ending, next: Position, written: seq<Sse>, ghost calls': seq<Call>)
    requires hub.Ok() && Replaying(first, hub.store.history, start, boundary, calls, cur)
    modifies hub, hub.store
    ensures hub.Ok() && hub.taken == old(hub.taken) && hub.Forward()
    ensures Evolves(old(hub.store.history), hub.store.history)
    ensures ReadsOk(first, hub.store.history, start, boundary, calls') && next == ReplayOf(start, boundary, calls').cur
    ensures Written(f, ReplayOf(start, boundary, calls').passed) ==
            Written(f, ReplayOf(start, boundary, calls).passed) + written
    ensures ending == Done <==> ReplayOf(start, boundary, calls').done
    ensures ending == More ==> |ReplayOf(start, boundary, calls').passed| > |ReplayOf(start, boundary, calls).passed|
    ensures if ending == Cut then calls' == calls else |calls'| == |calls| + 1 && calls' == calls + [calls'[|calls|]]
    ensures old(hub.store.faults) <= hub.store.faults && (ending == Cut ==> old(hub.store.faults) < hub.store.faults)
  {
    hide Valid, Evolves, Advances, Written, ReadStep, ReadsOk, ReplayOf, CutAt, Cutoff, Captured, Reader.AtListed;
    hide Reader.Delivering;
    next, calls', written, ending := cur, calls, [], Cut;
    ghost var h0, from, feed := hub.store.history, Position(hub.streamID, hub.cursor), hub.boundary;
    ghost var s := ReplayOf(start, boundary, calls);
    hub.Run();
    ghost var earlier := hub.store.history;
    ReadsStay(first, h0, earlier, start, boundary, calls);
    StandsListed(first, earlier, start, boundary, calls);
    var ok, b, snapshot := ReadOn(hub, cur, h0, from, feed);
    ghost var now := hub.store.history;
    ReadsStay(first, earlier, now, start, boundary, calls);
    assert Written(f, s.passed) + [] == Written(f, s.passed);
    if !ok {
      return;
    }
    ghost var c := Call(snapshot, now, b.resolved != "", b);
    EvolvesFromItself(now);
    OneMoreRead(first, earlier, now, start, boundary, calls, c);
    calls' := calls + [c];
    if b.resolved == "" {
      // without a live stream the position stays, and the empty batch ends the replay
      ending, next := Done, Position(cur.stream, b.next);
      return;
    }
    RowsAreConsecutive(b, snapshot, now, cur.stream, cur.cursor);
    var stopped: bool;
    written, stopped := WriteBatch(f, b, boundary);
    WholeBatch(b, boundary, Cutoff(b, boundary));
    WrittenConcat(f, s.passed, b.rows[..Cutoff(b, boundary)]);
    next := Position(b.resolved, if stopped then boundary.cursor else b.next);
    ending := if stopped || |b.rows| == 0 then Done else More;
  }

  /** The state of the loop as it goes round: not finished yet, and standing where its reads have led. */
  ghost predicate Replaying(first: History, h: History, start: Position, boundary: Position, calls: seq<Call>,
                            cur: Position) {
    && Valid(first) && ReadsOk(first, h, start, boundary, calls) && Captured(first, boundary)
    && (start.stream == "" || Listed(first, start.stream))
    && cur == ReplayOf(start, boundary, calls).cur && !Finished(ReplayOf(start, boundary, calls), boundary)
  }

  lemma {:induction false} StandsListed(first: History, h: History, start: Position, boundary: Position,
                                        calls: seq<Call>)
    requires Valid(first) && Valid(h) && ReadsOk(first, h, start, boundary, calls) && Captured(first, boundary)
    requires start.stream == "" || Listed(first, start.stream)
    ensures !ReplayOf(start, boundary, calls).done ==>
              var cur := ReplayOf(start, boundary, calls).cur; cur.stream == "" || Listed(h, cur.stream)
  {
    ReplayIs(first, h, start, boundary, calls);
    hide ReadsOk, ReplayOf, Captured;
    EvolvesFromItself(h);
    var s := ReplayOf(start, boundary, calls);
    if !s.done {
      UnderwayStays(h, h, first, start, s.origin, boundary, s.passed, s.cur);
    }
  }

  /**
   * Replays from `start` up to the boundary, while the hub's reader and other processes carry
   * on. `lifetime` bounds how many reads the connection lives to see.
   */
  method Replay(hub: Reader, f: Filter, start: Position, boundary: Position, lifetime: nat)
    returns (ending: Ending, cur: Position, frames: seq<Sse>, ghost calls: seq<Call>)
    requires hub.Ok() && hub.taken == [] && Captured(hub.store.history, boundary)
    requires start.stream == "" || Listed(hub.store.history, start.stream)
    modifies hub, hub.store
    ensures hub.Ok() && hub.taken == [] && hub.Forward() && Evolves(old(hub.store.history), hub.store.history)
    ensures ReadsOk(old(hub.store.history), hub.store.history, start, boundary, calls)
    ensures cur == ReplayOf(start, boundary, calls).cur && frames == Written(f, ReplayOf(start, boundary, calls).passed)
    ensures ending != More && old(hub.store.faults) <= hub.store.faults
    ensures if ending == Done then Finished(ReplayOf(start, boundary, calls), boundary)
            else !ReplayOf(start, boundary, calls).done &&
                 (old(hub.store.faults) < hub.store.faults || lifetime <= |ReplayOf(start, boundary, calls).passed|)
  {
    hide LoopAt, ReadsOk, ReplayOf, Captured, Valid, Evolves, Advances, Written, Reader.Ok;
    ghost var first, from, feed := hub.store.history, Position(hub.streamID, hub.cursor), hub.boundary;
    ending, cur, frames, calls := Cut, start, [], [];
    ReplayBegins(hub, f, start, boundary);
    for n := 0 to lifetime
      invariant LoopAt(hub, first, from, feed, f, start, boundary, calls, cur, frames) && ending == Cut
      invariant hub.taken == [] && old(hub.store.faults) <= hub.store.faults
      invariant !ReplayOf(start, boundary, calls).done && n <= |ReplayOf(start, boundary, calls).passed|
    {
      if cur.stream == boundary.stream && cur.cursor >= boundary.cursor {
        ending := Done;
        break;
      }
      ending, cur, frames, calls := ReplayRound(hub, f, cur, boundary, frames, first, start, calls, from, feed);
      if ending != More {
        break;
      }
      ending := Cut;
    }
    LoopEnds(hub, first, from, feed, f, start, boundary, calls, cur, frames);
  }

  /** Where the loop is: what its reads have led to, what it has written for them, and where the hub is meanwhile. */
  ghost predicate LoopAt(hub: Reader, first: History, from: Position, feed: Position, f: Filter, start: Position,
                         boundary: Position, calls: seq<Call>, cur: Position, frames: seq<Sse>)
    reads hub, hub.store
  {
    && hub.Ok() && Since(hub, first, from, feed) && Valid(first) && Captured(first, boundary)
    && (start.stream == "" || Listed(first, start.stream))
    && ReadsOk(first, hub.store.history, start, boundary, calls)
    && cur == ReplayOf(start, boundary, calls).cur && frames == Written(f, ReplayOf(start, boundary, calls).passed)
  }

  lemma {:induction false} ReplayBegins(hub: Reader, f: Filter, start: Position, boundary: Position)
    requires hub.Ok() && Captured(hub.store.history, boundary)
    requires start.stream == "" || Listed(hub.store.history, start.stream)
    ensures LoopAt(hub, hub.store.history, Position(hub.streamID, hub.cursor), hub.boundary, f, start, boundary, [],
                   start, [])
    ensures ReplayOf(start, boundary, []) == Progress(start, start, [], Clean, false)
  {
    NothingWritten(f);
    ReaderIsListed(hub);
    EvolvesFromItself(hub.store.history);
  }

  lemma {:induction false} LoopEnds(hub: Reader, first: History, from: Position, feed: Position, f: Filter,
                                    start: Position, boundary: Position, calls: seq<Call>, cur: Position,
                                    frames: seq<Sse>)
    requires LoopAt(hub, first, from, feed, f, start, boundary, calls, cur, frames)
    ensures hub.Ok() && Since(hub, first, from, feed) && ReadsOk(first, hub.store.history, start, boundary, calls)
    ensures cur == ReplayOf(start, boundary, calls).cur && frames == Written(f, ReplayOf(start, boundary, calls).passed)
  {
  }

  /** What the hub has come to since: the history went on and so did its reader. */
  ghost predicate Since(hub: Reader, first: History, from: Position, feed: Position)
    reads hub, hub.store
  {
    && Evolves(first, hub.store.history)
    && Advances(hub.store.history, from, Position(hub.streamID, hub.cursor))
    && (from.stream != "" ==> hub.boundary == feed)
  }

  /** One round of the loop, added to what the rounds before it have written. */
  method ReplayRound(hub: Reader, f: Filter, cur: Position, boundary: Position, frames: seq<Sse>, ghost first: History,
                     ghost start: Position, ghost calls: seq<Call>, ghost from: Position, ghost feed: Position)
    returns (ending: Ending, next: Position, frames': seq<Sse>, ghost calls': seq<Call>)
    requires LoopAt(hub, first, from, feed, f, start, boundary, calls, cur, frames)
    requires !Reached(cur, boundary) && !ReplayOf(start, boundary, calls).done
    modifies hub, hub.store
    ensures LoopAt(hub, first, from, feed, f, start, boundary, calls', next, frames') && hub.taken == old(hub.taken)
    ensures ending == Done <==> ReplayOf(start, boundary, calls').done
    ensures ending == More ==> |ReplayOf(start, boundary, calls').passed| > |ReplayOf(start, boundary, calls).passed|
    ensures old(hub.store.faults) <= hub.store.faults && (ending == Cut ==> old(hub.store.faults) < hub.store.faults)
  {
    hide Valid, Evolves, Advances, Written, ReadsOk, ReplayOf, Captured, Reader.Ok;
    ghost var h, mid := hub.store.history, Position(hub.streamID, hub.cursor);
    FutureOf(hub);
    var written: seq<Sse>;
    ending, next, written, calls' := ReplayRead(hub, f, cur, boundary, first, start, calls);
    FutureOf(hub);
    EvolvesIsTransitive(first, h, hub.store.history);
    AdvancesOn(h, hub.store.history, from, mid, Position(hub.streamID, hub.cursor));
    frames' := frames + written;
  }
}
