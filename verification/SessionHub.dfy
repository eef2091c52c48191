/**
 * The per-session live-tail reader (app/internal/sessionhub/registry.go): one loop reads the
 * log and hands every new record to its subscribers. One subscriber is shown; the reader
 * delivers to each of them independently.
 */
module SessionHub {
  import opened Events
  import opened Incarnations
  import opened EventStore

  /** A reading position: a cursor scoped to a stream. */
  datatype Position = Position(stream: string, cursor: int)

  ghost function UnreadFrom(h: History, p: Position): seq<Record> {
    Unread(h, p.stream, p.cursor)
  }

  ghost predicate Future(h: History, later: History) {
    Valid(later) && Evolves(h, later)
  }

  /** Whatever happens after h, `mid` is exactly what lies between the two positions. */
  ghost predicate Between(h: History, from: Position, mid: seq<Record>, to: Position) {
    forall later :: Future(h, later) ==> UnreadFrom(later, from) == mid + UnreadFrom(later, to)
  }

  lemma {:induction false} BetweenNothing(h: History, p: Position)
    ensures Between(h, p, [], p)
  {
  }

  lemma {:induction false} BetweenStays(h: History, now: History, from: Position, mid: seq<Record>, to: Position)
    requires Between(h, from, mid, to) && Evolves(h, now)
    ensures Between(now, from, mid, to)
  {
    forall later | Future(now, later) ensures UnreadFrom(later, from) == mid + UnreadFrom(later, to) {
      EvolvesIsTransitive(h, now, later);
      assert Future(h, later);
    }
  }

  lemma {:induction false} BetweenJoins(h: History, a: Position, ab: seq<Record>, b: Position, bc: seq<Record>,
                                        c: Position)
    requires Between(h, a, ab, b) && Between(h, b, bc, c)
    ensures Between(h, a, ab + bc, c)
  {
    forall later | Future(h, later) ensures UnreadFrom(later, a) == ab + bc + UnreadFrom(later, c) {
      assert UnreadFrom(later, a) == ab + UnreadFrom(later, b);
      assert UnreadFrom(later, b) == bc + UnreadFrom(later, c);
      ConcatIsAssociative(ab, bc, UnreadFrom(later, c));
    }
  }

  /** Stream a was created no later than stream b. */
  ghost predicate NotNewer(h: History, a: string, b: string) {
    Listed(h, a) && Listed(h, b) && IndexIn(h.incs, a) <= IndexIn(h.incs, b)
  }

  lemma {:induction false} NotNewerStays(h: History, later: History, a: string, b: string)
    requires NotNewer(h, a, b) && Future(h, later)
    ensures NotNewer(later, a, b)
  {
    IndexIsStable(h, later, a);
    IndexIsStable(h, later, b);
  }

  lemma {:induction false} NotNewerChain(h: History, later: History, a: string, b: string, c: string)
    requires Future(h, later) && NotNewer(h, a, b) && (b != "" ==> NotNewer(later, b, c)) && Valid(h)
    ensures NotNewer(later, a, c) && b != ""
  {
    assert h.incs[IndexIn(h.incs, b)].id == b;
    NotNewerStays(h, later, a, b);
  }

  /** From p one can have come to q: to a newer stream, or further in the same one. */
  ghost predicate Advances(h: History, p: Position, q: Position) {
    p.stream != "" ==> NotNewer(h, p.stream, q.stream) && (p.stream == q.stream ==> p.cursor <= q.cursor)
  }

  lemma {:induction false} AdvancesOn(h: History, later: History, p: Position, q: Position, r: Position)
    requires Valid(h) && Future(h, later) && Advances(h, p, q) && Advances(later, q, r)
    ensures Advances(later, p, r) && (p.stream != "" ==> q.stream != "")
  {
    hide Valid, Evolves, NotNewer;
    if p.stream != "" {
      NotNewerChain(h, later, p.stream, q.stream, r.stream);
      NotNewerStays(h, later, p.stream, q.stream);
      if p.stream == r.stream {
        NotNewerBothWays(later, p.stream, q.stream);
      }
    }
  }

  lemma {:induction false} NotNewerBothWays(h: History, a: string, b: string)
    requires NotNewer(h, a, b) && NotNewer(h, b, a)
    ensures a == b
  {
    assert h.incs[IndexIn(h.incs, a)].id == a;
    assert h.incs[IndexIn(h.incs, b)].id == b;
  }

  lemma {:induction false} AdvancesStays(h: History, later: History, p: Position, q: Position)
    requires Advances(h, p, q) && Future(h, later)
    ensures Advances(later, p, q)
  {
    if p.stream != "" {
      NotNewerStays(h, later, p.stream, q.stream);
    }
  }

  /** No record is of a stream newer than the given one. */
  ghost predicate UpTo(h: History, rows: seq<Record>, stream: string) {
    forall k :: 0 <= k < |rows| ==> NotNewer(h, rows[k].stream, stream)
  }

  lemma {:induction false} UpToStays(h: History, later: History, rows: seq<Record>, stream: string)
    requires UpTo(h, rows, stream) && Future(h, later)
    ensures UpTo(later, rows, stream)
  {
    forall k | 0 <= k < |rows| ensures NotNewer(later, rows[k].stream, stream) {
      NotNewerStays(h, later, rows[k].stream, stream);
    }
  }

  lemma {:induction false} UpToNext(h: History, rows: seq<Record>, stream: string, more: seq<Record>, next: string)
    requires UpTo(h, rows, stream) && (rows != [] ==> NotNewer(h, stream, next))
    requires Listed(h, next) && forall k :: 0 <= k < |more| ==> more[k].stream == next
    ensures UpTo(h, rows + more, next)
  {
  }

  lemma {:induction false} ListedStays(h: History, later: History, id: string)
    requires Future(h, later)
    ensures id == "" || Listed(h, id) ==> id == "" || Listed(later, id)
  {
    if Listed(h, id) {
      IndexIsStable(h, later, id);
    }
  }

  /** A batch lies between the position a call was given and the one it returned. */
  lemma {:induction false} BatchIsBetween(before: History, after: History, streamID: string, cursor: int, b: Batch)
    requires Valid(after) && ReadStep(before, after, streamID, cursor, b)
    ensures Between(after, Position(Origin(streamID, b), cursor), b.rows, Position(b.resolved, b.next))
  {
    forall later | Future(after, later)
      ensures UnreadFrom(later, Position(Origin(streamID, b), cursor)) ==
              b.rows + UnreadFrom(later, Position(b.resolved, b.next))
    {
      ReadLosesNothing(before, after, later, streamID, cursor, b);
    }
  }

  /** A record on its way to a subscriber, with the sequence to resume at after it. */
  datatype Frame = Frame(record: Record, resume: int)

  const FRAME_BUFFER := 256

  ghost function FrameOf(r: Record): Frame {
    Frame(r, r.sequence + 1)
  }

  ghost function Records(frames: seq<Frame>): (rs: seq<Record>)
    ensures |rs| == |frames| && forall i :: 0 <= i < |rs| ==> rs[i] == frames[i].record
  {
    seq(|frames|, i requires 0 <= i < |frames| => frames[i].record)
  }

  ghost predicate Framed(queue: seq<Frame>) {
    forall i :: 0 <= i < |queue| ==> queue[i] == FrameOf(queue[i].record)
  }

  /** A position in one of the logs, no further than its end. */
  ghost predicate InLog(h: History, p: Position) {
    Listed(h, p.stream) && p.cursor <= |h.incs[IndexIn(h.incs, p.stream)].log| + 1
  }

  lemma {:induction false} InLogStays(h: History, later: History, p: Position)
    requires InLog(h, p) && Future(h, later)
    ensures InLog(later, p)
  {
    IndexIsStable(h, later, p.stream);
    assert h.incs[IndexIn(h.incs, p.stream)].log <= later.incs[IndexIn(h.incs, p.stream)].log;
  }

  /**
   * The subscription contract: what was handed over so far is, in order and once each, the
   * records from the boundary on; while the channel is open nothing is missing up to the
   * reader's own position.
   */
  ghost predicate Subscribed(h: History, boundary: Position, taken: seq<Record>, queue: seq<Frame>, dead: bool,
                             at: Position) {
    && InLog(h, boundary) && at.stream != ""
    && (!dead ==> Between(h, boundary, taken + Records(queue), at))
    && taken + Records(queue) <= UnreadFrom(h, boundary)
    && NotNewer(h, boundary.stream, at.stream) && UpTo(h, taken + Records(queue), at.stream)
    && Framed(queue)
  }

  /** A subscription begins with nothing handed over. */
  lemma {:induction false} FreshlySubscribed(h: History, at: Position)
    requires Valid(h) && InLog(h, at)
    ensures Subscribed(h, at, [], [], false, at)
  {
    BetweenNothing(h, at);
    assert h.incs[IndexIn(h.incs, at.stream)].id == at.stream;
    assert [] + Records([]) == [];
  }

  class Reader {
    const store: Store
    var streamID: string
    var cursor: int
    // the one subscriber: its channel, and whether an overflow closed it
    var queue: seq<Frame>
    var dead: bool
    ghost var boundary: Position
    ghost var taken: seq<Record>

    ghost predicate AtListed(h: History)
      reads this
    {
      if streamID == "" then cursor == 0 else InLog(h, Position(streamID, cursor))
    }

    /** Until the reader has found a stream it has nothing to hand over, and the boundary is still open. */
    ghost predicate Delivering(h: History)
      reads this
    {
      if streamID == "" then boundary == Position("", 0) && taken == [] && queue == [] && !dead
      else Subscribed(h, boundary, taken, queue, dead, Position(streamID, cursor))
    }

    ghost predicate Ok()
      reads this, store
    {
      Valid(store.history) && AtListed(store.history) && Delivering(store.history)
    }

    /** The reader never goes back, and once it has a stream the boundary stands. */
    twostate predicate Forward()
      reads this, store
    {
      && Advances(store.history, old(Position(streamID, cursor)), Position(streamID, cursor))
      && (old(streamID) != "" ==> boundary == old(boundary))
    }

    /** What others do to the log leaves the subscription contract standing. */
    lemma {:induction false} DeliveringStays(h: History, now: History)
      requires Valid(h) && Future(h, now) && AtListed(h) && Delivering(h)
      ensures AtListed(now) && Delivering(now)
    {
      if streamID != "" {
        InLogStays(h, now, Position(streamID, cursor));
        InLogStays(h, now, boundary);
        UnreadGrows(h, now, boundary.stream, boundary.cursor);
        NotNewerStays(h, now, boundary.stream, streamID);
        UpToStays(h, now, taken + Records(queue), streamID);
        if !dead {
          BetweenStays(h, now, boundary, taken + Records(queue), Position(streamID, cursor));
        }
      }
    }

    /** acquire: a new reader starts at the current end of the log. */
    constructor (s: Store)
      requires Valid(s.history)
      modifies s
      ensures old(s.faults) <= s.faults
      ensures store == s && Ok() && Evolves(old(s.history), s.history)
    {
      store := s;
      streamID, cursor, queue, dead := "", 0, [], false;
      boundary, taken := Position("", 0), [];
      new;
      hide Subscribed, Between;
      var ok, b, snapshot := store.ReadFromStream("", 0);
      EvolvesIsTransitive(old(s.history), snapshot, s.history);
      if ok {
        streamID, cursor := b.resolved, b.next;
        if b.resolved != "" {
          NextIsInTheLog(snapshot, store.history, "", 0, b);
          boundary := Position(streamID, cursor);
          FreshlySubscribed(store.history, boundary);
        }
      }
    }

    /** SubscribeFrames: the boundary is the reader's own position, captured under its lock. */
    method Subscribe()
      requires Ok()
      modifies this
      ensures Ok() && store.history == old(store.history)
      ensures boundary == Position(streamID, cursor) && taken == [] && queue == [] && !dead
      ensures streamID == old(streamID) && cursor == old(cursor)
    {
      queue, dead := [], false;
      boundary, taken := Position(streamID, cursor), [];
      if streamID != "" {
        FreshlySubscribed(store.history, boundary);
      }
    }

    /**
     * One pass of run: read on from the reader's position and broadcast what came. Unless a
     * database read fails or the session has no live stream, the reader moves past exactly
     * the batch it handed over.
     */
    method Poll() returns (ghost found: bool, ghost b: Batch, ghost snapshot: History)
      requires Ok()
      modifies this, store
      ensures Ok() && Evolves(old(store.history), snapshot) && Evolves(snapshot, store.history)
      ensures taken == old(taken) && old(store.faults) <= store.faults
      ensures boundary == if found && old(streamID) == "" then Position(b.resolved, 0) else old(boundary)
      ensures !found ==> old(store.faults) < store.faults || !snapshot.live
      ensures !found ==> streamID == old(streamID) && cursor == old(cursor) && queue == old(queue) && dead == old(dead)
      ensures found ==> ReadStep(snapshot, store.history, old(streamID), old(cursor), b)
      ensures found ==> streamID == b.resolved && cursor == b.next
      ensures Forward()
      ensures found && !dead ==> queue == old(queue) + Frames(b.rows)
      ensures found && dead && !old(dead) ==> |old(queue)| + |b.rows| > FRAME_BUFFER
    {
      var ok, b', s' := store.ReadFromStream(streamID, cursor);
      found, b, snapshot := false, b', s';
      ghost var h := store.history;
      EvolvesIsTransitive(old(store.history), snapshot, h);
      DeliveringStays(old(store.history), h);
      if streamID != "" {
        ListedStays(old(store.history), snapshot, streamID);
      }
      hide Valid, Evolves, AtListed, Delivering, ReadStep, NotNewer, Between, Consecutive;
      if !ok || b'.resolved == "" {
        StaysPut();
        return;
      }
      found := true;
      ReadOn(snapshot, h, b');
      Broadcast(b', Position(Origin(streamID, b), cursor));
    }

    lemma StaysPut()
      requires Ok()
      ensures Advances(store.history, Position(streamID, cursor), Position(streamID, cursor))
    {
    }

    /** What Broadcast needs to know of a batch read from the reader's position. */
    lemma ReadOn(snapshot: History, h: History, b: Batch)
      requires Valid(h) && AtListed(h)
      requires ReadStep(snapshot, h, streamID, cursor, b)
      ensures Consecutive(b) && Between(h, Position(Origin(streamID, b), cursor), b.rows, Position(b.resolved, b.next))
      ensures NotNewer(h, Origin(streamID, b), b.resolved) && (Origin(streamID, b) == b.resolved ==> cursor <= b.next)
      ensures InLog(h, Position(b.resolved, b.next)) && InLog(h, Position(Origin(streamID, b), cursor))
    {
      NextIsInTheLog(snapshot, h, streamID, cursor, b);
      BatchIsBetween(snapshot, h, streamID, cursor, b);
      RowsAreConsecutive(b, snapshot, h, streamID, cursor);
    }

    /** Lets the reader's own goroutine run for a while. */
    method Run()
      requires Ok()
      modifies this, store
      ensures Ok() && Evolves(old(store.history), store.history) && Forward()
      ensures taken == old(taken) && old(store.faults) <= store.faults
    {
      EvolvesFromItself(store.history);
      StaysPut();
      hide Valid, Evolves, AtListed, Delivering, NotNewer;
      var passes: nat := *;
      while passes > 0
        invariant Ok() && Evolves(old(store.history), store.history) && Forward()
        invariant taken == old(taken) && old(store.faults) <= store.faults
      {
        ghost var before, at := store.history, Position(streamID, cursor);
        ghost var _, _, snapshot := Poll();
        EvolvesIsTransitive(before, snapshot, store.history);
        EvolvesIsTransitive(old(store.history), before, store.history);
        AdvancesOn(before, store.history, old(Position(streamID, cursor)), at, Position(streamID, cursor));
        passes := passes - 1;
      }
    }

    /** The subscriber's receive: the next frame of its channel, if one has come. */
    method Receive() returns (received: bool, f: Frame)
      requires Ok()
      modifies this, store
      ensures Ok() && Evolves(old(store.history), store.history) && Forward()
      ensures old(store.faults) <= store.faults
      ensures received ==> taken == old(taken) + [f.record]
      ensures received ==> f == FrameOf(f.record) && boundary.stream != ""
      ensures !received ==> taken == old(taken) && queue == []
    {
      f := Frame(Record("", 0, Event("", 0, "", "", "", "", map[])), 0);
      hide Valid, Evolves, NotNewer, AtListed, Subscribed;
      Run();
      received := queue != [];
      if received {
        f := Take();
      }
    }

    /** The oldest queued frame, off the channel. */
    method Take() returns (f: Frame)
      requires Ok() && queue != []
      modifies this`queue, this`taken
      ensures Ok() && taken == old(taken) + [f.record]
      ensures f == FrameOf(f.record) && boundary.stream != ""
    {
      hide Valid, Subscribed;
      f := queue[0];
      SubscribedIsNamed(store.history, boundary, taken, queue, dead, Position(streamID, cursor));
      TakeFirst(store.history, boundary, taken, queue, dead, Position(streamID, cursor));
      queue := queue[1..];
      taken := taken + [f.record];
    }

    /** Delivers a batch to the subscriber and records the watermark, as one step. */
    method Broadcast(b: Batch, ghost from: Position)
      requires Ok() && b.resolved != "" && Consecutive(b)
      requires from == Position(if streamID == "" then b.resolved else streamID, cursor)
      requires Between(store.history, from, b.rows, Position(b.resolved, b.next))
      requires NotNewer(store.history, from.stream, b.resolved)
      requires InLog(store.history, Position(b.resolved, b.next)) && InLog(store.history, from)
      modifies this
      ensures Ok() && taken == old(taken)
      ensures boundary == if old(streamID) == "" then Position(b.resolved, 0) else old(boundary)
      ensures streamID == b.resolved && cursor == b.next
      ensures !dead ==> queue == old(queue) + Frames(b.rows)
      ensures dead && !old(dead) ==> |old(queue)| + |b.rows| > FRAME_BUFFER
    {
      hide Valid, Subscribed, InLog, Between, NotNewer;
      if streamID == "" {
        boundary := from;
        FreshlySubscribed(store.history, from);
      }
      ghost var before := queue;
      ghost var m := HandOver(b);
      streamID, cursor := b.resolved, b.next;
      DeliveredMore(store.history, boundary, taken, before, from, b, m, old(dead), dead);
    }

    /** Sends a batch frame by frame; the first m get through. */
    method HandOver(b: Batch) returns (ghost m: nat)
      requires Consecutive(b)
      modifies this
      ensures m <= |b.rows| && queue == old(queue) + Frames(b.rows)[..m]
      ensures (old(dead) ==> dead && m == 0) && (!dead ==> m == |b.rows|)
      ensures !dead ==> queue == old(queue) + Frames(b.rows)
      ensures dead && !old(dead) ==> |old(queue)| + |b.rows| > FRAME_BUFFER
      ensures boundary == old(boundary) && taken == old(taken)
      ensures streamID == old(streamID) && cursor == old(cursor)
    {
      ghost var fs := Frames(b.rows);
      m := 0;
      for i := 0 to |b.rows|
        invariant boundary == old(boundary) && taken == old(taken)
        invariant streamID == old(streamID) && cursor == old(cursor)
        invariant m <= i && (!dead ==> m == i) && (old(dead) ==> dead && m == 0)
        invariant queue == old(queue) + fs[..m]
        invariant dead && !old(dead) ==> |old(queue)| + i > FRAME_BUFFER
      {
        var resume := b.next;
        if i + 1 < |b.rows| {
          resume := b.rows[i + 1].sequence;
        }
        assert Frame(b.rows[i], resume) == fs[i];
        Deliver(Frame(b.rows[i], resume));
        if !dead {
          assert fs[..i + 1] == fs[..i] + [fs[i]];
          m := i + 1;
        }
      }
    }

    /** One send: a full channel is closed instead, and takes nothing any more. */
    method Deliver(f: Frame)
      modifies this
      ensures queue == if old(dead) || |old(queue)| >= FRAME_BUFFER then old(queue) else old(queue) + [f]
      ensures dead == (old(dead) || |old(queue)| >= FRAME_BUFFER)
      ensures boundary == old(boundary) && taken == old(taken)
      ensures streamID == old(streamID) && cursor == old(cursor)
    {
      if dead {
        return;
      }
      if |queue| < FRAME_BUFFER {
        queue := queue + [f];
      } else {
        dead := true;
      }
    }
  }

  lemma {:induction false} NextIsInTheLog(before: History, after: History, streamID: string, cursor: int, b: Batch)
    requires Valid(after) && ReadStep(before, after, streamID, cursor, b)
    requires cursor <= |after.incs[IndexIn(after.incs, Origin(streamID, b))].log| + 1
    ensures InLog(after, Position(b.resolved, b.next)) && InLog(after, Position(Origin(streamID, b), cursor))
  {
  }

  ghost function Frames(rows: seq<Record>): (fs: seq<Frame>)
    ensures |fs| == |rows| && forall i :: 0 <= i < |fs| ==> fs[i] == FrameOf(rows[i])
  {
    seq(|rows|, i requires 0 <= i < |rows| => FrameOf(rows[i]))
  }

  /** Queueing the first m frames of a batch keeps what was handed over a prefix of what is due. */
  lemma {:induction false} DeliveredMore(h: History, boundary: Position, taken: seq<Record>, before: seq<Frame>,
                      from: Position, b: Batch, m: nat, wasDead: bool, dead: bool)
    requires Valid(h) && m <= |b.rows| && (wasDead ==> m == 0)
    requires Subscribed(h, boundary, taken, before, wasDead, from)
    requires Between(h, from, b.rows, Position(b.resolved, b.next)) && b.resolved != ""
    requires Consecutive(b) && NotNewer(h, from.stream, b.resolved)
    requires dead || (!wasDead && m == |b.rows|)
    ensures Subscribed(h, boundary, taken, before + Frames(b.rows)[..m], dead, Position(b.resolved, b.next))
  {
    QueueMore(taken, before, b.rows, m);
    UpToNext(h, taken + Records(before), from.stream, b.rows[..m], b.resolved);
    if wasDead {
      assert b.rows[..m] == [];
    } else {
      var to := Position(b.resolved, b.next);
      BetweenJoins(h, boundary, taken + Records(before), from, b.rows, to);
      PrefixOfBetween(h, boundary, taken + Records(before) + b.rows, to);
      assert taken + Records(before) + b.rows[..m] <= taken + Records(before) + b.rows;
      assert m == |b.rows| ==> b.rows[..m] == b.rows;
    }
  }

  lemma {:induction false} PrefixOfBetween(h: History, from: Position, mid: seq<Record>, to: Position)
    requires Valid(h) && Between(h, from, mid, to)
    ensures mid <= UnreadFrom(h, from)
  {
    assert Future(h, h);
  }

  lemma {:induction false} QueueMore(taken: seq<Record>, queue: seq<Frame>, rows: seq<Record>, m: nat)
    requires m <= |rows| && Framed(queue)
    ensures taken + Records(queue + Frames(rows)[..m]) == taken + Records(queue) + rows[..m]
    ensures Framed(queue + Frames(rows)[..m])
  {
    assert Records(queue + Frames(rows)[..m]) == Records(queue) + rows[..m];
  }

  lemma {:induction false} SubscribedIsNamed(h: History, boundary: Position, taken: seq<Record>, queue: seq<Frame>,
                                             dead: bool, at: Position)
    requires Valid(h) && Subscribed(h, boundary, taken, queue, dead, at)
    ensures boundary.stream != ""
  {
    assert h.incs[IndexIn(h.incs, boundary.stream)].id == boundary.stream;
  }

  lemma {:induction false} TakeFirst(h: History, boundary: Position, taken: seq<Record>, queue: seq<Frame>, dead: bool,
                                     at: Position)
    requires queue != [] && Subscribed(h, boundary, taken, queue, dead, at)
    ensures Subscribed(h, boundary, taken + [queue[0].record], queue[1..], dead, at)
    ensures queue[0] == FrameOf(queue[0].record)
  {
    hide Between, UnreadFrom, UpTo, NotNewer, InLog;
    assert Records(queue) == [queue[0].record] + Records(queue[1..]);
    assert taken + Records(queue) == taken + [queue[0].record] + Records(queue[1..]);
  }

  /** Each row is of the resolved stream and one sequence after the row before it; `next` is one after the last. */
  ghost predicate Consecutive(b: Batch) {
    && (forall i :: 0 <= i < |b.rows| ==> b.rows[i].stream == b.resolved)
    && (forall i :: 0 <= i < |b.rows| - 1 ==> b.rows[i + 1].sequence == b.rows[i].sequence + 1)
    && (b.rows != [] ==> b.next == b.rows[|b.rows| - 1].sequence + 1)
  }

  lemma {:induction false} RowsAreConsecutive(b: Batch, before: History, after: History, streamID: string, cursor: int)
    requires ReadStep(before, after, streamID, cursor, b)
    ensures Consecutive(b)
  {
  }
}
