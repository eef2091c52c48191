/**
 * The frames of the SSE endpoint and its live loop (app/internal/eventbus/server.go): the
 * hub's feed is forwarded, without what the replay before it already wrote.
 */
module LiveLoop {
  import opened Wrappers
  import opened Events
  import opened Incarnations
  import opened EventStore
  import opened SessionHub
  import ResumeToken
  import Decimal

  // ---- frames -------------------------------------------------------------------------------

  /** One SSE frame: the `id:` line and the event of the `data:` line. */
  datatype Sse = Sse(id: string, data: Event)

  /** The frame written for a record: its id resumes just past the record. */
  ghost function SseOf(r: Record): Sse {
    Sse(ResumeToken.Encode(r.stream, r.sequence + 1), r.event)
  }

  ghost function SseFrames(rows: seq<Record>): (fs: seq<Sse>)
    ensures |fs| == |rows| && forall i :: 0 <= i < |fs| ==> fs[i] == SseOf(rows[i])
  {
    seq(|rows|, i requires 0 <= i < |rows| => SseOf(rows[i]))
  }

  lemma {:induction false} IdOfRecord(h: History, r: Record)
    requires Valid(h) && Listed(h, r.stream) && 1 <= r.sequence < MAX_SEQUENCE
    ensures ResumeToken.Parse(SseOf(r).id) == Some((r.stream, r.sequence + 1))
    ensures ':' !in r.stream && r.stream != "" && Decimal.IsInt64(r.sequence + 1)
  {
    hide ResumeToken.Parse, ResumeToken.Encode;
    assert h.incs[IndexIn(h.incs, r.stream)].id == r.stream;
    ResumeToken.RoundTrip(r.stream, r.sequence + 1);
  }

  /** Two records never share a frame. */
  lemma {:induction false} FramesDiffer(h: History, r: Record, s: Record)
    requires Valid(h) && Listed(h, r.stream) && Listed(h, s.stream)
    requires 1 <= r.sequence < MAX_SEQUENCE && 1 <= s.sequence < MAX_SEQUENCE
    requires r.stream != s.stream || r.sequence != s.sequence
    ensures SseOf(r) != SseOf(s)
  {
    hide ResumeToken.Encode, ResumeToken.Parse;
    IdOfRecord(h, r);
    IdOfRecord(h, s);
  }

  /** What a connection owes for the records it has passed: the matching ones, in order. */
  ghost function Written(f: Filter, passed: seq<Record>): seq<Sse> {
    SseFrames(Select(f, passed))
  }

  lemma {:induction false} WrittenConcat(f: Filter, a: seq<Record>, b: seq<Record>)
    ensures Written(f, a + b) == Written(f, a) + Written(f, b)
  {
    SelectConcat(f, a, b);
  }

  lemma {:induction false} WrittenSnoc(f: Filter, passed: seq<Record>, r: Record)
    ensures Written(f, passed + [r]) == if Matches(f, r.event) then Written(f, passed) + [SseOf(r)]
            else Written(f, passed)
  {
    WrittenConcat(f, passed, [r]);
    assert Select(f, [r]) == if Matches(f, r.event) then [r] else [];
  }

  lemma {:induction false} NothingWritten(f: Filter)
    ensures Written(f, []) == []
  {
  }

  /** The record behind the m-th selected one, and how far into the rows it lies. */
  lemma {:induction false} SelectedAt(f: Filter, rows: seq<Record>, m: nat) returns (k: nat)
    requires m < |Select(f, rows)|
    ensures k < |rows| && rows[k] == Select(f, rows)[m]
    ensures Select(f, rows[..k + 1]) == Select(f, rows)[..m + 1]
  {
    SelectFirst(f, rows);
    hide Select, Matches;
    if Matches(f, rows[0].event) && m == 0 {
      k := 0;
      assert rows[..1] == [rows[0]];
    } else {
      var skipped := if Matches(f, rows[0].event) then 1 else 0;
      var j := SelectedAt(f, rows[1..], m - skipped);
      k := j + 1;
      assert rows[..k + 1] == [rows[0]] + rows[1..][..j + 1];
      SelectConcat(f, [rows[0]], rows[1..][..j + 1]);
    }
  }

  lemma {:induction false} SelectFirst(f: Filter, rows: seq<Record>)
    ensures Select(f, []) == []
    ensures rows != [] ==>
              && Select(f, [rows[0]]) == (if Matches(f, rows[0].event) then [rows[0]] else [])
              && Select(f, rows) == Select(f, [rows[0]]) + Select(f, rows[1..])
  {
    if rows != [] {
      assert rows == [rows[0]] + rows[1..];
      SelectConcat(f, [rows[0]], rows[1..]);
      assert [rows[0]][1..] == [];
    }
  }

  lemma {:induction false} FramesOfPrefix(f: Filter, passed: seq<Record>, k: nat, m: nat)
    requires k < |passed| && m < |Select(f, passed)| && Select(f, passed[..k + 1]) == Select(f, passed)[..m + 1]
    ensures Written(f, passed[..k + 1]) == Written(f, passed)[..m + 1]
  {
    hide Select, SseOf;
  }

  lemma {:induction false} FramesOfSelected(f: Filter, passed: seq<Record>)
    ensures |Written(f, passed)| == |Select(f, passed)|
    ensures forall m :: 0 <= m < |Written(f, passed)| ==> Written(f, passed)[m] == SseOf(Select(f, passed)[m])
  {
    hide Select, SseOf;
  }

  // ---- the loop -------------------------------------------------------------------------------

  /** Whether the loop, standing at `cur`, skips a frame. */
  ghost predicate Skips(cur: Position, r: Record) {
    r.stream == cur.stream && r.sequence < cur.cursor
  }

  /** Where the loop stands: just past the last frame it wrote. */
  ghost function Standing(f: Filter, p: Position, fed: seq<Record>): Position {
    if fed == [] then p
    else
      var cur, r := Standing(f, p, fed[..|fed| - 1]), fed[|fed| - 1];
      if !Skips(cur, r) && Matches(f, r.event) then Position(r.stream, r.sequence + 1) else cur
  }

  /** The records fed to the loop that it did not skip. */
  ghost function Forwarded(f: Filter, p: Position, fed: seq<Record>): seq<Record> {
    if fed == [] then []
    else
      var front, r := fed[..|fed| - 1], fed[|fed| - 1];
      if Skips(Standing(f, p, front), r) then Forwarded(f, p, front) else Forwarded(f, p, front) + [r]
  }

  lemma {:induction false} LoopNext(f: Filter, p: Position, fed: seq<Record>, r: Record)
    ensures var cur := Standing(f, p, fed);
            var write := !Skips(cur, r) && Matches(f, r.event);
            && Standing(f, p, fed + [r]) == (if write then Position(r.stream, r.sequence + 1) else cur)
            && Written(f, Forwarded(f, p, fed + [r])) ==
                 (if write then Written(f, Forwarded(f, p, fed)) + [SseOf(r)] else Written(f, Forwarded(f, p, fed)))
  {
    ForwardedNext(f, p, fed, r);
    WrittenSnoc(f, Forwarded(f, p, fed), r);
  }

  lemma {:induction false} LoopStarts(f: Filter, p: Position)
    ensures Standing(f, p, []) == p && Forwarded(f, p, []) == [] && Written(f, []) == []
  {
  }

  /**
   * The live loop: it forwards the hub's frames until the connection ends; `lifetime` bounds
   * how many it lives to receive.
   */
  method Live(hub: Reader, f: Filter, stream: string, seqno: int, lifetime: nat) returns (frames: seq<Sse>)
    requires hub.Ok() && hub.taken == []
    modifies hub, hub.store
    ensures hub.Ok() && Evolves(old(hub.store.history), hub.store.history) && hub.Forward()
    ensures frames == Written(f, Forwarded(f, Position(stream, seqno), hub.taken))
    ensures old(hub.store.faults) <= hub.store.faults
    ensures hub.queue == [] || |hub.taken| == lifetime
  {
    frames := [];
    var cur := Position(stream, seqno);
    ghost var p := cur;
    EvolvesFromItself(hub.store.history);
    ReaderIsListed(hub);
    LoopStarts(f, p);
    hide Advances, Valid, Evolves, Written, Standing, Forwarded, Reader.Ok;
    for n := 0 to lifetime
      invariant hub.Ok() && Evolves(old(hub.store.history), hub.store.history) && hub.Forward()
      invariant cur == Standing(f, p, hub.taken) && frames == Written(f, Forwarded(f, p, hub.taken))
      invariant |hub.taken| == n && old(hub.store.faults) <= hub.store.faults
    {
      ghost var before, at := hub.store.history, Position(hub.streamID, hub.cursor);
      var received, written;
      FutureOf(hub);
      received, written, cur := LiveFrame(hub, f, cur, p);
      FutureOf(hub);
      EvolvesIsTransitive(old(hub.store.history), before, hub.store.history);
      AdvancesOn(before, hub.store.history, old(Position(hub.streamID, hub.cursor)), at,
                 Position(hub.streamID, hub.cursor));
      if !received {
        return;
      }
      frames := frames + written;
    }
  }

  lemma {:induction false} ReaderIsListed(hub: Reader)
    requires hub.Ok()
    ensures Advances(hub.store.history, Position(hub.streamID, hub.cursor), Position(hub.streamID, hub.cursor))
  {
  }

  lemma {:induction false} FutureOf(hub: Reader)
    requires hub.Ok()
    ensures Valid(hub.store.history)
  {
  }

  /** One turn of the loop: the frame received, if any, is written or skipped. */
  method LiveFrame(hub: Reader, f: Filter, cur: Position, ghost p: Position)
    returns (received: bool, written: seq<Sse>, next: Position)
    requires hub.Ok() && cur == Standing(f, p, hub.taken)
    modifies hub, hub.store
    ensures hub.Ok() && Evolves(old(hub.store.history), hub.store.history) && hub.Forward()
    ensures |hub.taken| == |old(hub.taken)| + if received then 1 else 0
    ensures old(hub.store.faults) <= hub.store.faults
    ensures !received ==> hub.taken == old(hub.taken) && hub.queue == [] && written == []
    ensures next == Standing(f, p, hub.taken)
    ensures Written(f, Forwarded(f, p, hub.taken)) == Written(f, Forwarded(f, p, old(hub.taken))) + written
  {
    hide Evolves, Valid, Written, Standing, Forwarded, Matches, ResumeToken.Encode, NotNewer, Reader.AtListed;
    hide Reader.Delivering;
    written, next := [], cur;
    var fr;
    received, fr := hub.Receive();
    if !received {
      return;
    }
    LoopNext(f, p, old(hub.taken), fr.record);
    if fr.record.stream == cur.stream && fr.record.sequence < cur.cursor {
      return;
    }
    var chosen := Match(f, fr.record.event);
    if !chosen {
      return;
    }
    written := [Sse(ResumeToken.Encode(fr.record.stream, fr.resume), fr.record.event)];
    next := Position(fr.record.stream, fr.resume);
  }

  // ---- the skip test --------------------------------------------------------------------------

  /** The records that are not before p within p's own stream. */
  ghost function Kept(p: Position, rows: seq<Record>): seq<Record> {
    if rows == [] then []
    else (if Skips(p, rows[0]) then [] else [rows[0]]) + Kept(p, rows[1..])
  }

  lemma {:induction false} KeptConcat(p: Position, a: seq<Record>, b: seq<Record>)
    ensures Kept(p, a + b) == Kept(p, a) + Kept(p, b)
  {
    if a == [] {
      assert a + b == b;
    } else {
      assert (a + b)[1..] == a[1..] + b;
      KeptConcat(p, a[1..], b);
    }
  }

  lemma {:induction false} KeptSnoc(p: Position, rows: seq<Record>, r: Record)
    ensures Kept(p, rows + [r]) == if Skips(p, r) then Kept(p, rows) else Kept(p, rows) + [r]
  {
    KeptConcat(p, rows, [r]);
    assert Kept(p, [r]) == if Skips(p, r) then [] else [r];
  }

  lemma {:induction false} KeptWhole(p: Position, rows: seq<Record>)
    requires forall k :: 0 <= k < |rows| ==> !Skips(p, rows[k])
    ensures Kept(p, rows) == rows
  {
    if rows != [] {
      KeptWhole(p, rows[1..]);
    }
  }

  lemma {:induction false} KeptOfItsStream(p: Position, inc: Incarnation, cursor: int)
    requires inc.id == p.stream && cursor <= p.cursor
    ensures Kept(p, RowsFrom(inc, cursor)) == RowsFrom(inc, p.cursor)
    decreases |RowsFrom(inc, cursor)|
  {
    var rows := RowsFrom(inc, cursor);
    if rows != [] {
      var next := rows[0].sequence + 1;
      assert rows[1..] == RowsFrom(inc, next);
      if rows[0].sequence < p.cursor {
        KeptOfItsStream(p, inc, next);
      } else {
        assert rows == RowsFrom(inc, p.cursor);
        KeptWhole(p, rows);
      }
    }
  }

  lemma {:induction false} AllRowsAreTheirs(incs: seq<Incarnation>, id: string)
    requires forall k :: 0 <= k < |incs| ==> incs[k].id != id
    ensures forall k :: 0 <= k < |AllRows(incs)| ==> AllRows(incs)[k].stream != id
  {
    if incs != [] {
      AllRowsAreTheirs(incs[1..], id);
    }
  }

  /** From inside p's own log, before p: what is not skipped is exactly what is unread at p. */
  lemma {:induction false} KeptOfTheFeed(h: History, boundary: Position, p: Position)
    requires Valid(h) && Listed(h, boundary.stream) && p.stream == boundary.stream && boundary.cursor <= p.cursor
    ensures Kept(p, UnreadFrom(h, boundary)) == UnreadFrom(h, p)
  {
    hide RowsFrom, Kept, AllRows;
    var i := IndexIn(h.incs, p.stream);
    LaterIdsDiffer(h, i, h.incs[i + 1..]);
    KeptOfALog(p, h.incs[i], boundary.cursor, h.incs[i + 1..]);
  }

  lemma {:induction false} LaterIdsDiffer(h: History, i: nat, rest: seq<Incarnation>)
    requires Valid(h) && i < |h.incs| && rest == h.incs[i + 1..]
    ensures forall k :: 0 <= k < |rest| ==> rest[k].id != h.incs[i].id
  {
    assert forall k :: 0 <= k < |rest| ==> rest[k] == h.incs[i + 1 + k];
  }

  lemma {:induction false} KeptOfALog(p: Position, inc: Incarnation, cursor: int, rest: seq<Incarnation>)
    requires inc.id == p.stream && cursor <= p.cursor
    requires forall k :: 0 <= k < |rest| ==> rest[k].id != p.stream
    ensures Kept(p, RowsFrom(inc, cursor) + AllRows(rest)) == RowsFrom(inc, p.cursor) + AllRows(rest)
  {
    hide RowsFrom, Kept;
    KeptOfItsStream(p, inc, cursor);
    AllRowsAreTheirs(rest, p.stream);
    KeptWhole(p, AllRows(rest));
    KeptConcat(p, RowsFrom(inc, cursor), AllRows(rest));
  }

  /** Nothing fed is of a stream older than p's; a position without a stream has nothing before it. */
  ghost predicate NoneBefore(h: History, p: Position, rows: seq<Record>) {
    p.stream != "" ==> forall k :: 0 <= k < |rows| ==> NotNewer(h, p.stream, rows[k].stream)
  }

  /** Unread records ascend by stream, and by sequence within one. */
  ghost predicate Ordered(h: History, rows: seq<Record>) {
    && (forall k :: 0 <= k < |rows| ==> Listed(h, rows[k].stream) && rows[k].stream != "")
    && forall k, l :: 0 <= k < l < |rows| ==>
         && NotNewer(h, rows[k].stream, rows[l].stream)
         && (rows[k].stream == rows[l].stream ==> rows[k].sequence < rows[l].sequence)
  }

  lemma {:induction false} UnreadOrdered(h: History, p: Position, fed: seq<Record>)
    requires Valid(h) && fed <= UnreadFrom(h, p)
    ensures Ordered(h, fed)
  {
    hide UnreadFrom;
    var u := UnreadFrom(h, p);
    forall k | 0 <= k < |fed| ensures Listed(h, fed[k].stream) && fed[k].stream != "" {
      assert fed[k] == u[k];
      UnreadIsNamed(h, p, k);
    }
    forall k, l | 0 <= k < l < |fed|
      ensures NotNewer(h, fed[k].stream, fed[l].stream)
      ensures fed[k].stream == fed[l].stream ==> fed[k].sequence < fed[l].sequence
    {
      assert fed[k] == u[k] && fed[l] == u[l];
      UnreadInOrder(h, p, k, l);
    }
  }

  lemma {:induction false} UnreadIsNamed(h: History, p: Position, k: nat)
    requires Valid(h) && k < |UnreadFrom(h, p)|
    ensures var r := UnreadFrom(h, p)[k];
            && Listed(h, r.stream) && r.stream != "" && IndexIn(h.incs, p.stream) <= IndexIn(h.incs, r.stream)
            && (r.stream == p.stream ==> p.cursor <= r.sequence)
  {
    RestAfterRecord(h, p.stream, p.cursor, k);
    var r := UnreadFrom(h, p)[k];
    assert h.incs[IndexIn(h.incs, r.stream)].id == r.stream;
  }

  lemma {:induction false} PassedIsListed(h: History, origin: Position, passed: seq<Record>, k: nat)
    requires Valid(h) && passed <= UnreadFrom(h, origin) && k < |passed|
    ensures Listed(h, passed[k].stream) && 1 <= passed[k].sequence < MAX_SEQUENCE
  {
    assert passed[k] == UnreadFrom(h, origin)[k];
    RestAfterRecord(h, origin.stream, origin.cursor, k);
  }

  lemma {:induction false} UnreadInOrder(h: History, p: Position, k: nat, l: nat)
    requires Valid(h) && k < l < |UnreadFrom(h, p)|
    ensures var u := UnreadFrom(h, p);
            && NotNewer(h, u[k].stream, u[l].stream)
            && (u[k].stream == u[l].stream ==> u[k].sequence < u[l].sequence)
  {
    UnreadIsOrdered(h, p.stream, p.cursor, k, l);
  }

  /**
   * Comparing with the place just past the last frame written skips what comparing with p
   * skips, when that frame is of no stream older than p's.
   */
  lemma {:induction false} SkipAgrees(h: History, p: Position, fed: seq<Record>, q: nat, r: Record)
    requires Valid(h) && Ordered(h, fed + [r])
    requires q < |fed| && !Skips(p, fed[q]) && NoneBefore(h, p, [fed[q]])
    ensures Skips(Position(fed[q].stream, fed[q].sequence + 1), r) == Skips(p, r)
  {
    var all := fed + [r];
    assert all[q] == fed[q] && all[|fed|] == r;
    assert NotNewer(h, fed[q].stream, r.stream);
    if p.stream != "" && r.stream == p.stream {
      assert NotNewer(h, p.stream, [fed[q]][0].stream);
      assert h.incs[IndexIn(h.incs, p.stream)].id == p.stream;
      assert h.incs[IndexIn(h.incs, fed[q].stream)].id == fed[q].stream;
      assert fed[q].stream == p.stream;
    }
  }

  /** The q-th frame fed is one the loop writes, and of no stream older than p's. */
  ghost predicate IsWritten(h: History, f: Filter, p: Position, fed: seq<Record>, q: nat)
    requires q < |fed|
  {
    !Skips(p, fed[q]) && Matches(f, fed[q].event) && NoneBefore(h, p, [fed[q]])
  }

  /** The loop stands at p, or just past such a frame. */
  ghost predicate StandsPast(h: History, f: Filter, p: Position, fed: seq<Record>, cur: Position) {
    cur == p
    || exists q :: 0 <= q < |fed| && IsWritten(h, f, p, fed, q) && cur == Position(fed[q].stream, fed[q].sequence + 1)
  }

  /**
   * If what the filter selects of the feed reaches back to no older stream, the moving
   * comparison of the loop is the comparison with p, frame by frame.
   */
  lemma {:induction false} ForwardedIsKept(h: History, f: Filter, p: Position, fed: seq<Record>)
    requires Valid(h) && Ordered(h, fed) && NoneBefore(h, p, Select(f, fed))
    ensures Forwarded(f, p, fed) == Kept(p, fed) && StandsPast(h, f, p, fed, Standing(f, p, fed))
  {
    hide Kept, Skips, Ordered, NoneBefore, StandsPast, Matches, Select, Valid, Standing, Forwarded;
    if fed != [] {
      var front, r := fed[..|fed| - 1], fed[|fed| - 1];
      assert fed == front + [r];
      FrontIsToo(h, f, p, front, r);
      ForwardedIsKept(h, f, p, front);
      KeptSnoc(p, front, r);
      ForwardedNext(f, p, front, r);
      StandingAgrees(h, f, p, front, r, Standing(f, p, front));
    } else {
      StandsAtFirst(h, f, p);
    }
  }

  lemma {:induction false} ForwardedNext(f: Filter, p: Position, fed: seq<Record>, r: Record)
    ensures var cur := Standing(f, p, fed);
            && Forwarded(f, p, fed + [r]) ==
               (if Skips(cur, r) then Forwarded(f, p, fed) else Forwarded(f, p, fed) + [r])
            && Standing(f, p, fed + [r]) ==
               if !Skips(cur, r) && Matches(f, r.event) then Position(r.stream, r.sequence + 1) else cur
  {
    assert (fed + [r])[..|fed|] == fed;
  }

  lemma {:induction false} StandsAtFirst(h: History, f: Filter, p: Position)
    ensures Forwarded(f, p, []) == Kept(p, []) && StandsPast(h, f, p, [], Standing(f, p, []))
  {
  }

  lemma {:induction false} FrontIsToo(h: History, f: Filter, p: Position, front: seq<Record>, r: Record)
    requires Ordered(h, front + [r]) && NoneBefore(h, p, Select(f, front + [r]))
    ensures Ordered(h, front) && NoneBefore(h, p, Select(f, front)) && (Matches(f, r.event) ==> NoneBefore(h, p, [r]))
  {
    var all := Select(f, front + [r]);
    SelectConcat(f, front, [r]);
    assert Select(f, [r]) == if Matches(f, r.event) then [r] else [];
    hide Select;
    assert forall k :: 0 <= k < |Select(f, front)| ==> all[k] == Select(f, front)[k];
    assert Matches(f, r.event) ==> all[|Select(f, front)|] == r;
    assert forall k :: 0 <= k < |front| ==> (front + [r])[k] == front[k];
  }

  lemma {:induction false} StandingAgrees(h: History, f: Filter, p: Position, fed: seq<Record>, r: Record,
                                          cur: Position)
    requires Valid(h) && Ordered(h, fed + [r]) && StandsPast(h, f, p, fed, cur)
    ensures Skips(cur, r) == Skips(p, r) && StandsPast(h, f, p, fed + [r], cur)
    ensures !Skips(cur, r) && Matches(f, r.event) && NoneBefore(h, p, [r]) ==>
              StandsPast(h, f, p, fed + [r], Position(r.stream, r.sequence + 1))
  {
    hide Matches, NoneBefore;
    var all := fed + [r];
    assert all[|fed|] == r;
    if cur != p {
      var q :| 0 <= q < |fed| && IsWritten(h, f, p, fed, q) && cur == Position(fed[q].stream, fed[q].sequence + 1);
      SkipAgrees(h, p, fed, q, r);
      assert IsWritten(h, f, p, all, q);
    }
    if !Skips(cur, r) && Matches(f, r.event) && NoneBefore(h, p, [r]) {
      assert IsWritten(h, f, p, all, |fed|);
    }
  }

  /** Until a frame is written the loop stands at p, so the first one written is the first that p lets through. */
  lemma {:induction false} FirstWritten(f: Filter, p: Position, fed: seq<Record>)
    ensures Select(f, Forwarded(f, p, fed)) == [] <==> Select(f, Kept(p, fed)) == []
    ensures Select(f, Kept(p, fed)) != [] ==> Select(f, Forwarded(f, p, fed))[0] == Select(f, Kept(p, fed))[0]
    ensures Select(f, Kept(p, fed)) == [] ==> Standing(f, p, fed) == p
  {
    if fed != [] {
      var front, r := fed[..|fed| - 1], fed[|fed| - 1];
      assert fed == front + [r];
      FirstWritten(f, p, front);
      KeptSnoc(p, front, r);
      SelectPushed(f, Kept(p, front), r);
      SelectPushed(f, Forwarded(f, p, front), r);
      hide Select, Kept, Matches, Skips;
    }
  }

  lemma {:induction false} SelectPushed(f: Filter, rows: seq<Record>, r: Record)
    ensures Select(f, rows + [r]) == if Matches(f, r.event) then Select(f, rows) + [r] else Select(f, rows)
  {
    SelectConcat(f, rows, [r]);
    assert Select(f, [r]) == if Matches(f, r.event) then [r] else [];
  }

  lemma {:induction false} ForwardedUpTo(h: History, f: Filter, p: Position, fed: seq<Record>, stream: string)
    requires UpTo(h, fed, stream)
    ensures UpTo(h, Forwarded(f, p, fed), stream)
  {
    if fed != [] {
      ForwardedUpTo(h, f, p, fed[..|fed| - 1], stream);
    }
  }
}
