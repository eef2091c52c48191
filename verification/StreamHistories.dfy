/**
 * Three histories in which a connection of the SSE endpoint loses or repeats events: each
 * states the reads of the replay, what the hub was read, and the frames that come of it.
 */
module StreamHistories {
  import opened Wrappers
  import opened Events
  import opened Incarnations
  import opened EventStore
  import opened SessionHub
  import opened LiveLoop
  import opened ReplayLoop
  import opened StreamExactness
  import ResumeToken

  const EVERYTHING := Filter([], [], "", 0)

  lemma {:induction false} EverythingIsSelected(rows: seq<Record>)
    ensures Select(EVERYTHING, rows) == rows && Written(EVERYTHING, rows) == SseFrames(rows)
  {
    if rows != [] {
      EverythingIsSelected(rows[1..]);
    }
  }

  lemma {:induction false} OneForwarded(f: Filter, p: Position, r: Record)
    requires !Skips(p, r)
    ensures Forwarded(f, p, [r]) == [r]
  {
    assert [r][..0] == [];
  }

  lemma {:induction false} TwoForwarded(f: Filter, p: Position, r: Record, s: Record)
    requires !Skips(p, r) && !Skips(p, s) && !Skips(Position(r.stream, r.sequence + 1), s)
    ensures Forwarded(f, p, [r, s]) == [r, s]
  {
    OneForwarded(f, p, r);
    assert [r, s][..1] == [r] && [r][..0] == [];
    assert Standing(f, p, []) == p;
  }

  lemma {:induction false} OneRead(start: Position, boundary: Position, call: Call)
    ensures ReplayOf(start, boundary, [call]) == Read(Progress(start, start, [], Clean, false), call, boundary)
  {
    assert [call][..0] == [];
    assert ReplayOf(start, boundary, []) == Progress(start, start, [], Clean, false);
  }

  // ---- one log of three events ------------------------------------------------------------------

  ghost function Nth(n: nat, ev: Event): Record {
    Record("s", n, ev)
  }

  function Log(ev: Event): Incarnation {
    Incarnation("s", [ev, ev, ev])
  }

  lemma {:induction false} LogRows(ev: Event)
    ensures RowsFrom(Log(ev), 1) == [Nth(1, ev), Nth(2, ev), Nth(3, ev)] && RowsFrom(Log(ev), 4) == []
    ensures RowsFrom(Log(ev), 2) == [Nth(2, ev), Nth(3, ev)] && RowsFrom(Log(ev), 3) == [Nth(3, ev)]
  {
  }

  /** The session live, destroyed, and back as a new incarnation. */
  function Live(ev: Event): History {
    History([Log(ev)], true)
  }

  ghost function Destroyed(ev: Event): History {
    History([Log(ev)], false)
  }

  ghost function Back(ev: Event): History {
    History([Log(ev), Incarnation("t", [])], true)
  }

  lemma {:induction false} LogMoves(ev: Event)
    ensures Valid(Live(ev)) && Valid(Destroyed(ev)) && Valid(Back(ev))
    ensures Evolves(Live(ev), Live(ev)) && Evolves(Live(ev), Destroyed(ev)) && Evolves(Destroyed(ev), Destroyed(ev))
    ensures Evolves(Destroyed(ev), Back(ev)) && Evolves(Back(ev), Back(ev))
  {
    assert "s"[0] != "t"[0];
    assert Back(ev).incs[..1] == [Log(ev)] && Destroyed(ev).incs[..1] == [Log(ev)];
  }

  lemma {:induction false} LogPlaces(ev: Event)
    ensures IndexIn(Live(ev).incs, "s") == IndexIn(Back(ev).incs, "s") == IndexIn(Destroyed(ev).incs, "s") == 0
    ensures forall n :: UnreadFrom(Live(ev), Position("s", n)) == RowsFrom(Log(ev), n)
    ensures forall n :: UnreadFrom(Back(ev), Position("s", n)) == RowsFrom(Log(ev), n)
  {
    hide RowsFrom;
    var l, b := Live(ev).incs, Back(ev).incs;
    assert l[1..] == [] && b[1..] == [b[1]] && b[1..][1..] == [];
    assert AllRows(b[1..]) == [] by { EmptyLogsAreReadThrough(b[1..]); }
    forall n ensures UnreadFrom(Live(ev), Position("s", n)) == RowsFrom(Log(ev), n) {
      assert UnreadAt(l, 0, n) == RowsFrom(Log(ev), n);
    }
    forall n ensures UnreadFrom(Back(ev), Position("s", n)) == RowsFrom(Log(ev), n) {
      assert UnreadAt(b, 0, n) == RowsFrom(Log(ev), n);
    }
  }

  lemma {:induction false} HubReads(h: History, p: Position, rows: seq<Record>, end: Position)
    requires Valid(h) && Evolves(h, h) && InLog(h, p) && end == Position(p.stream, Past(rows, p.cursor)) && rows != []
    requires rows == RowsFrom(h.incs[IndexIn(h.incs, p.stream)], p.cursor) && UnreadFrom(h, p) == rows
    ensures ReadStep(h, h, p.stream, p.cursor, Batch(rows, p.stream, end.cursor))
    ensures Subscribed(h, p, rows, [], false, end)
  {
    Named(h, p.stream);
    assert ReadStep(h, h, p.stream, p.cursor, Batch(rows, p.stream, end.cursor));
    BatchIsBetween(h, h, p.stream, p.cursor, Batch(rows, p.stream, end.cursor));
    RowsAreConsecutive(Batch(rows, p.stream, end.cursor), h, h, p.stream, p.cursor);
    hide Between, UnreadFrom, RowsFrom;
    assert rows + Records([]) == rows;
  }

  lemma {:induction false} OneFrame(r: Record)
    ensures Written(EVERYTHING, [r]) == [SseOf(r)]
  {
    EverythingIsSelected([r]);
    hide SseOf, Select;
  }

  lemma {:induction false} TwoFrames(r: Record, s: Record)
    ensures Written(EVERYTHING, [r, s]) == [SseOf(r), SseOf(s)]
  {
    EverythingIsSelected([r, s]);
    hide SseOf, Select;
  }

  /** A feed forwarded whole, after what the replay wrote. */
  lemma {:induction false} FedWhole(h: History, c: Connection, before: seq<Sse>, fed: seq<Record>, after: seq<Sse>,
                                    hubAt: Position)
    requires Subscribed(h, c.feed, fed, [], false, hubAt) && Forwarded(EVERYTHING, c.joined, fed) == fed
    requires Written(EVERYTHING, c.replayed) == before && Written(EVERYTHING, fed) == after
    ensures Fed(h, EVERYTHING, c, before + after, fed, [], false, hubAt)
  {
    hide Subscribed, Forwarded, Written;
  }

  // ---- a session destroyed and brought back during a replay ---------------------------------------

  /** A replay from the first event whose only read meets the destroyed session, with the hub at the third. */
  ghost function DarkConnection(ev: Event): Connection {
    Connection(Live(ev), Destroyed(ev), Back(ev), Position("s", 1), Position("s", 3), Position("s", 3),
               [Call(Destroyed(ev), Destroyed(ev), false, Batch([], "", 1))],
               true, Position("s", 1), Dark, [], Position("s", 1))
  }

  lemma {:induction false} DarkHappened(ev: Event)
    ensures Happened(DarkConnection(ev)) && CallFrom(DarkConnection(ev).calls[0], "s", 1)
  {
    var c := DarkConnection(ev);
    LogMoves(ev);
    LogPlaces(ev);
    OneRead(c.start, c.boundary, c.calls[0]);
    assert c.calls[..0] == [];
    hide UnreadFrom, RowsFrom, Valid, Evolves, IndexIn;
    assert ReplayOf(c.start, c.boundary, []) == Progress(c.start, c.start, [], Clean, false);
    assert ReadsOk(c.subscribed, Destroyed(ev), c.start, c.boundary, []);
    assert ReadsOk(c.subscribed, c.landed, c.start, c.boundary, c.calls);
  }

  lemma {:induction false} DarkFeed(ev: Event)
    ensures ReadStep(Back(ev), Back(ev), "s", 3, Batch([Nth(3, ev)], "s", 4))
    ensures Subscribed(Back(ev), Position("s", 3), [Nth(3, ev)], [], false, Position("s", 4))
  {
    LogMoves(ev);
    LogPlaces(ev);
    LogRows(ev);
    hide UnreadFrom, RowsFrom, Valid, Evolves, Subscribed, ReadStep, AllRows;
    HubReads(Back(ev), Position("s", 3), [Nth(3, ev)], Position("s", 4));
  }

  lemma {:induction false} DarkFed(ev: Event)
    ensures Fed(Back(ev), EVERYTHING, DarkConnection(ev), [SseOf(Nth(3, ev))], [Nth(3, ev)], [], false,
                Position("s", 4))
  {
    hide Forwarded, Written, Subscribed, SseOf, Fed, Back, Live, Destroyed;
    var c, third := DarkConnection(ev), Nth(3, ev);
    DarkFeed(ev);
    OneForwarded(EVERYTHING, c.joined, third);
    OneFrame(third);
    NothingWritten(EVERYTHING);
    FedWhole(Back(ev), c, [], [third], [SseOf(third)], Position("s", 4));
    assert [] + [SseOf(third)] == [SseOf(third)];
  }

  lemma {:induction false} DarkUnread(ev: Event)
    ensures var h, c := Back(ev), DarkConnection(ev);
            && UnreadFrom(h, c.origin) == [Nth(1, ev), Nth(2, ev), Nth(3, ev)] && UnreadFrom(h, Position("s", 4)) == []
            && Harm(h, c) == [Nth(1, ev), Nth(2, ev)]
  {
    LogPlaces(ev);
    LogRows(ev);
    hide RowsFrom, UnreadFrom, AllRows;
    assert RowsFrom(Log(ev), 1)[..2] == [Nth(1, ev), Nth(2, ev)];
  }

  lemma {:induction false} ThirdResumes(ev: Event)
    ensures ResumeToken.Parse(SseOf(Nth(3, ev)).id) == Some(("s", 4)) && SseOf(Nth(1, ev)) != SseOf(Nth(3, ev))
    ensures SseOf(Nth(1, ev)) != SseOf(Nth(2, ev)) && SseOf(Nth(2, ev)) != SseOf(Nth(3, ev))
  {
    LogMoves(ev);
    LogPlaces(ev);
    hide ResumeToken.Parse, ResumeToken.Encode, SseOf, UnreadFrom, Valid;
    IdOfRecord(Live(ev), Nth(3, ev));
    FramesDiffer(Live(ev), Nth(1, ev), Nth(3, ev));
    FramesDiffer(Live(ev), Nth(1, ev), Nth(2, ev));
    FramesDiffer(Live(ev), Nth(2, ev), Nth(3, ev));
  }

  /**
   * A session of three events is destroyed and comes back while a replay of it is under way: the
   * connection writes the third event, with an id past the first two, which it never wrote.
   */
  lemma {:induction false} DarkReplayLosesEvents(ev: Event)
    ensures var h, c, frames := Back(ev), DarkConnection(ev), [SseOf(Nth(3, ev))];
            && Happened(c) && CallFrom(c.calls[0], "s", 1) && !c.calls[0].found && !c.calls[0].before.live
            && ReadStep(h, h, "s", 3, Batch([Nth(3, ev)], "s", 4))
            && Fed(h, EVERYTHING, c, frames, [Nth(3, ev)], [], false, Position("s", 4))
            && Harm(h, c) == [Nth(1, ev), Nth(2, ev)] && UnreadFrom(h, c.origin) == [Nth(1, ev), Nth(2, ev), Nth(3, ev)]
            && !Exact(h, EVERYTHING, c.origin, frames)
            && ResumeToken.Parse(frames[0].id) == Some(("s", 4)) && UnreadFrom(h, Position("s", 4)) == []
  {
    DarkHappened(ev);
    DarkFeed(ev);
    DarkFed(ev);
    DarkUnread(ev);
    ThirdResumes(ev);
    EverythingIsSelected([Nth(1, ev), Nth(2, ev), Nth(3, ev)]);
    hide Happened, Fed, Harm, UnreadFrom, Written, Select, Matches, SseOf, ResumeToken.Parse, Back, ReadStep, CallFrom;
  }

  // ---- a start past the boundary --------------------------------------------------------------------

  /** A connection from the third event on, with the hub at the second. */
  ghost function LateConnection(ev: Event): Connection {
    Connection(Live(ev), Live(ev), Live(ev), Position("", 3), Position("s", 2), Position("s", 2),
               [Call(Live(ev), Live(ev), true, Batch([Nth(3, ev)], "s", 4))],
               true, Position("s", 3), Over, [], Position("s", 2))
  }

  lemma {:induction false} LateReplay(ev: Event)
    ensures var c := LateConnection(ev);
            && ReplayOf(c.start, c.boundary, []) == Progress(c.start, c.start, [], Clean, false)
            && ReplayOf(c.start, c.boundary, c.calls) == Progress(Position("s", 2), Position("s", 3), [], Over, true)
  {
    hide Live, Cutoff;
    var c := LateConnection(ev);
    OneRead(c.start, c.boundary, c.calls[0]);
    CutIs(c.calls[0].batch, c.boundary, 0);
    assert c.calls[..0] == [] && [] + c.calls[0].batch.rows[..0] == [];
  }

  lemma {:induction false} LateRead(ev: Event)
    ensures CallFrom(LateConnection(ev).calls[0], "", 3)
  {
    LogMoves(ev);
    LogPlaces(ev);
    LogRows(ev);
    hide UnreadFrom, RowsFrom;
  }

  lemma {:induction false} LateHappened(ev: Event)
    ensures Happened(LateConnection(ev)) && CallFrom(LateConnection(ev).calls[0], "", 3)
  {
    hide UnreadFrom, RowsFrom, Valid, Evolves, IndexIn, CallFrom, Cutoff, ReplayOf;
    var c := LateConnection(ev);
    LogMoves(ev);
    LogPlaces(ev);
    LateRead(ev);
    LateReplay(ev);
    assert c.calls[..0] == [];
    assert ReadsOk(c.subscribed, Live(ev), c.start, c.boundary, []);
    assert ReadsOk(c.subscribed, c.landed, c.start, c.boundary, c.calls);
  }

  lemma {:induction false} LateFeed(ev: Event)
    ensures ReadStep(Live(ev), Live(ev), "s", 2, Batch([Nth(2, ev), Nth(3, ev)], "s", 4))
    ensures Subscribed(Live(ev), Position("s", 2), [Nth(2, ev), Nth(3, ev)], [], false, Position("s", 4))
  {
    LogMoves(ev);
    LogPlaces(ev);
    LogRows(ev);
    hide UnreadFrom, RowsFrom, Valid, Evolves, Subscribed, ReadStep, AllRows;
    HubReads(Live(ev), Position("s", 2), [Nth(2, ev), Nth(3, ev)], Position("s", 4));
  }

  lemma {:induction false} LateFed(ev: Event)
    ensures Fed(Live(ev), EVERYTHING, LateConnection(ev), [SseOf(Nth(2, ev)), SseOf(Nth(3, ev))],
                [Nth(2, ev), Nth(3, ev)], [], false,
                Position("s", 4))
  {
    hide Forwarded, Written, Subscribed, SseOf, Fed, Live;
    var c, second, third := LateConnection(ev), Nth(2, ev), Nth(3, ev);
    LateFeed(ev);
    TwoForwarded(EVERYTHING, c.joined, second, third);
    TwoFrames(second, third);
    NothingWritten(EVERYTHING);
    FedWhole(Live(ev), c, [], [second, third], [SseOf(second), SseOf(third)], Position("s", 4));
    assert [] + [SseOf(second), SseOf(third)] == [SseOf(second), SseOf(third)];
  }

  lemma {:induction false} LateUnread(ev: Event)
    ensures UnreadFrom(Live(ev), Position("s", 3)) == [Nth(3, ev)] && Harm(Live(ev), LateConnection(ev)) == [Nth(2, ev)]
  {
    LogPlaces(ev);
    LogRows(ev);
    hide RowsFrom, UnreadFrom, AllRows;
    assert RowsFrom(Log(ev), 2)[..1] == [Nth(2, ev)];
  }

  /**
   * A hub one read behind: a connection that starts at the third event, past the hub's
   * boundary, finds it at once, is cut back, and is fed the second event too.
   */
  lemma {:induction false} StartPastTheBoundaryRepeats(ev: Event)
    ensures var h, c, frames := Live(ev), LateConnection(ev), [SseOf(Nth(2, ev)), SseOf(Nth(3, ev))];
            && Happened(c) && CallFrom(c.calls[0], "", 3) && Overruns(c.start, c.calls[0].batch, c.boundary)
            && ReadStep(h, h, "s", 2, Batch([Nth(2, ev), Nth(3, ev)], "s", 4))
            && Fed(h, EVERYTHING, c, frames, [Nth(2, ev), Nth(3, ev)], [], false, Position("s", 4))
            && Harm(h, c) == [Nth(2, ev)] && UnreadFrom(h, c.origin) == [Nth(3, ev)]
            && !Exact(h, EVERYTHING, c.origin, frames)
  {
    LateHappened(ev);
    LateFeed(ev);
    LateFed(ev);
    LateUnread(ev);
    EverythingIsSelected([Nth(3, ev)]);
    hide Happened, Fed, Harm, UnreadFrom, Written, Select, Matches, SseOf, Live, ReadStep, CallFrom;
  }

  // ---- a session rotated twice during a replay --------------------------------------------------------

  /** Four incarnations, of which the first and the third hold one event each. */
  ghost function FourLogs(ev: Event): History {
    History([Incarnation("a", [ev]), Incarnation("b", []), Incarnation("c", [ev]), Incarnation("d", [])], true)
  }

  lemma {:induction false} FourLogsHold(ev: Event)
    ensures var h := FourLogs(ev);
            && Valid(h) && IndexIn(h.incs, "a") == 0 && IndexIn(h.incs, "b") == 1
            && IndexIn(h.incs, "c") == 2 && IndexIn(h.incs, "d") == 3
            && RowsFrom(h.incs[0], 1) == [Record("a", 1, ev)] && RowsFrom(h.incs[0], 2) == []
            && RowsFrom(h.incs[2], 0) == [Record("c", 1, ev)] && RowsFrom(h.incs[2], 2) == []
            && (forall n :: RowsFrom(h.incs[1], n) == [] && RowsFrom(h.incs[3], n) == [])
  {
    var h := FourLogs(ev);
    assert h.incs[0].id == "a" && h.incs[1].id == "b" && h.incs[2].id == "c" && h.incs[3].id == "d";
    assert "a"[0] != "b"[0] && "a"[0] != "c"[0] && "a"[0] != "d"[0] && "b"[0] != "c"[0] && "b"[0] != "d"[0]
           && "c"[0] != "d"[0];
    assert Valid(h);
    IndexIs(h, 0);
    IndexIs(h, 1);
    IndexIs(h, 2);
    IndexIs(h, 3);
  }

  lemma {:induction false} FourLogsRows(ev: Event)
    ensures var incs := FourLogs(ev).incs;
            && AllRows(incs[1..]) == [Record("c", 1, ev)] && AllRows(incs[2..]) == [Record("c", 1, ev)]
            && AllRows(incs[4..]) == []
            && GapAt(incs, 1, 0, 3, 0) == [Record("c", 1, ev)]
  {
    FourLogsHold(ev);
    var incs := FourLogs(ev).incs;
    hide RowsFrom, FourLogs;
    assert |incs| == 4 by { FourLogsAre(ev); }
    assert incs[1..][0] == incs[1] && incs[1..][1..] == incs[2..];
    assert incs[2..][0] == incs[2] && incs[2..][1..] == incs[3..];
    assert incs[3..][0] == incs[3] && incs[3..][1..] == incs[4..] == [];
    assert AllRows(incs[4..]) == [];
    assert AllRows(incs[3..]) == [];
    assert AllRows(incs[2..]) == [Record("c", 1, ev)];
    assert GapAt(incs, 3, 0, 3, 0) == [];
    assert GapAt(incs, 2, 0, 3, 0) == [Record("c", 1, ev)];
  }

  lemma {:induction false} FourLogsAre(ev: Event)
    ensures |FourLogs(ev).incs| == 4
  {
  }

  lemma {:induction false} FourLogsUnread(ev: Event)
    ensures var h := FourLogs(ev);
            && UnreadFrom(h, Position("a", 1)) == [Record("a", 1, ev), Record("c", 1, ev)]
            && UnreadFrom(h, Position("b", 0)) == [Record("c", 1, ev)]
            && UnreadFrom(h, Position("d", 0)) == []
            && Gap(h, Position("b", 0), Position("d", 0)) == [Record("c", 1, ev)]
  {
    FourLogsHold(ev);
    FourLogsRows(ev);
    FourLogsAre(ev);
    hide RowsFrom, AllRows, GapAt, FourLogs;
  }

  lemma {:induction false} FourLogsRead(ev: Event)
    ensures var h := FourLogs(ev);
            && ReadStep(h, h, "a", 1, Batch([Record("a", 1, ev)], "a", 2))
            && ReadStep(h, h, "a", 2, Batch([Record("c", 1, ev)], "c", 2))
            && ReadStep(h, h, "c", 2, Batch([], "d", 0)) && ReadStep(h, h, "b", 0, Batch([Record("c", 1, ev)], "c", 2))
  {
    FourLogsHold(ev);
    hide RowsFrom;
  }

  lemma {:induction false} FourLogsSubscribed(ev: Event)
    ensures var h := FourLogs(ev);
            var subscribed := History(h.incs[..2], true);
            && Valid(subscribed) && Evolves(subscribed, h) && Evolves(h, h)
            && Listed(subscribed, "a") && InLog(subscribed, Position("b", 0))
  {
    FourLogsHold(ev);
    var subscribed := History(FourLogs(ev).incs[..2], true);
    assert Valid(subscribed);
    IndexIs(subscribed, 0);
    IndexIs(subscribed, 1);
  }

  /** A replay of them that began when there were only two, with the hub at the second. */
  ghost function RotatedConnection(ev: Event): Connection {
    var h, first, second := FourLogs(ev), Record("a", 1, ev), Record("c", 1, ev);
    Connection(History(h.incs[..2], true), h, h, Position("a", 1), Position("b", 0), Position("b", 0),
               [Call(h, h, true, Batch([first], "a", 2)), Call(h, h, true, Batch([second], "c", 2)),
                Call(h, h, true, Batch([], "d", 0))], true, Position("a", 1), Clean, [first, second], Position("d", 0))
  }

  lemma {:induction false} RotatedReplay(ev: Event)
    ensures var c, first, second := RotatedConnection(ev), Record("a", 1, ev), Record("c", 1, ev);
            && ReplayOf(c.start, c.boundary, []) == Progress(c.start, c.start, [], Clean, false)
            && ReplayOf(c.start, c.boundary, c.calls[..1]) == Progress(Position("a", 2), c.start, [first], Clean, false)
            && ReplayOf(c.start, c.boundary, c.calls[..2]) ==
               Progress(Position("c", 2), c.start, [first, second], Clean, false)
            && ReplayOf(c.start, c.boundary, c.calls) ==
               Progress(Position("d", 0), c.start, [first, second], Clean, true)
  {
    var c, first, second := RotatedConnection(ev), Record("a", 1, ev), Record("c", 1, ev);
    assert "a" != "b" && "c" != "b" && "d" != "b";
    CutIs(c.calls[0].batch, c.boundary, 1);
    CutIs(c.calls[1].batch, c.boundary, 1);
    CutIs(c.calls[2].batch, c.boundary, 0);
    hide FourLogs, Cutoff;
    OneRead(c.start, c.boundary, c.calls[0]);
    assert c.calls[..1] == [c.calls[0]] && c.calls[..2][..1] == c.calls[..1] && c.calls[..2][1] == c.calls[1];
    assert [] + [first] == [first] && [first][..1] == [first] && [second][..1] == [second]
           && [first] + [second] == [first, second];
    assert [first, second] + [] == [first, second];
  }

  lemma {:induction false} RotatedHappened(ev: Event)
    ensures Happened(RotatedConnection(ev))
  {
    var h, c := FourLogs(ev), RotatedConnection(ev);
    FourLogsHold(ev);
    FourLogsRead(ev);
    FourLogsSubscribed(ev);
    RotatedReplay(ev);
    assert "a" != "b" && "c" != "b" && "d" != "b";
    hide FourLogs, RowsFrom, Valid, Evolves, ReplayOf, ReadStep, IndexIn;
    assert c.calls[..2][..1] == c.calls[..1] && c.calls[..1][..0] == [];
    assert ReadsOk(c.subscribed, h, c.start, c.boundary, []);
    assert ReadsOk(c.subscribed, h, c.start, c.boundary, c.calls[..1]);
    assert ReadsOk(c.subscribed, h, c.start, c.boundary, c.calls[..2]);
    assert ReadsOk(c.subscribed, h, c.start, c.boundary, c.calls);
  }

  lemma {:induction false} RotatedFeed(ev: Event)
    ensures Subscribed(FourLogs(ev), Position("b", 0), [Record("c", 1, ev)], [], false, Position("d", 0))
  {
    var h, second, end := FourLogs(ev), Record("c", 1, ev), Position("d", 0);
    FourLogsHold(ev);
    FourLogsUnread(ev);
    FourLogsRead(ev);
    FourLogsAre(ev);
    BatchIsBetween(h, h, "c", 2, Batch([], "d", 0));
    BatchIsBetween(h, h, "b", 0, Batch([second], "c", 2));
    hide UnreadFrom, RowsFrom, Between, FourLogs, ReadStep, Valid, Gap;
    BetweenJoins(h, Position("b", 0), [second], Position("c", 2), [], end);
    assert [second] + [] == [second] == [second] + Records([]);
  }

  lemma {:induction false} RotatedFed(ev: Event)
    ensures var first, second := Record("a", 1, ev), Record("c", 1, ev);
            Fed(FourLogs(ev), EVERYTHING, RotatedConnection(ev), [SseOf(first), SseOf(second), SseOf(second)], [second],
                [], false, Position("d", 0))
  {
    hide Forwarded, Written, Subscribed, SseOf, Fed, FourLogs;
    var c, first, second, end := RotatedConnection(ev), Record("a", 1, ev), Record("c", 1, ev), Position("d", 0);
    RotatedFeed(ev);
    OneForwarded(EVERYTHING, end, second);
    TwoFrames(first, second);
    OneFrame(second);
    FedWhole(FourLogs(ev), c, [SseOf(first), SseOf(second)], [second], [SseOf(second)], end);
    assert [SseOf(first), SseOf(second)] + [SseOf(second)] == [SseOf(first), SseOf(second), SseOf(second)];
  }

  /**
   * The hub stands at an empty incarnation, and the session is rotated twice before the replay
   * gets there: the replay runs past the hub, and the hub sends the event in between again.
   */
  lemma {:induction false} RotatingTwiceRepeats(ev: Event)
    ensures var h, c, first, second := FourLogs(ev), RotatedConnection(ev), Record("a", 1, ev), Record("c", 1, ev);
            var frames := [SseOf(first), SseOf(second), SseOf(second)];
            && Happened(c)
            && ReadStep(h, h, "a", 1, Batch([first], "a", 2)) && ReadStep(h, h, "a", 2, Batch([second], "c", 2))
            && ReadStep(h, h, "c", 2, Batch([], "d", 0)) && ReadStep(h, h, "b", 0, Batch([second], "c", 2))
            && Fed(h, EVERYTHING, c, frames, [second], [], false, Position("d", 0))
            && Harm(h, c) == [second] && UnreadFrom(h, c.origin) == [first, second]
            && !Exact(h, EVERYTHING, c.origin, frames)
  {
    RotatedHappened(ev);
    RotatedFed(ev);
    FourLogsHold(ev);
    FourLogsUnread(ev);
    FourLogsRead(ev);
    EverythingIsSelected([Record("a", 1, ev), Record("c", 1, ev)]);
    hide Happened, Fed, UnreadFrom, Written, Select, Matches, SseOf, FourLogs, Gap, RowsFrom, Valid, IndexIn, ReadStep;
    var h, c := FourLogs(ev), RotatedConnection(ev);
    assert Harm(h, c) == [Record("c", 1, ev)];
  }
}
