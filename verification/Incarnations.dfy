/**
 * A session's event history as the store keeps it: one append-only log per incarnation of
 * the session, in creation order, and the reading positions (stream id, cursor) into it.
 */
module Incarnations {
  import opened Events

  const MAX_SEQUENCE := 0x7fff_ffff_ffff_ffff

  /** log[k] is the event stored with sequence k + 1. */
  datatype Incarnation = Incarnation(id: string, log: seq<Event>)

  /** Every incarnation a session name ever had; `live` iff the newest one is not destroyed. */
  datatype History = History(incs: seq<Incarnation>, live: bool)

  /** One row of the events table. */
  datatype Record = Record(stream: string, sequence: int, event: Event)

  /** Stream ids are ULIDs: never empty, never repeated, no colon; sequences are 64-bit. */
  ghost predicate Valid(h: History) {
    && (h.live ==> h.incs != [])
    && (forall i :: 0 <= i < |h.incs| ==> h.incs[i].id != "" && ':' !in h.incs[i].id && |h.incs[i].log| < MAX_SEQUENCE)
    && (forall i, j :: 0 <= i < j < |h.incs| ==> h.incs[i].id != h.incs[j].id)
  }

  /**
   * What appends, destroys and re-creations may do to a history: new incarnations come
   * last, only the newest log grows and only while it is live, and a destroyed session comes
   * back only as a new incarnation.
   */
  ghost predicate Evolves(h: History, later: History) {
    && |h.incs| <= |later.incs|
    && (forall i :: 0 <= i < |h.incs| ==>
          h.incs[i].id == later.incs[i].id && h.incs[i].log <= later.incs[i].log)
    && (forall i :: 0 <= i < |h.incs| - 1 ==> h.incs[i] == later.incs[i])
    && (!h.live ==> h.incs == later.incs[..|h.incs|] && (|h.incs| == |later.incs| ==> !later.live))
  }

  lemma {:induction false} EvolvesFromItself(h: History)
    ensures Evolves(h, h)
  {
  }

  lemma {:induction false} EvolvesIsTransitive(a: History, b: History, c: History)
    requires Evolves(a, b) && Evolves(b, c)
    ensures Evolves(a, c)
  {
    forall i | 0 <= i < |a.incs|
      ensures a.incs[i].id == c.incs[i].id && a.incs[i].log <= c.incs[i].log
    {
      assert a.incs[i].log <= b.incs[i].log && b.incs[i].log <= c.incs[i].log;
    }
    forall i | 0 <= i < |a.incs| - 1 ensures a.incs[i] == c.incs[i] {
      assert a.incs[i] == b.incs[i] && b.incs[i] == c.incs[i];
    }
    if !a.live {
      forall i | 0 <= i < |a.incs| ensures a.incs[i] == c.incs[i] {
        assert a.incs[i] == b.incs[i];
        assert |a.incs| < |b.incs| || b.incs == c.incs[..|b.incs|];
      }
      assert a.incs == c.incs[..|a.incs|];
    }
  }

  /** The session stayed as it was: one incarnation, live from the first moment to the last. */
  ghost predicate Steady(h: History, later: History) {
    h.live && later.live && |h.incs| == |later.incs|
  }

  /** Then it was live, and that incarnation the newest, at every moment in between. */
  lemma {:induction false} SteadyThroughout(h: History, between: History, later: History)
    requires Evolves(h, between) && Evolves(between, later) && Steady(h, later)
    ensures Steady(h, between) && Steady(between, later)
  {
  }

  // ---- positions ------------------------------------------------------------------

  /** The place of a stream id in creation order; |incs| for an id the session never had. */
  function IndexIn(incs: seq<Incarnation>, id: string): (i: nat)
    ensures i <= |incs|
    ensures i < |incs| ==> incs[i].id == id
    ensures forall k :: 0 <= k < i ==> incs[k].id != id
  {
    if incs == [] then 0 else if incs[0].id == id then 0 else 1 + IndexIn(incs[1..], id)
  }

  predicate Listed(h: History, id: string) {
    IndexIn(h.incs, id) < |h.incs|
  }

  lemma {:induction false} IndexIs(h: History, i: nat)
    requires Valid(h) && i < |h.incs|
    ensures IndexIn(h.incs, h.incs[i].id) == i
  {
    var k := IndexIn(h.incs, h.incs[i].id);
    assert k <= i && h.incs[k].id == h.incs[i].id;
  }

  lemma {:induction false} IndexIsStable(h: History, later: History, id: string)
    requires Valid(later) && Evolves(h, later) && Listed(h, id)
    ensures IndexIn(later.incs, id) == IndexIn(h.incs, id)
  {
    IndexIs(later, IndexIn(h.incs, id));
  }

  /** How many of the first n sequences lie below the cursor. */
  function Below(cursor: int, n: nat): (k: nat)
    ensures k <= n
  {
    if cursor <= 1 then 0 else if cursor - 1 <= n then cursor - 1 else n
  }

  /** ListEventsFromBySession: the rows at or after the cursor, ascending. */
  function RowsFrom(inc: Incarnation, cursor: int): (rows: seq<Record>)
    ensures |rows| == |inc.log| - Below(cursor, |inc.log|)
    ensures forall k :: 0 <= k < |rows| ==>
              rows[k] == Record(inc.id, Below(cursor, |inc.log|) + k + 1, inc.log[Below(cursor, |inc.log|) + k])
  {
    var lo := Below(cursor, |inc.log|);
    seq(|inc.log| - lo, k requires 0 <= k < |inc.log| - lo => Record(inc.id, lo + k + 1, inc.log[lo + k]))
  }

  ghost function AllRows(incs: seq<Incarnation>): seq<Record> {
    if incs == [] then [] else RowsFrom(incs[0], 0) + AllRows(incs[1..])
  }

  /** Everything at or after a cursor into the i-th log, then every later log, in order. */
  ghost function UnreadAt(incs: seq<Incarnation>, i: nat, cursor: int): seq<Record>
    requires i < |incs|
  {
    RowsFrom(incs[i], cursor) + AllRows(incs[i + 1..])
  }

  /** Everything a reader standing at (stream, cursor) has still to see, in order. */
  ghost function Unread(h: History, stream: string, cursor: int): seq<Record> {
    var i := IndexIn(h.incs, stream);
    if i < |h.incs| then UnreadAt(h.incs, i, cursor) else []
  }

  /** tailSeq: one past the last row, or the fallback when there is none. */
  function Past(rows: seq<Record>, fallback: int): int {
    if rows == [] then fallback else rows[|rows| - 1].sequence + 1
  }

  // ---- laws of one log ------------------------------------------------------------

  /** Rows read earlier are a prefix of the rows read later, and the rest starts one past them. */
  lemma {:induction false} RowsSplit(early: Incarnation, now: Incarnation, cursor: int)
    requires early.id == now.id && early.log <= now.log
    ensures RowsFrom(now, cursor) ==
            RowsFrom(early, cursor) + RowsFrom(now, Past(RowsFrom(early, cursor), cursor))
  {
    var rows := RowsFrom(early, cursor);
    var rest := RowsFrom(now, Past(rows, cursor));
    if rows != [] {
      assert Past(rows, cursor) == |early.log| + 1;
      assert Below(cursor, |early.log|) == Below(cursor, |now.log|);
      assert RowsFrom(now, cursor) == rows + rest;
    } else {
      assert RowsFrom(now, cursor) == rows + rest;
    }
  }

  lemma {:induction false} SkipEmpty(incs: seq<Incarnation>, n: nat)
    requires n <= |incs| && forall k :: 0 <= k < n ==> incs[k].log == []
    ensures AllRows(incs) == AllRows(incs[n..])
  {
    if n == 0 {
      assert incs[n..] == incs;
    } else {
      SkipEmpty(incs[1..], n - 1);
      assert incs[1..][n - 1..] == incs[n..];
      assert RowsFrom(incs[0], 0) == [];
    }
  }

  lemma {:induction false} ReadThrough(incs: seq<Incarnation>, i: nat, j: nat, cursor: int)
    requires i < j < |incs| && RowsFrom(incs[i], cursor) == []
    requires forall k :: i < k < j ==> incs[k].log == []
    ensures UnreadAt(incs, i, cursor) == UnreadAt(incs, j, 0)
  {
    var tail := incs[i + 1..];
    SkipEmpty(tail, j - i - 1);
    assert tail[j - i - 1..] == incs[j..];
    assert incs[j..][1..] == incs[j + 1..];
  }

  // ---- one read ---------------------------------------------------------------------

  /** What ReadFromStream hands back when no database read failed. */
  datatype Batch = Batch(rows: seq<Record>, resolved: string, next: int)

  /** Where a call starts reading: a caller with no stream id starts wherever it resolves to. */
  function Origin(streamID: string, b: Batch): string {
    if streamID == "" then b.resolved else streamID
  }

  /**
   * One successful call that found a stream: `before` and `after` are the histories at its
   * first and last database read. The rows are what `after` holds at the resolved position;
   * every incarnation passed over on the way is empty, and an empty batch is returned only
   * once the newest stream of `before` has been reached. A caller without a stream id is given
   * that one.
   */
  ghost predicate ReadStep(before: History, after: History, streamID: string, cursor: int, b: Batch) {
    && Listed(after, Origin(streamID, b)) && Listed(after, b.resolved)
    && var i, j := IndexIn(after.incs, Origin(streamID, b)), IndexIn(after.incs, b.resolved);
    && i <= j
    && (i < j ==> RowsFrom(after.incs[i], cursor) == [])
    && (forall k :: i < k < j ==> after.incs[k].log == [])
    && b.rows == RowsFrom(after.incs[j], if i == j then cursor else 0)
    && b.next == Past(b.rows, if i == j then cursor else 0)
    && (b.rows == [] ==> |before.incs| - 1 <= j)
    && (streamID == "" ==> j == |before.incs| - 1)
  }

  lemma {:induction false} BatchSplits(incs: seq<Incarnation>, now: seq<Incarnation>, i: nat, j: nat, cursor: int,
                                       b: Batch)
    requires i <= j < |incs| <= |now|
    requires incs[j].id == now[j].id && incs[j].log <= now[j].log
    requires forall k :: i <= k < j ==> incs[k] == now[k] && (k == i || incs[k].log == [])
    requires i < j ==> RowsFrom(incs[i], cursor) == []
    requires b.rows == RowsFrom(incs[j], if i == j then cursor else 0)
    requires b.next == Past(b.rows, if i == j then cursor else 0)
    ensures UnreadAt(now, i, cursor) == b.rows + UnreadAt(now, j, b.next)
  {
    var from := if i == j then cursor else 0;
    if i < j {
      ReadThrough(now, i, j, cursor);
    }
    RowsSplit(incs[j], now[j], from);
    var tail := AllRows(now[j + 1..]);
    assert b.rows + RowsFrom(now[j], b.next) + tail == b.rows + (RowsFrom(now[j], b.next) + tail);
  }

  /**
   * No gap and no repeat: whatever is appended or rotated afterwards, the batch followed by
   * what is unread at the returned position is exactly what was unread at the given one.
   */
  lemma {:induction false} ReadLosesNothing(before: History, after: History, later: History, streamID: string,
                                            cursor: int, b: Batch)
    requires Valid(after) && Valid(later) && Evolves(after, later)
    requires ReadStep(before, after, streamID, cursor, b)
    ensures Unread(later, Origin(streamID, b), cursor) == b.rows + Unread(later, b.resolved, b.next)
  {
    var i, j := IndexIn(after.incs, Origin(streamID, b)), IndexIn(after.incs, b.resolved);
    IndexIsStable(after, later, Origin(streamID, b));
    IndexIsStable(after, later, b.resolved);
    BatchSplits(after.incs, later.incs, i, j, cursor, b);
  }

  lemma {:induction false} EmptyLogsAreReadThrough(incs: seq<Incarnation>)
    requires forall k :: 0 <= k < |incs| ==> incs[k].log == []
    ensures AllRows(incs) == []
  {
    SkipEmpty(incs, |incs|);
  }

  /** Progress: an event that was undelivered when the call began keeps the batch from being empty. */
  lemma {:induction false} ReadMakesProgress(before: History, after: History, streamID: string, cursor: int, b: Batch)
    requires Valid(before) && Valid(after) && Evolves(before, after)
    requires ReadStep(before, after, streamID, cursor, b)
    requires Unread(before, Origin(streamID, b), cursor) != []
    ensures b.rows != []
  {
    var start := Origin(streamID, b);
    var i, j := IndexIn(after.incs, start), IndexIn(after.incs, b.resolved);
    IndexIsStable(before, after, start);
    if b.rows == [] {
      assert RowsFrom(after.incs[i], cursor) == [];
      assert before.incs[i].log <= after.incs[i].log;
      assert RowsFrom(before.incs[i], cursor) == [];
      forall k | i < k < |before.incs| ensures before.incs[k].log == [] {
        assert before.incs[k].log <= after.incs[k].log;
        assert k < j || (k == j && |RowsFrom(after.incs[j], 0)| == |after.incs[j].log|);
      }
      EmptyLogsAreReadThrough(before.incs[i + 1..]);
      assert false;
    }
  }

  // ---- whole runs -------------------------------------------------------------------

  /**
   * One call of a reader. `found` is false when the session had no live stream at the call's
   * first read; both callers of ReadFromStream then keep the position they had.
   */
  datatype Call = Call(before: History, after: History, found: bool, batch: Batch)

  ghost function Rows(c: Call): seq<Record> {
    if c.found then c.batch.rows else []
  }

  /** The position a caller holds after the call. */
  ghost function Next(c: Call, streamID: string, cursor: int): (string, int) {
    if c.found then (c.batch.resolved, c.batch.next) else (streamID, cursor)
  }

  ghost predicate CallFrom(c: Call, streamID: string, cursor: int) {
    && Valid(c.before) && Valid(c.after) && Evolves(c.before, c.after)
    && (if c.found then ReadStep(c.before, c.after, streamID, cursor, c.batch) && c.batch.resolved != ""
        else !c.before.live && c.batch == Batch([], "", cursor))
  }

  /** Calls made one after another, each fed the position the one before returned. */
  ghost predicate Run(calls: seq<Call>, streamID: string, cursor: int) {
    calls == [] ||
    var next := Next(calls[0], streamID, cursor);
    CallFrom(calls[0], streamID, cursor) && Run(calls[1..], next.0, next.1)
  }

  ghost function Delivered(calls: seq<Call>): seq<Record> {
    if calls == [] then [] else Rows(calls[0]) + Delivered(calls[1..])
  }

  ghost function Final(calls: seq<Call>, streamID: string, cursor: int): (string, int) {
    if calls == [] then (streamID, cursor)
    else
      var next := Next(calls[0], streamID, cursor);
      Final(calls[1..], next.0, next.1)
  }

  lemma {:induction false} ConcatIsAssociative<T>(a: seq<T>, b: seq<T>, c: seq<T>)
    ensures a + (b + c) == a + b + c
  {
  }

  lemma {:induction false} CallLosesNothing(c: Call, streamID: string, cursor: int, later: History)
    requires streamID != "" && CallFrom(c, streamID, cursor) && Valid(later) && Evolves(c.after, later)
    ensures var next := Next(c, streamID, cursor);
            && next.0 != ""
            && Unread(later, streamID, cursor) == Rows(c) + Unread(later, next.0, next.1)
  {
    if c.found {
      ReadLosesNothing(c.before, c.after, later, streamID, cursor, c.batch);
    }
  }

  /** Across every interleaving: what a run delivered, then what it has still to read, is what it set out to read. */
  lemma {:induction false} RunDeliversExactlyOnce(calls: seq<Call>, streamID: string, cursor: int, later: History)
    requires streamID != "" && Run(calls, streamID, cursor) && Valid(later)
    requires forall c :: c in calls ==> Evolves(c.after, later)
    ensures var fin := Final(calls, streamID, cursor);
            Unread(later, streamID, cursor) == Delivered(calls) + Unread(later, fin.0, fin.1)
  {
    if calls != [] {
      var next := Next(calls[0], streamID, cursor);
      CallLosesNothing(calls[0], streamID, cursor, later);
      RunDeliversExactlyOnce(calls[1..], next.0, next.1, later);
      var fin := Final(calls[1..], next.0, next.1);
      ConcatIsAssociative(Rows(calls[0]), Delivered(calls[1..]), Unread(later, fin.0, fin.1));
    }
  }

  /**
   * The other reading of an empty resolved id loses events: a read of a destroyed session
   * resolves to no stream, and a caller that took that over would carry its old cursor into
   * the next incarnation.
   */
  lemma {:induction false} ForgettingTheStreamLosesEvents(ev: Event)
    ensures var destroyed := History([Incarnation("a", [ev, ev])], false);
            var h := History([Incarnation("a", [ev, ev]), Incarnation("b", [ev])], true);
            && Valid(destroyed) && Valid(h) && Evolves(destroyed, h)
            && CallFrom(Call(destroyed, destroyed, false, Batch([], "", 3)), "a", 3)
            && Next(Call(destroyed, destroyed, false, Batch([], "", 3)), "a", 3) == ("a", 3)
            && ReadStep(h, h, "", 3, Batch([], "b", 3))
            && |Unread(h, "a", 3)| == 1 && Unread(h, "b", 3) == []
  {
    var h := History([Incarnation("a", [ev, ev]), Incarnation("b", [ev])], true);
    IndexIs(h, 0);
    IndexIs(h, 1);
    var rest := h.incs[1..];
    assert rest == [h.incs[1]] && rest[1..] == [] && h.incs[2..] == [];
    assert |AllRows(rest)| == 1;
    assert RowsFrom(h.incs[1], 3) == [];
  }

  // ---- what lies between two positions ----------------------------------------------

  /** The records from a cursor in the i-th log up to a cursor in the j-th. */
  ghost function GapAt(incs: seq<Incarnation>, i: nat, cursor: int, j: nat, upTo: int): seq<Record>
    requires i <= j < |incs|
    decreases j - i
  {
    if i < j then RowsFrom(incs[i], cursor) + GapAt(incs, i + 1, 0, j, upTo) else GapInLog(incs[i], cursor, upTo)
  }

  ghost function GapInLog(inc: Incarnation, cursor: int, upTo: int): seq<Record> {
    var from, to := Below(cursor, |inc.log|), Below(upTo, |inc.log|);
    RowsFrom(inc, cursor)[..if from <= to then to - from else 0]
  }

  lemma {:induction false} LogSplits(inc: Incarnation, cursor: int, upTo: int)
    requires cursor <= upTo
    ensures RowsFrom(inc, cursor) == GapInLog(inc, cursor, upTo) + RowsFrom(inc, upTo)
  {
    var rows, from, to := RowsFrom(inc, cursor), Below(cursor, |inc.log|), Below(upTo, |inc.log|);
    assert rows == rows[..to - from] + rows[to - from..];
    assert rows[to - from..] == RowsFrom(inc, upTo);
  }

  lemma {:induction false} GapSplits(incs: seq<Incarnation>, i: nat, cursor: int, j: nat, upTo: int)
    requires i <= j < |incs| && (i == j ==> cursor <= upTo)
    ensures UnreadAt(incs, i, cursor) == GapAt(incs, i, cursor, j, upTo) + UnreadAt(incs, j, upTo)
    decreases j - i
  {
    hide GapInLog;
    if i < j {
      assert incs[i + 1..][1..] == incs[i + 2..];
      if i + 1 == j && upTo < 0 {
        NothingBelowTheFirst(incs[j], upTo);
      } else if i + 1 < j || 0 <= upTo {
        GapSplits(incs, i + 1, 0, j, upTo);
      }
      ConcatIsAssociative(RowsFrom(incs[i], cursor), GapAt(incs, i + 1, 0, j, upTo), UnreadAt(incs, j, upTo));
    } else {
      LogSplits(incs[i], cursor, upTo);
      ConcatIsAssociative(GapInLog(incs[i], cursor, upTo), RowsFrom(incs[i], upTo), AllRows(incs[i + 1..]));
    }
  }

  lemma {:induction false} NothingBelowTheFirst(inc: Incarnation, upTo: int)
    requires upTo < 0
    ensures GapInLog(inc, 0, upTo) == [] && RowsFrom(inc, upTo) == RowsFrom(inc, 0)
  {
  }

  /** What lies before a position in the log never changes again. */
  lemma {:induction false} GapIsStable(incs: seq<Incarnation>, later: seq<Incarnation>, i: nat, cursor: int, j: nat,
                                       upTo: int)
    requires i <= j < |incs| <= |later| && forall k :: i <= k < j ==> incs[k] == later[k]
    requires incs[j].id == later[j].id && incs[j].log <= later[j].log && upTo <= |incs[j].log| + 1
    ensures GapAt(later, i, cursor, j, upTo) == GapAt(incs, i, cursor, j, upTo)
    decreases j - i
  {
    hide GapInLog, RowsFrom;
    if i < j {
      GapIsStable(incs, later, i + 1, 0, j, upTo);
    } else {
      GapInLogIsStable(incs[i], later[i], cursor, upTo);
    }
  }

  lemma {:induction false} GapInLogIsStable(early: Incarnation, now: Incarnation, cursor: int, upTo: int)
    requires early.id == now.id && early.log <= now.log && upTo <= |early.log| + 1
    ensures GapInLog(now, cursor, upTo) == GapInLog(early, cursor, upTo)
  {
    assert Below(upTo, |early.log|) == Below(upTo, |now.log|);
    if Below(cursor, |early.log|) < Below(upTo, |early.log|) {
      assert Below(cursor, |early.log|) == Below(cursor, |now.log|);
    }
  }

  /** Short of a position past the first sequence of its log there is something in between. */
  lemma {:induction false} GapIsNotEmpty(incs: seq<Incarnation>, i: nat, cursor: int, j: nat, upTo: int)
    requires i <= j < |incs| && 1 < upTo && incs[j].log != []
    requires i == j ==> cursor < upTo && cursor <= |incs[j].log|
    ensures GapAt(incs, i, cursor, j, upTo) != []
    decreases j - i
  {
    if i < j {
      GapIsNotEmpty(incs, i + 1, 0, j, upTo);
    }
  }

  // ---- resuming after a record ------------------------------------------------------

  lemma {:induction false} RestAfterRecordAt(incs: seq<Incarnation>, i: nat, cursor: int, m: nat) returns (j: nat)
    requires i < |incs| && m < |UnreadAt(incs, i, cursor)|
    ensures i <= j < |incs|
    ensures var r := UnreadAt(incs, i, cursor)[m];
            && r.stream == incs[j].id && 1 <= r.sequence <= |incs[j].log|
            && (j == i ==> cursor <= r.sequence)
            && UnreadAt(incs, i, cursor)[m + 1..] == UnreadAt(incs, j, r.sequence + 1)
    decreases |incs| - i
  {
    var rows, tail := RowsFrom(incs[i], cursor), AllRows(incs[i + 1..]);
    if m < |rows| {
      j := i;
      var r := rows[m];
      assert rows[m + 1..] == RowsFrom(incs[i], r.sequence + 1);
      assert (rows + tail)[m + 1..] == rows[m + 1..] + tail;
    } else {
      assert incs[i + 1..][1..] == incs[i + 2..];
      assert tail == UnreadAt(incs, i + 1, 0);
      j := RestAfterRecordAt(incs, i + 1, 0, m - |rows|);
      assert (rows + tail)[m] == tail[m - |rows|];
      assert (rows + tail)[m + 1..] == tail[m - |rows| + 1..];
    }
  }

  /** Standing just past a record, the unread events are exactly the ones that followed it. */
  lemma {:induction false} RestAfterRecord(h: History, stream: string, cursor: int, m: nat)
    requires Valid(h) && m < |Unread(h, stream, cursor)|
    ensures var r := Unread(h, stream, cursor)[m];
            && Listed(h, r.stream) && IndexIn(h.incs, stream) <= IndexIn(h.incs, r.stream)
            && 1 <= r.sequence < MAX_SEQUENCE
            && (r.stream == stream ==> cursor <= r.sequence)
            && Unread(h, stream, cursor)[m + 1..] == Unread(h, r.stream, r.sequence + 1)
  {
    var j := RestAfterRecordAt(h.incs, IndexIn(h.incs, stream), cursor, m);
    IndexIs(h, j);
  }

  /** Unread events come oldest stream first, and by sequence within a stream. */
  lemma {:induction false} UnreadIsOrdered(h: History, stream: string, cursor: int, m: nat, n: nat)
    requires Valid(h) && m < n < |Unread(h, stream, cursor)|
    ensures var u := Unread(h, stream, cursor);
            && IndexIn(h.incs, stream) <= IndexIn(h.incs, u[m].stream) <= IndexIn(h.incs, u[n].stream) < |h.incs|
            && (u[m].stream == u[n].stream ==> u[m].sequence < u[n].sequence)
  {
    var u := Unread(h, stream, cursor);
    hide RowsFrom, AllRows, Unread;
    RestAfterRecord(h, stream, cursor, m);
    assert u[n] == u[m + 1..][n - m - 1];
    RestAfterRecord(h, u[m].stream, u[m].sequence + 1, n - m - 1);
  }

  lemma {:induction false} AllRowsGrow(incs: seq<Incarnation>, later: seq<Incarnation>)
    requires |incs| <= |later|
    requires forall k :: 0 <= k < |incs| ==> incs[k].id == later[k].id && incs[k].log <= later[k].log
    requires forall k :: 0 <= k < |incs| - 1 ==> incs[k] == later[k]
    ensures AllRows(incs) <= AllRows(later)
  {
    if incs != [] {
      if |incs| == 1 {
        assert AllRows(incs[1..]) == [];
        RowsSplit(incs[0], later[0], 0);
      } else {
        AllRowsGrow(incs[1..], later[1..]);
      }
    }
  }

  /** What is unread only grows at its end. */
  lemma {:induction false} UnreadGrows(h: History, later: History, stream: string, cursor: int)
    requires Valid(h) && Valid(later) && Evolves(h, later)
    ensures Unread(h, stream, cursor) <= Unread(later, stream, cursor)
  {
    hide RowsFrom, Valid;
    var i := IndexIn(h.incs, stream);
    if i < |h.incs| {
      IndexIsStable(h, later, stream);
      if i == |h.incs| - 1 {
        assert h.incs[i + 1..] == [];
        RowsSplit(h.incs[i], later.incs[i], cursor);
      } else {
        AllRowsGrow(h.incs[i + 1..], later.incs[i + 1..]);
      }
    }
  }
}
