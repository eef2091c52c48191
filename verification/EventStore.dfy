/**
 * The session-scoped reads of the durable event log (app/internal/eventlog/store.go), over
 * a database that other processes keep appending to and rotating between any two reads.
 */
module EventStore {
  import opened Wrappers
  import opened Events
  import opened Incarnations

  // ---- selection --------------------------------------------------------------------

  ghost function Select(f: Filter, rows: seq<Record>): seq<Record> {
    if rows == [] then []
    else (if Matches(f, rows[0].event) then [rows[0]] else []) + Select(f, rows[1..])
  }

  lemma {:induction false} SelectConcat(f: Filter, a: seq<Record>, b: seq<Record>)
    ensures Select(f, a + b) == Select(f, a) + Select(f, b)
  {
    if a == [] {
      assert a + b == b;
    } else {
      assert (a + b)[1..] == a[1..] + b;
      SelectConcat(f, a[1..], b);
    }
  }

  lemma {:induction false} SelectSnoc(f: Filter, rows: seq<Record>, i: nat)
    requires i < |rows|
    ensures Select(f, rows[..i + 1]) ==
            if Matches(f, rows[i].event) then Select(f, rows[..i]) + [rows[i]] else Select(f, rows[..i])
  {
    assert rows[..i + 1] == rows[..i] + [rows[i]];
    SelectConcat(f, rows[..i], [rows[i]]);
  }

  lemma {:induction false} NothingSelected(f: Filter, rows: seq<Record>)
    ensures Select(f, rows[..0]) == []
  {
  }

  ghost function LastN(s: seq<Record>, n: int): seq<Record> {
    if n <= 0 || |s| <= n then s else s[|s| - n..]
  }

  /** Shifting a full ring and storing at its end keeps the last n. */
  lemma {:induction false} LastNSnoc(s: seq<Record>, x: Record, n: int)
    ensures var ring := LastN(s, n);
            LastN(s + [x], n) == if n > 0 && |ring| == n then ring[1..] + [x] else ring + [x]
  {
    if 0 < n <= |s| {
      assert (s + [x])[|s| + 1 - n..] == s[|s| - n..][1..] + [x];
    }
  }

  lemma {:induction false} NothingKept(n: int)
    ensures LastN([], n) == []
  {
  }

  lemma {:induction false} SequencesPushed(ring: seq<Record>, x: Record)
    ensures Sequences(ring + [x]) == Sequences(ring) + [x.sequence]
    ensures ring != [] ==> Sequences(ring[1..] + [x]) == Sequences(ring)[1..] + [x.sequence]
  {
  }

  ghost function Sequences(rows: seq<Record>): (r: seq<int>)
    ensures |r| == |rows| && forall i :: 0 <= i < |r| ==> r[i] == rows[i].sequence
  {
    seq(|rows|, i requires 0 <= i < |rows| => rows[i].sequence)
  }

  // ---- paging and tailing agree with the whole log ------------------------------------

  /** What List promises about one page read from the rows at or after `since`. */
  ghost predicate IsPage(f: Filter, rows: seq<Record>, since: int, page: seq<Record>, next: int) {
    exists m: nat :: IsPageUpTo(f, rows, since, page, next, m)
  }

  /** The page is the selection of the first m rows, stopping early only when the limit is reached. */
  ghost predicate IsPageUpTo(f: Filter, rows: seq<Record>, since: int, page: seq<Record>, next: int, m: nat) {
    && m <= |rows|
    && page == Select(f, rows[..m])
    && next == Past(rows[..m], since)
    && (f.limit > 0 ==> |page| <= f.limit)
    && (m < |rows| ==> f.limit > 0 && |page| == f.limit)
  }

  lemma {:induction false} PageEnds(f: Filter, rows: seq<Record>, since: int, page: seq<Record>, next: int, m: nat)
    requires IsPageUpTo(f, rows, since, page, next, m)
    ensures IsPage(f, rows, since, page, next)
  {
  }

  lemma {:induction false} NothingListed(f: Filter, rows: seq<Record>, since: int)
    ensures Select(f, rows[..0]) == [] && Past(rows[..0], since) == since
  {
  }

  lemma {:induction false} ListedOneMore(f: Filter, rows: seq<Record>, i: nat, since: int)
    requires i < |rows|
    ensures Past(rows[..i + 1], since) == rows[i].sequence + 1
    ensures Select(f, rows[..i + 1]) ==
            if Matches(f, rows[i].event) then Select(f, rows[..i]) + [rows[i]] else Select(f, rows[..i])
  {
    SelectSnoc(f, rows, i);
  }

  lemma {:induction false} RowsResume(inc: Incarnation, cursor: int, m: nat)
    requires m <= |RowsFrom(inc, cursor)|
    ensures RowsFrom(inc, cursor)[m..] == RowsFrom(inc, Past(RowsFrom(inc, cursor)[..m], cursor))
  {
    var rows := RowsFrom(inc, cursor);
    if m > 0 {
      assert Past(rows[..m], cursor) == rows[m - 1].sequence + 1;
      assert rows[m..] == RowsFrom(inc, rows[m - 1].sequence + 1);
    }
  }

  /** A page and what is selected after it are what was selected before it, appends included. */
  lemma {:induction false} PageLosesNothing(f: Filter, early: Incarnation, now: Incarnation, since: int,
                                            page: seq<Record>, next: int)
    requires early.id == now.id && early.log <= now.log
    requires IsPage(f, RowsFrom(early, since), since, page, next)
    ensures Select(f, RowsFrom(now, since)) == page + Select(f, RowsFrom(now, next))
  {
    var rows := RowsFrom(early, since);
    var m: nat :| IsPageUpTo(f, rows, since, page, next, m);
    RowsSplit(early, now, since);
    var all := RowsFrom(now, since);
    assert all[..m] == rows[..m];
    RowsResume(now, since, m);
    hide RowsFrom, Select;
    assert all == all[..m] + all[m..];
    SelectConcat(f, all[..m], all[m..]);
  }

  /** An empty page means nothing selectable was left when it was read. */
  lemma {:induction false} EmptyPageIsTheEnd(f: Filter, inc: Incarnation, since: int, next: int)
    requires IsPage(f, RowsFrom(inc, since), since, [], next)
    ensures Select(f, RowsFrom(inc, since)) == []
  {
    var rows := RowsFrom(inc, since);
    var m: nat :| IsPageUpTo(f, rows, since, [], next, m);
    assert rows[..m] == rows;
  }

  /** One List call of a paging reader: the log it saw, the page and the cursor it returned. */
  datatype Page = Page(log: Incarnation, rows: seq<Record>, next: int)

  /** Pages read in turn, each at the cursor the one before returned, while the log grows. */
  ghost predicate Paging(f: Filter, pages: seq<Page>, since: int, now: Incarnation) {
    pages == [] ||
    (&& pages[0].log.id == now.id && pages[0].log.log <= now.log
     && IsPage(f, RowsFrom(pages[0].log, since), since, pages[0].rows, pages[0].next)
     && Paging(f, pages[1..], pages[0].next, now))
  }

  ghost function Concatenated(pages: seq<Page>): seq<Record> {
    if pages == [] then [] else pages[0].rows + Concatenated(pages[1..])
  }

  ghost function LastCursor(pages: seq<Page>, since: int): int {
    if pages == [] then since else pages[|pages| - 1].next
  }

  lemma {:induction false} PagesConcatenate(f: Filter, pages: seq<Page>, since: int, now: Incarnation)
    requires Paging(f, pages, since, now)
    ensures Select(f, RowsFrom(now, since)) ==
            Concatenated(pages) + Select(f, RowsFrom(now, LastCursor(pages, since)))
  {
    if pages != [] {
      var p, rest := pages[0], pages[1..];
      PageLosesNothing(f, p.log, now, since, p.rows, p.next);
      PagesConcatenate(f, rest, p.next, now);
      ConcatIsAssociative(p.rows, Concatenated(rest), Select(f, RowsFrom(now, LastCursor(rest, p.next))));
    }
  }

  /** The sequence TailOffset answers with. */
  ghost function TailStart(f: Filter, inc: Incarnation, n: int): int {
    var chosen := Select(f, RowsFrom(inc, 0));
    if n <= 0 || |chosen| < n then 0 else chosen[|chosen| - n].sequence
  }

  lemma {:induction false} SelectFromChosen(f: Filter, inc: Incarnation, cursor: int, k: nat)
    requires k < |Select(f, RowsFrom(inc, cursor))|
    ensures var chosen := Select(f, RowsFrom(inc, cursor));
            Select(f, RowsFrom(inc, chosen[k].sequence)) == chosen[k..]
    decreases |RowsFrom(inc, cursor)|
  {
    var rows := RowsFrom(inc, cursor);
    RowsResume(inc, cursor, 1);
    FirstRowStartsThem(inc, cursor);
    var next := Past(rows[..1], cursor);
    assert rows[1..] == RowsFrom(inc, next);
    hide RowsFrom, Matches;
    if Matches(f, rows[0].event) {
      if k > 0 {
        SelectFromChosen(f, inc, next, k - 1);
      }
    } else {
      SelectFromChosen(f, inc, next, k);
    }
  }

  lemma {:induction false} FirstRowStartsThem(inc: Incarnation, cursor: int)
    ensures RowsFrom(inc, cursor) != [] ==> RowsFrom(inc, RowsFrom(inc, cursor)[0].sequence) == RowsFrom(inc, cursor)
  {
  }

  /** Listing everything from TailOffset(f, n) is exactly Tail(f, n). */
  lemma {:induction false} TailOffsetStartsTheTail(f: Filter, inc: Incarnation, n: int)
    ensures Select(f, RowsFrom(inc, TailStart(f, inc, n))) == LastN(Select(f, RowsFrom(inc, 0)), n)
  {
    var chosen := Select(f, RowsFrom(inc, 0));
    if 0 < n <= |chosen| {
      SelectFromChosen(f, inc, 0, |chosen| - n);
    }
  }

  /** The ring of a tail offset: the sequences of the last n matching rows, shifted in place. */
  method LastSequences(f: Filter, rows: seq<Record>, n: int) returns (ring: seq<int>)
    requires n > 0
    ensures ring == Sequences(LastN(Select(f, rows), n))
  {
    hide Select, Matches;
    ring := [];
    ghost var kept: seq<Record> := [];
    NothingSelected(f, rows);
    for i := 0 to |rows|
      invariant kept == LastN(Select(f, rows[..i]), n) && ring == Sequences(kept)
    {
      SelectSnoc(f, rows, i);
      var chosen := Match(f, rows[i].event);
      if !chosen {
        continue;
      }
      LastNSnoc(Select(f, rows[..i]), rows[i], n);
      SequencesPushed(kept, rows[i]);
      kept := if |kept| == n then kept[1..] + [rows[i]] else kept + [rows[i]];
      if |ring| == n {
        ring := ring[1..] + [rows[i].sequence];
      } else {
        ring := ring + [rows[i].sequence];
      }
    }
    assert rows[..|rows|] == rows;
  }

  // ---- the store ----------------------------------------------------------------------

  function Ids(h: History): (ids: seq<string>)
    ensures |ids| == |h.incs| && forall i :: 0 <= i < |ids| ==> ids[i] == h.incs[i].id
  {
    seq(|h.incs|, i requires 0 <= i < |h.incs| => h.incs[i].id)
  }

  /** The incarnation a live name resolves to. */
  function Newest(h: History): Incarnation
    requires h.incs != []
  {
    h.incs[|h.incs| - 1]
  }

  function CurrentRows(h: History, cursor: int): seq<Record> {
    if h.live && h.incs != [] then RowsFrom(Newest(h), cursor) else []
  }

  /** AppendEvent on a live session: the row gets the next sequence of the newest log. */
  function Append(h: History, ev: Event): History
    requires h.incs != []
  {
    var last := |h.incs| - 1;
    h.(incs := h.incs[last := h.incs[last].(log := h.incs[last].log + [ev])])
  }

  /** Creating a session under a name whose previous incarnation, if any, is destroyed. */
  function Recreate(h: History, id: string): History {
    History(h.incs + [Incarnation(id, [])], true)
  }

  lemma {:induction false} AppendEvolves(h: History, ev: Event)
    requires Valid(h) && h.live && |Newest(h).log| + 1 < MAX_SEQUENCE
    ensures Valid(Append(h, ev)) && Evolves(h, Append(h, ev))
    ensures Newest(Append(h, ev)).log == Newest(h).log + [ev]
  {
  }

  lemma {:induction false} RecreateEvolves(h: History, id: string)
    requires Valid(h) && id != "" && ':' !in id && id !in Ids(h)
    ensures Valid(Recreate(h, id)) && Evolves(h, Recreate(h, id))
  {
    assert forall i :: 0 <= i < |h.incs| ==> h.incs[i].id == Ids(h)[i];
  }

  lemma {:induction false} DestroyEvolves(h: History)
    requires Valid(h)
    ensures Valid(h.(live := false)) && Evolves(h, h.(live := false)) && Evolves(h, h)
  {
  }

  /** Each thing another process can do to a history is an evolution of it. */
  lemma {:induction false} StepsEvolve(h: History, ev: Event, id: string)
    requires Valid(h)
    ensures h.live ==> h.incs != []
    ensures h.live && |Newest(h).log| + 1 < MAX_SEQUENCE ==> Valid(Append(h, ev)) && Evolves(h, Append(h, ev))
    ensures id != "" && ':' !in id && id !in Ids(h) ==> Valid(Recreate(h, id)) && Evolves(h, Recreate(h, id))
    ensures Valid(h.(live := false)) && Evolves(h, h.(live := false)) && Evolves(h, h)
  {
    hide Evolves, Append, Recreate;
    DestroyEvolves(h);
    if h.live && |Newest(h).log| + 1 < MAX_SEQUENCE {
      AppendEvolves(h, ev);
    }
    if id != "" && ':' !in id && id !in Ids(h) {
      RecreateEvolves(h, id);
    }
  }

  /** ids was listed earlier: it names the oldest incarnations of h. */
  ghost predicate NamesOldest(ids: seq<string>, h: History) {
    |ids| <= |h.incs| && forall m :: 0 <= m < |ids| ==> ids[m] == h.incs[m].id
  }

  lemma {:induction false} NamesOldestStays(ids: seq<string>, h: History, later: History)
    requires NamesOldest(ids, h) && Evolves(h, later)
    ensures NamesOldest(ids, later)
  {
  }

  /**
   * The walk from streamID has come to the k-th incarnation: nothing is left at
   * (streamID, cursor), every log in between is empty, and the stream that was current
   * when the call began has not been passed.
   */
  ghost predicate Walking(snapshot: History, h: History, streamID: string, cursor: int, k: int) {
    var i := IndexIn(snapshot.incs, streamID);
    && Evolves(snapshot, h)
    && (Listed(snapshot, streamID) ==>
          && i < k < |snapshot.incs|
          && RowsFrom(h.incs[i], cursor) == []
          && forall m :: i < m < k ==> h.incs[m].log == [])
  }

  lemma {:induction false} WalkingStays(snapshot: History, h: History, later: History, streamID: string, cursor: int,
                                        k: int)
    requires Walking(snapshot, h, streamID, cursor, k) && Evolves(h, later)
    ensures Walking(snapshot, later, streamID, cursor, k)
  {
    EvolvesIsTransitive(snapshot, h, later);
    if Listed(snapshot, streamID) {
      var i := IndexIn(snapshot.incs, streamID);
      assert forall m :: i <= m < k ==> h.incs[m] == later.incs[m];
    }
  }

  /** The rows of one stream by its id, as ListEventsFromStreamID reads them. */
  function StreamRows(h: History, id: string, since: int): seq<Record>
    requires Listed(h, id)
  {
    RowsFrom(h.incs[IndexIn(h.incs, id)], since)
  }

  /**
   * What the walk reads at the k-th incarnation: if it is empty and not the stream that was
   * current, the walk goes on; otherwise the read is the call's answer.
   */
  lemma {:induction false} WalkingReads(snapshot: History, h: History, streamID: string, cursor: int, k: nat,
                                        id: string)
    requires Valid(h) && Walking(snapshot, h, streamID, cursor, k) && streamID != ""
    requires snapshot.live && snapshot.incs != [] && k < |h.incs| && id == h.incs[k].id && Listed(h, id)
    ensures id != ""
    ensures StreamRows(h, id, 0) == [] && id != Newest(snapshot).id ==> Walking(snapshot, h, streamID, cursor, k + 1)
    ensures Listed(snapshot, streamID) && (StreamRows(h, id, 0) == [] ==> id == Newest(snapshot).id) ==>
              ReadStep(snapshot, h, streamID, cursor, Batch(StreamRows(h, id, 0), id, Past(StreamRows(h, id, 0), 0)))
  {
    IndexIs(h, k);
    var rows := StreamRows(h, id, 0);
    if Listed(snapshot, streamID) {
      if rows == [] && id != Newest(snapshot).id {
        assert |h.incs[k].log| == 0;
      } else {
        WalkingArrives(snapshot, h, streamID, cursor, k, rows);
      }
    }
  }

  /** Reading the current stream answers a call that names it, or names none. */
  lemma {:induction false} CurrentIsRead(h: History, streamID: string, cursor: int)
    requires Valid(h) && h.live
    ensures Newest(h).id != ""
    ensures streamID == "" || streamID == Newest(h).id ==>
              ReadStep(h, h, streamID, cursor,
                       Batch(CurrentRows(h, cursor), Newest(h).id, Past(CurrentRows(h, cursor), cursor)))
  {
    IndexIs(h, |h.incs| - 1);
  }

  /** Reading on in a superseded stream answers the call; when nothing is left the walk begins. */
  lemma {:induction false} OwnTailIsRead(snapshot: History, h: History, streamID: string, cursor: int)
    requires Valid(snapshot) && Valid(h) && Evolves(snapshot, h) && snapshot.live
    requires streamID != Newest(snapshot).id && Listed(h, streamID)
    ensures var rows := StreamRows(h, streamID, cursor);
            && (rows != [] ==>
                  ReadStep(snapshot, h, streamID, cursor, Batch(rows, streamID, Past(rows, cursor))) && streamID != "")
            && (rows == [] ==> Walking(snapshot, h, streamID, cursor, IndexIn(snapshot.incs, streamID) + 1))
  {
    if Listed(snapshot, streamID) {
      IndexIsStable(snapshot, h, streamID);
    }
    assert h.incs[IndexIn(h.incs, streamID)].id == streamID;
  }

  /** A walk past every listed incarnation never met the stream it set out from. */
  lemma {:induction false} WalkedPast(snapshot: History, h: History, streamID: string, cursor: int, k: nat)
    requires Walking(snapshot, h, streamID, cursor, k) && |snapshot.incs| <= k
    ensures !Listed(snapshot, streamID)
  {
  }

  lemma {:induction false} ListedAt(h: History, k: nat)
    requires Valid(h) && k < |h.incs|
    ensures Listed(h, h.incs[k].id)
  {
    IndexIs(h, k);
  }

  lemma {:induction false} WalkingArrives(snapshot: History, h: History, streamID: string, cursor: int, k: nat,
                                          rows: seq<Record>)
    requires Valid(h) && Walking(snapshot, h, streamID, cursor, k)
    requires streamID != "" && Listed(snapshot, streamID)
    requires rows == RowsFrom(h.incs[k], 0) && (rows == [] ==> h.incs[k].id == Newest(snapshot).id)
    ensures ReadStep(snapshot, h, streamID, cursor, Batch(rows, h.incs[k].id, Past(rows, 0)))
  {
    IndexIs(h, k);
    IndexIs(h, |snapshot.incs| - 1);
    IndexIsStable(snapshot, h, streamID);
  }

  /** The place just after streamID in the listing, or its end when it is not listed. */
  method PlaceAfter(ids: seq<string>, streamID: string, ghost h: History) returns (start: nat)
    requires ids == Ids(h)
    ensures start == if Listed(h, streamID) then IndexIn(h.incs, streamID) + 1 else |ids|
  {
    start := |ids|;
    for i := 0 to |ids|
      invariant forall k :: 0 <= k < i ==> ids[k] != streamID
      invariant start == |ids|
    {
      if ids[i] == streamID {
        return i + 1;
      }
    }
  }

  /** The walk begins just after streamID in the listing. */
  lemma {:induction false} WalkBegins(snapshot: History, h: History, streamID: string, cursor: int, start: nat)
    requires Valid(h) && Evolves(snapshot, h)
    requires Walking(snapshot, h, streamID, cursor, IndexIn(snapshot.incs, streamID) + 1)
    requires start == if Listed(h, streamID) then IndexIn(h.incs, streamID) + 1 else |Ids(h)|
    ensures Walking(snapshot, h, streamID, cursor, start) && NamesOldest(Ids(h), h) && |snapshot.incs| <= |Ids(h)|
    ensures start <= |Ids(h)|
  {
    ListingAgrees(snapshot, h, streamID);
  }

  lemma {:induction false} WalkableIsNamed(h: History, snapshot: History)
    requires Valid(snapshot) && snapshot.live
    ensures snapshot.incs != [] && Newest(snapshot).id != ""
  {
  }

  lemma {:induction false} ListingAgrees(snapshot: History, h: History, streamID: string)
    requires Valid(h) && Evolves(snapshot, h)
    ensures Listed(snapshot, streamID) ==> IndexIn(h.incs, streamID) == IndexIn(snapshot.incs, streamID)
  {
    if Listed(snapshot, streamID) {
      IndexIsStable(snapshot, h, streamID);
    }
  }

  class Store {
    var history: History
    ghost var faults: nat // database reads that failed so far

    /** Any number of appends, destroys and re-creations by other processes. */
    method Interfere()
      requires Valid(history)
      modifies this`history
      ensures Valid(history) && Evolves(old(history), history)
    {
      var steps: nat := *;
      EvolvesFromItself(history);
      hide Evolves, Append, Recreate;
      while steps > 0
        invariant Valid(history) && Evolves(old(history), history)
      {
        ghost var before := history;
        var ev: Event := *;
        var id: string := *;
        var destroyed: bool := *;
        StepsEvolve(before, ev, id);
        if history.live && !destroyed && |Newest(history).log| + 1 < MAX_SEQUENCE {
          history := Append(history, ev);
        } else if history.live {
          history := history.(live := false);
        } else if id != "" && ':' !in id && id !in Ids(history) {
          history := Recreate(history, id);
        }
        EvolvesIsTransitive(old(history), before, history);
        steps := steps - 1;
      }
    }

    /** One atomic read of the live stream's id and of its rows at or after the cursor. */
    method ListCurrentEventsFrom(cursor: int) returns (r: Result<(seq<Record>, string)>)
      requires Valid(history)
      modifies this
      ensures Valid(history) && Evolves(old(history), history)
      ensures r.Ok? ==> r.value == (CurrentRows(history, cursor), if history.live then Newest(history).id else "")
      ensures faults == old(faults) + if r.Ok? then 0 else 1
    {
      Interfere();
      if * {
        faults := faults + 1;
        return Err("database");
      }
      return Ok((CurrentRows(history, cursor), if history.live then Newest(history).id else ""));
    }

    /** The rows of one stream by id; a stream the session does not own is refused. */
    method ListEventsFromStreamID(id: string, since: int) returns (r: Result<seq<Record>>)
      requires Valid(history)
      modifies this
      ensures Valid(history) && Evolves(old(history), history)
      ensures r.Ok? ==> Listed(history, id) && r.value == StreamRows(history, id, since)
      ensures old(faults) <= faults && (r.Err? ==> old(faults) < faults || !Listed(history, id))
    {
      Interfere();
      if * {
        faults := faults + 1;
        return Err("database");
      }
      if !Listed(history, id) {
        return Err("stream id does not belong to the session");
      }
      return Ok(StreamRows(history, id, since));
    }

    method EventStreamIDsBySession() returns (r: Result<seq<string>>)
      requires Valid(history)
      modifies this
      ensures Valid(history) && Evolves(old(history), history)
      ensures r.Ok? ==> r.value == Ids(history)
      ensures faults == old(faults) + if r.Ok? then 0 else 1
    {
      Interfere();
      if * {
        faults := faults + 1;
        return Err("database");
      }
      return Ok(Ids(history));
    }

    /** StreamOwner, compared with the session the caller asked for. */
    method Owns(id: string) returns (r: Result<bool>)
      requires Valid(history)
      modifies this
      ensures Valid(history) && Evolves(old(history), history)
      ensures r.Ok? ==> r.value == Listed(history, id)
      ensures faults == old(faults) + if r.Ok? then 0 else 1
    {
      Interfere();
      if * {
        faults := faults + 1;
        return Err("database");
      }
      return Ok(Listed(history, id));
    }

    /**
     * What a reader standing at (streamID, cursor) is given next. `snapshot` is the history at
     * the call's first read; a failed read leaves the caller's position as it was.
     */
    method ReadFromStream(streamID: string, cursor: int) returns (ok: bool, b: Batch, ghost snapshot: History)
      requires Valid(history)
      modifies this
      ensures Valid(history) && Valid(snapshot)
      ensures Evolves(old(history), snapshot) && Evolves(snapshot, history)
      ensures !ok ==> b == Batch([], streamID, cursor)
      ensures old(faults) <= faults
      ensures !ok ==> old(faults) < faults || (streamID != "" && !Listed(snapshot, streamID))
      ensures ok ==> (b.resolved == "" <==> !snapshot.live)
      ensures ok && b.resolved == "" ==> b == Batch([], "", cursor)
      ensures ok && b.resolved != "" && (streamID == "" || Listed(snapshot, streamID)) ==>
                ReadStep(snapshot, history, streamID, cursor, b)
    {
      ok, b := false, Batch([], streamID, cursor);
      var first := ListCurrentEventsFrom(cursor);
      snapshot := history;
      if first.Err? {
        return;
      }
      var rows, current := first.value.0, first.value.1;
      if current == "" {
        return true, Batch([], "", cursor), snapshot;
      }
      CurrentIsRead(snapshot, streamID, cursor);
      hide ReadStep, RowsFrom, StreamRows, Walking;
      if streamID == "" || streamID == current {
        return true, Batch(rows, current, Past(rows, cursor)), snapshot;
      }

      var own := ListEventsFromStreamID(streamID, cursor);
      if own.Err? {
        return;
      }
      ghost var h := history;
      OwnTailIsRead(snapshot, h, streamID, cursor);
      if |own.value| > 0 {
        return true, Batch(own.value, streamID, Past(own.value, cursor)), snapshot;
      }

      // nothing is left in the caller's own stream
      ok, b := WalkForward(streamID, current, cursor, snapshot);
      EvolvesIsTransitive(snapshot, h, history);
    }

    /**
     * Steps through the incarnations after a drained stream, stopping at the first that holds
     * an event or at the newest.
     */
    method WalkForward(streamID: string, current: string, cursor: int, ghost snapshot: History)
      returns (ok: bool, b: Batch)
      requires Valid(history) && Valid(snapshot) && Evolves(snapshot, history)
      requires snapshot.live && current == Newest(snapshot).id
      requires streamID != "" && Walking(snapshot, history, streamID, cursor, IndexIn(snapshot.incs, streamID) + 1)
      modifies this
      ensures Valid(history) && Evolves(old(history), history)
      ensures !ok ==> b == Batch([], streamID, cursor)
      ensures old(faults) <= faults && (!ok && Listed(snapshot, streamID) ==> old(faults) < faults)
      ensures ok ==> b.resolved != ""
      ensures ok && Listed(snapshot, streamID) ==> ReadStep(snapshot, history, streamID, cursor, b)
    {
      hide Valid, Evolves, Walking, ReadStep, NamesOldest, Listed;
      ok, b := false, Batch([], streamID, cursor);
      ghost var before := history;
      WalkableIsNamed(before, snapshot);
      var listing := EventStreamIDsBySession();
      if listing.Err? {
        return;
      }
      var ids := listing.value;
      WalkingStays(snapshot, before, history, streamID, cursor, IndexIn(snapshot.incs, streamID) + 1);
      EvolvesIsTransitive(snapshot, before, history);
      var start := PlaceAfter(ids, streamID, history);
      WalkBegins(snapshot, history, streamID, cursor, start);
      ghost var listed := history;
      ok, b := WalkOn(streamID, current, cursor, ids, start, snapshot);
      EvolvesIsTransitive(before, listed, history);
    }

    /** The walk proper, over the incarnations listed from `start` on. */
    method WalkOn(streamID: string, current: string, cursor: int, ids: seq<string>, start: nat, ghost snapshot: History)
      returns (ok: bool, b: Batch)
      requires Valid(history) && NamesOldest(ids, history) && start <= |ids|
      requires snapshot.live && snapshot.incs != [] && current == Newest(snapshot).id && current != "" && streamID != ""
      requires Walking(snapshot, history, streamID, cursor, start)
      requires |snapshot.incs| <= |ids|
      modifies this
      ensures Valid(history) && Evolves(old(history), history)
      ensures !ok ==> b == Batch([], streamID, cursor)
      ensures old(faults) <= faults && (!ok && Listed(snapshot, streamID) ==> old(faults) < faults)
      ensures ok ==> b.resolved != ""
      ensures ok && Listed(snapshot, streamID) ==> ReadStep(snapshot, history, streamID, cursor, b)
    {
      ok, b := false, Batch([], streamID, cursor);
      EvolvesFromItself(history);
      hide Evolves, Valid, Walking, ReadStep, StreamRows, Listed;
      for k := start to |ids|
        invariant Valid(history) && Evolves(old(history), history) && NamesOldest(ids, history)
        invariant Walking(snapshot, history, streamID, cursor, k) && old(faults) <= faults
      {
        ghost var before := history;
        var next := ListEventsFromStreamID(ids[k], 0);
        EvolvesIsTransitive(old(history), before, history);
        NamesOldestStays(ids, before, history);
        WalkingStays(snapshot, before, history, streamID, cursor, k);
        ListedAt(history, k);
        if next.Err? {
          return;
        }
        WalkingReads(snapshot, history, streamID, cursor, k, ids[k]);
        if |next.value| > 0 || ids[k] == current {
          return true, Batch(next.value, ids[k], Past(next.value, 0));
        }
      }
      // an id from outside the session's listing: reading restarts where the current stream does
      WalkedPast(snapshot, history, streamID, cursor, |ids|);
      ghost var walked := history;
      var head := ListEventsFromStreamID(current, 0);
      EvolvesIsTransitive(old(history), walked, history);
      if head.Err? {
        return;
      }
      return true, Batch(head.value, current, Past(head.value, 0));
    }

    /** Events from `since` matching f, and the cursor of the next page. */
    method List(since: int, f: Filter) returns (ok: bool, page: seq<Record>, next: int)
      requires Valid(history)
      modifies this
      ensures Valid(history) && Evolves(old(history), history)
      ensures !ok ==> old(faults) < faults
      ensures ok ==> IsPage(f, CurrentRows(history, since), since, page, next)
    {
      page, next := [], since;
      var read := ListCurrentEventsFrom(if since < 0 then 0 else since);
      if read.Err? {
        return false, [], 0;
      }
      ok := true;
      var all := read.value.0;
      assert all == CurrentRows(history, since);
      hide Select, Matches, Valid, Evolves, CurrentRows, IsPage, Past;
      NothingListed(f, all, since);
      for i := 0 to |all|
        modifies {}
        invariant page == Select(f, all[..i]) && next == Past(all[..i], since)
        invariant f.limit > 0 ==> |page| < f.limit
      {
        next := all[i].sequence + 1;
        ListedOneMore(f, all, i, since);
        var chosen := Match(f, all[i].event);
        if !chosen {
          continue;
        }
        page := page + [all[i]];
        if f.limit > 0 && |page| >= f.limit {
          PageEnds(f, all, since, page, next, i + 1);
          return;
        }
      }
      assert all[..|all|] == all;
      PageEnds(f, all, since, page, next, |all|);
    }

    /** The end of the selection: its last `limit` records, or all of it without a positive limit. */
    method Tail(f: Filter, limit: int) returns (ok: bool, ring: seq<Record>)
      requires Valid(history)
      modifies this
      ensures Valid(history) && Evolves(old(history), history)
      ensures !ok ==> old(faults) < faults
      ensures ok ==> ring == LastN(Select(f, CurrentRows(history, 0)), limit)
    {
      ring := [];
      var read := ListCurrentEventsFrom(0);
      if read.Err? {
        return false, [];
      }
      ok := true;
      var all := read.value.0;
      hide Select, Matches, Valid, Evolves, LastN, CurrentRows;
      NothingSelected(f, all);
      NothingKept(limit);
      for i := 0 to |all|
        modifies {}
        invariant ring == LastN(Select(f, all[..i]), limit)
      {
        SelectSnoc(f, all, i);
        var chosen := Match(f, all[i].event);
        if !chosen {
          continue;
        }
        LastNSnoc(Select(f, all[..i]), all[i], limit);
        if limit > 0 && |ring| == limit {
          ring := ring[1..] + [all[i]];
        } else {
          ring := ring + [all[i]];
        }
      }
      assert all[..|all|] == all;
    }

    /** The sequence of the first record of Tail(f, n), or 0 when the selection is shorter. */
    method TailOffset(f: Filter, n: int) returns (ok: bool, offset: int)
      requires Valid(history)
      modifies this
      ensures Valid(history) && Evolves(old(history), history)
      ensures old(faults) <= faults && (!ok ==> old(faults) < faults)
      ensures ok && history.live ==> offset == TailStart(f, Newest(history), n)
      ensures ok && !history.live ==> offset == 0
    {
      if n <= 0 {
        Interfere();
        return true, 0;
      }
      var read := ListCurrentEventsFrom(0);
      if read.Err? {
        return false, 0;
      }
      var all := read.value.0;
      hide Valid, Evolves, Select, RowsFrom;
      assert history.live ==> all == RowsFrom(Newest(history), 0);
      var ring := LastSequences(f, all, n);
      if |ring| < n {
        return true, 0;
      }
      return true, ring[0];
    }
  }
}
