/**
 * The lines of a response (contracts/event/client.go, streamOnce): the scan that reads them one by
 * one, and what it makes of a response that breaks off after any line.
 */
module ResponseScan {
  import opened Wrappers
  import opened Events
  import opened Incarnations
  import opened EventStore
  import opened SessionHub
  import opened LiveLoop
  import opened ReplayLoop
  import opened EventBus
  import ResumeToken
  import Decimal

  // ---- reading a response -----------------------------------------------------------------

  /** A line of the response; a frame is three of them. */
  datatype Line = IdLine(token: string) | DataLine(data: Event) | BlankLine

  /** One callback: the event, and the sequence to resume at after it. */
  datatype Delivery = Delivery(event: Event, resume: int)

  function LinesOf(frames: seq<Sse>): (lines: seq<Line>)
    ensures |lines| == 3 * |frames|
    decreases |frames|
  {
    if frames == [] then []
    else [IdLine(frames[0].id), DataLine(frames[0].data), BlankLine] + LinesOf(frames[1..])
  }

  /** The position after an id line: one that does not parse is passed over. */
  function Moved(at: Position, token: string): Position {
    match ResumeToken.Parse(token)
    case Some(p) => Position(p.0, p.1)
    case None => at
  }

  /** The scanner's state: its position, the data lines since the last blank one, the callbacks made. */
  datatype Scan = Scan(at: Position, pending: seq<Event>, calls: seq<Delivery>)

  /** A blank line dispatches what came before it, if that is one JSON document. */
  ghost function Took(s: Scan, line: Line): Scan {
    match line
    case IdLine(token) => s.(at := Moved(s.at, token))
    case DataLine(data) => s.(pending := s.pending + [data])
    case BlankLine =>
      Scan(s.at, [], if |s.pending| == 1 then s.calls + [Delivery(s.pending[0], s.at.cursor)] else s.calls)
  }

  ghost function Scanned(s: Scan, lines: seq<Line>): Scan
    decreases |lines|
  {
    if lines == [] then s else Scanned(Took(s, lines[0]), lines[1..])
  }

  /** The scanning loop. */
  method Dispatch(lines: seq<Line>, at: Position) returns (next: Position, calls: seq<Delivery>)
    ensures next == Scanned(Scan(at, [], []), lines).at && calls == Scanned(Scan(at, [], []), lines).calls
  {
    var pending: seq<Event> := [];
    next, calls := at, [];
    for i := 0 to |lines|
      invariant Scanned(Scan(next, pending, calls), lines[i..]) == Scanned(Scan(at, [], []), lines)
    {
      assert lines[i..][1..] == lines[i + 1..];
      match lines[i] {
        case BlankLine =>
          if |pending| == 0 {
            continue;
          }
          if |pending| == 1 {
            calls := calls + [Delivery(pending[0], next.cursor)];
          }
          pending := [];
        case IdLine(token) =>
          var position := ResumeToken.Parse(token);
          if position.Some? {
            next := Position(position.value.0, position.value.1);
          }
        case DataLine(data) =>
          pending := pending + [data];
      }
    }
  }

  /** Where a reader of whole frames stands, and the callbacks it has made. */
  ghost function Stands(at: Position, frames: seq<Sse>): Position
    decreases |frames|
  {
    if frames == [] then at else Stands(Moved(at, frames[0].id), frames[1..])
  }

  ghost function CallsOf(at: Position, frames: seq<Sse>): seq<Delivery>
    decreases |frames|
  {
    if frames == [] then []
    else
      var next := Moved(at, frames[0].id);
      [Delivery(frames[0].data, next.cursor)] + CallsOf(next, frames[1..])
  }

  /**
   * Cut after any line, a response has moved the position past every frame whose id line
   * came, but only the frames that came whole were handed on.
   */
  lemma {:induction false} CutResponse(s: Scan, frames: seq<Sse>, n: nat)
    requires s.pending == [] && n <= 3 * |frames|
    ensures Scanned(s, LinesOf(frames)[..n]).at == Stands(s.at, frames[..(n + 2) / 3])
    ensures Scanned(s, LinesOf(frames)[..n]).calls == s.calls + CallsOf(s.at, frames[..n / 3])
  {
    hide Scanned, LinesOf, Stands, CallsOf;
    CutAfter(s, frames, n / 3, n % 3);
  }

  /** The same, cut r lines into the frame after the first m. */
  lemma {:induction false} CutAfter(s: Scan, frames: seq<Sse>, m: nat, r: nat)
    requires s.pending == [] && r < 3 && 3 * m + r <= 3 * |frames|
    ensures Scanned(s, LinesOf(frames)[..3 * m + r]).at == Stands(s.at, frames[..if r == 0 then m else m + 1])
    ensures Scanned(s, LinesOf(frames)[..3 * m + r]).calls == s.calls + CallsOf(s.at, frames[..m])
    decreases m
  {
    hide Scanned, LinesOf, Moved, Stands, CallsOf;
    if m > 0 {
      WholeFrame(s, frames, 3 * m + r);
      var next := Moved(s.at, frames[0].id);
      var call := [Delivery(frames[0].data, next.cursor)];
      CutAfter(Scan(next, [], s.calls + call), frames[1..], m - 1, r);
      OneFrameMore(s.at, frames, if r == 0 then m else m + 1);
      OneFrameMore(s.at, frames, m);
      ConcatIsAssociative(s.calls, call, CallsOf(next, frames[1..][..m - 1]));
    } else {
      PartFrame(s, frames, r);
    }
  }

  lemma {:induction false} OneFrameMore(at: Position, frames: seq<Sse>, n: nat)
    requires 0 < n <= |frames|
    ensures var next := Moved(at, frames[0].id);
            && Stands(at, frames[..n]) == Stands(next, frames[1..][..n - 1])
            && CallsOf(at, frames[..n]) == [Delivery(frames[0].data, next.cursor)] + CallsOf(next, frames[1..][..n - 1])
  {
    assert frames[..n][1..] == frames[1..][..n - 1];
  }

  lemma {:induction false} WholeFrame(s: Scan, frames: seq<Sse>, n: nat)
    requires s.pending == [] && 3 <= n <= 3 * |frames|
    ensures var next := Moved(s.at, frames[0].id);
            Scanned(s, LinesOf(frames)[..n]) ==
            Scanned(Scan(next, [], s.calls + [Delivery(frames[0].data, next.cursor)]), LinesOf(frames[1..])[..n - 3])
  {
    var lines := LinesOf(frames)[..n];
    var rest := LinesOf(frames[1..])[..n - 3];
    assert lines == [IdLine(frames[0].id), DataLine(frames[0].data), BlankLine] + rest;
    assert lines[1..] == [DataLine(frames[0].data), BlankLine] + rest;
    assert lines[1..][1..] == [BlankLine] + rest;
    assert lines[1..][1..][1..] == rest;
    hide LinesOf, Moved;
    var one := Took(s, lines[0]);
    assert Scanned(s, lines) == Scanned(one, lines[1..]);
    var two := Took(one, lines[1]);
    assert Scanned(one, lines[1..]) == Scanned(two, lines[1..][1..]);
    assert Scanned(two, lines[1..][1..]) == Scanned(Took(two, lines[2]), rest);
  }

  lemma {:induction false} PartFrame(s: Scan, frames: seq<Sse>, r: nat)
    requires s.pending == [] && r < 3 && r <= 3 * |frames|
    ensures Scanned(s, LinesOf(frames)[..r]).at == Stands(s.at, frames[..if r == 0 then 0 else 1])
    ensures Scanned(s, LinesOf(frames)[..r]).calls == s.calls + CallsOf(s.at, frames[..0])
  {
    if r > 0 {
      var lines := LinesOf(frames)[..r];
      assert lines[0] == IdLine(frames[0].id) && (r == 2 ==> lines[1] == DataLine(frames[0].data));
      var moved := Took(s, lines[0]);
      if r == 2 {
        assert Scanned(moved, lines[1..]) == Took(moved, lines[1]);
      }
      OneFrameMore(s.at, frames, 1);
    }
  }

  // ---- what a subscriber is owed ----------------------------------------------------------

  ghost function DeliveryOf(r: Record): Delivery {
    Delivery(r.event, r.sequence + 1)
  }

  ghost function DeliveriesOf(rows: seq<Record>): (ds: seq<Delivery>)
    ensures |ds| == |rows| && forall i :: 0 <= i < |ds| ==> ds[i] == DeliveryOf(rows[i])
  {
    seq(|rows|, i requires 0 <= i < |rows| => DeliveryOf(rows[i]))
  }

  /** The callbacks a subscriber is owed for the records it has passed. */
  ghost function Owed(f: Filter, seen: seq<Record>): seq<Delivery> {
    DeliveriesOf(Select(f, seen))
  }

  lemma {:induction false} OwedConcat(f: Filter, a: seq<Record>, b: seq<Record>)
    ensures Owed(f, a + b) == Owed(f, a) + Owed(f, b)
  {
    SelectConcat(f, a, b);
  }

  /** The callbacks are the ones owed, in order, but for `lost` of them that were never made. */
  ghost predicate AllBut(owed: seq<Delivery>, calls: seq<Delivery>, lost: nat)
    decreases |owed|
  {
    if owed == [] then calls == [] && lost == 0
    else
      var last := |owed| - 1;
      || (calls != [] && calls[|calls| - 1] == owed[last] && AllBut(owed[..last], calls[..|calls| - 1], lost))
      || (lost > 0 && AllBut(owed[..last], calls, lost - 1))
  }

  lemma {:induction false} AllButNone(owed: seq<Delivery>)
    ensures AllBut(owed, owed, 0)
  {
    if owed != [] {
      AllButNone(owed[..|owed| - 1]);
    }
  }

  lemma {:induction false} AllButLast(owed: seq<Delivery>)
    requires owed != []
    ensures AllBut(owed, owed[..|owed| - 1], 1)
  {
    AllButNone(owed[..|owed| - 1]);
  }

  lemma {:induction false} AllButConcat(a: seq<Delivery>, b: seq<Delivery>, m: nat, a': seq<Delivery>,
                                        b': seq<Delivery>, n: nat)
    requires AllBut(a, b, m) && AllBut(a', b', n)
    ensures AllBut(a + a', b + b', m + n)
    decreases |a'|
  {
    if a' == [] {
      assert a + a' == a && b + b' == b;
    } else {
      var last := |a'| - 1;
      assert (a + a')[..|a + a'| - 1] == a + a'[..last];
      if b' != [] && b'[|b'| - 1] == a'[last] && AllBut(a'[..last], b'[..|b'| - 1], n) {
        AllButConcat(a, b, m, a'[..last], b'[..|b'| - 1], n);
        assert (b + b')[..|b + b'| - 1] == b + b'[..|b'| - 1];
      } else {
        AllButConcat(a, b, m, a'[..last], b', n - 1);
      }
    }
  }

  /** Nothing is missing exactly when nothing was lost. */
  lemma {:induction false} AllButCounts(owed: seq<Delivery>, calls: seq<Delivery>, lost: nat)
    requires AllBut(owed, calls, lost)
    ensures |calls| + lost == |owed| && (calls == owed <==> lost == 0)
    decreases |owed|
  {
    if owed != [] {
      var last := |owed| - 1;
      if calls != [] && calls[|calls| - 1] == owed[last] && AllBut(owed[..last], calls[..|calls| - 1], lost) {
        AllButCounts(owed[..last], calls[..|calls| - 1], lost);
        assert owed == owed[..last] + [owed[last]] && calls == calls[..|calls| - 1] + [calls[|calls| - 1]];
      } else {
        AllButCounts(owed[..last], calls, lost - 1);
      }
    }
  }

  /** Frames whose ids parse to the place after their record are handed on with that place. */
  lemma {:induction false} FramesAreDelivered(at: Position, rows: seq<Record>)
    requires forall i :: 0 <= i < |rows| ==>
               ResumeToken.Parse(SseOf(rows[i]).id) == Some((rows[i].stream, rows[i].sequence + 1))
    ensures CallsOf(at, SseFrames(rows)) == DeliveriesOf(rows)
    ensures rows != [] ==>
              Stands(at, SseFrames(rows)) == Position(rows[|rows| - 1].stream, rows[|rows| - 1].sequence + 1)
    decreases |rows|
  {
    hide ResumeToken.Parse, ResumeToken.Encode, SseOf;
    if rows != [] {
      var next := Moved(at, SseOf(rows[0]).id);
      assert SseFrames(rows)[1..] == SseFrames(rows[1..]);
      assert SseOf(rows[0]).data == rows[0].event by { DataOf(rows[0]); }
      FramesAreDelivered(next, rows[1..]);
      assert DeliveriesOf(rows) == [DeliveryOf(rows[0])] + DeliveriesOf(rows[1..]);
      assert |rows| == 1 ==> SseFrames(rows[1..]) == [];
    }
  }

  lemma {:induction false} DataOf(r: Record)
    ensures SseOf(r).data == r.event
  {
  }

  lemma {:induction false} SelectedIsListed(h: History, f: Filter, rows: seq<Record>)
    requires Valid(h) && forall k :: 0 <= k < |rows| ==>
               Listed(h, rows[k].stream) && 1 <= rows[k].sequence < MAX_SEQUENCE
    ensures IdsParse(f, rows)
  {
    hide Valid, Listed, Matches, ResumeToken.Parse, ResumeToken.Encode, SseOf;
    if rows != [] {
      SelectedIsListed(h, f, rows[1..]);
      IdOfRecord(h, rows[0]);
      assert Select(f, rows) == (if Matches(f, rows[0].event) then [rows[0]] else []) + Select(f, rows[1..]);
    }
  }

  /** The first a frames of an exact connection, d of them dispatched: callbacks owed for the records behind them. */
  lemma {:induction false} FramesCarryOn(h: History, f: Filter, origin: Position, passed: seq<Record>, at: Position,
                                         a: nat, d: nat)
    returns (k: nat, next: Position)
    requires Valid(h) && passed <= UnreadFrom(h, origin) && 0 < a <= |Written(f, passed)| && d <= a
    ensures k < |passed| && next == Position(passed[k].stream, passed[k].sequence + 1)
    ensures Between(h, origin, passed[..k + 1], next) && Listed(h, next.stream)
    ensures ':' !in next.stream && next.stream != "" && Decimal.IsInt64(next.cursor)
    ensures Stands(at, Written(f, passed)[..a]) == next
    ensures |Owed(f, passed[..k + 1])| == a
    ensures CallsOf(at, Written(f, passed)[..d]) == Owed(f, passed[..k + 1])[..d]
    ensures ResumeToken.Parse(Written(f, passed)[a - 1].id) == Some((next.stream, next.cursor))
  {
    hide UnreadFrom, Between, Valid, Listed, ResumeToken.Parse, ResumeToken.Encode, SseOf, Stands, CallsOf, Select;
    hide Written, Owed;
    k, next := FrameIdResumes(h, f, origin, passed, a - 1);
    SelectedIdsParse(h, f, origin, passed);
    FramesStand(f, passed, at, a, k);
    FramesCalled(f, passed, at, a, k, d);
  }

  /** Each selected record's frame has an id that parses to the place after it. */
  ghost predicate IdsParse(f: Filter, rows: seq<Record>) {
    forall i :: 0 <= i < |Select(f, rows)| ==>
      ResumeToken.Parse(SseOf(Select(f, rows)[i]).id) ==
      Some((Select(f, rows)[i].stream, Select(f, rows)[i].sequence + 1))
  }

  lemma {:induction false} SelectedIdsParse(h: History, f: Filter, origin: Position, passed: seq<Record>)
    requires Valid(h) && passed <= UnreadFrom(h, origin)
    ensures IdsParse(f, passed)
  {
    hide UnreadFrom, Valid, Listed, ResumeToken.Parse, ResumeToken.Encode, SseOf, Select;
    forall i | 0 <= i < |passed| ensures Listed(h, passed[i].stream) && 1 <= passed[i].sequence < MAX_SEQUENCE {
      PassedIsListed(h, origin, passed, i);
    }
    SelectedIsListed(h, f, passed);
  }

  lemma {:induction false} FramesStand(f: Filter, passed: seq<Record>, at: Position, a: nat, k: nat)
    requires k < |passed| && 0 < a <= |Written(f, passed)| && Written(f, passed[..k + 1]) == Written(f, passed)[..a]
    requires Select(f, passed[..k + 1]) == Select(f, passed)[..a] && Select(f, passed)[a - 1] == passed[k]
    requires IdsParse(f, passed)
    ensures Stands(at, Written(f, passed)[..a]) == Position(passed[k].stream, passed[k].sequence + 1)
    ensures |Owed(f, passed[..k + 1])| == a
  {
    hide ResumeToken.Parse, ResumeToken.Encode, SseOf, Stands, CallsOf, Select;
    FramesAreDelivered(at, Select(f, passed[..k + 1]));
  }

  lemma {:induction false} FramesCalled(f: Filter, passed: seq<Record>, at: Position, a: nat, k: nat, d: nat)
    requires k < |passed| && d <= a <= |Written(f, passed)|
    requires Select(f, passed[..k + 1]) == Select(f, passed)[..a] && IdsParse(f, passed)
    ensures CallsOf(at, Written(f, passed)[..d]) == Owed(f, passed[..k + 1])[..d]
  {
    hide ResumeToken.Parse, ResumeToken.Encode, SseOf, Stands, CallsOf, Select;
    var sel := Select(f, passed)[..d];
    FramesAreDelivered(at, sel);
    assert SseFrames(sel) == Written(f, passed)[..d];
    assert DeliveriesOf(sel) == Owed(f, passed[..k + 1])[..d];
  }
}
