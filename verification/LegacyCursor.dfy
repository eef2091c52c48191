/**
 * Reading a legacy log.jsonl byte by byte and translating its consumers' byte offsets into
 * sequence numbers, so that what was unread stays unread (app/internal/legacyimport/eventlog.go).
 */
module LegacyCursor {
  import opened Wrappers

  newtype Byte = b: int | 0 <= b < 256

  const NEWLINE: Byte := 10

  const INTERNAL := "internal"

  /** A decoded record; the line format itself is the JSON library's business. */
  datatype Record = Record(id: string, sessionName: string, direction: string, body: string)

  type Decoder = seq<Byte> -> Option<Record>

  datatype Imported = Imported(events: seq<Record>, lineEnds: seq<nat>, backfilled: nat)

  // ---- lines --------------------------------------------------------------------------------

  /** ReadBytes: how many bytes up to and including the next newline, or up to the end. */
  function Chunk(data: seq<Byte>): (n: nat)
    ensures n <= |data|
    ensures n > 0 ==> NEWLINE !in data[..n - 1]
    ensures n < |data| ==> n > 0 && data[n - 1] == NEWLINE
  {
    if data == [] then 0
    else if data[0] == NEWLINE then 1
    else
      var n := Chunk(data[1..]);
      assert n > 0 ==> data[..n] == [data[0]] + data[1..][..n - 1];
      n + 1
  }

  predicate Complete(line: seq<Byte>) {
    line != [] && line[|line| - 1] == NEWLINE
  }

  /** The complete lines without their newlines; a trailing partial line is dropped. */
  ghost function Lines(data: seq<Byte>): seq<seq<Byte>> {
    var n := Chunk(data);
    if !Complete(data[..n]) then [] else [data[..n - 1]] + Lines(data[n..])
  }

  /** Where each complete line ends, counted from `at`. */
  ghost function Ends(data: seq<Byte>, at: nat): (ends: seq<nat>)
    ensures |ends| == |Lines(data)|
  {
    var n := Chunk(data);
    if !Complete(data[..n]) then [] else [at + n] + Ends(data[n..], at + n)
  }

  /** Within the first chunk, only its own end follows a newline. */
  lemma {:induction false} ChunkEnds(data: seq<Byte>, p: nat)
    requires 0 < p <= Chunk(data)
    ensures data[p - 1] == NEWLINE <==> p == Chunk(data) && Complete(data[..Chunk(data)])
  {
    var n := Chunk(data);
    if p < n {
      assert data[..n - 1][p - 1] == data[p - 1];
    }
  }

  lemma {:induction false} FirstLine(data: seq<Byte>, at: nat)
    ensures var n := Chunk(data);
            if Complete(data[..n])
            then
              && n > 0 && Lines(data) == [data[..n - 1]] + Lines(data[n..])
              && Ends(data, at) == [at + n] + Ends(data[n..], at + n)
            else n == |data| && Lines(data) == [] && Ends(data, at) == []
  {
  }

  /** Line ends are exactly the offsets just after a newline. */
  lemma {:induction false} EndsFollowNewlines(data: seq<Byte>, at: nat, p: nat)
    ensures at + p in Ends(data, at) <==> 0 < p <= |data| && data[p - 1] == NEWLINE
    decreases |data|
  {
    hide Chunk, Ends, Lines, Complete;
    var n := Chunk(data);
    FirstLine(data, at);
    EndsAscend(data[n..], at + n);
    if 0 < p <= n {
      ChunkEnds(data, p);
    } else if p > n && Complete(data[..n]) {
      EndsFollowNewlines(data[n..], at + n, p - n);
      assert p <= |data| ==> data[n..][p - n - 1] == data[p - 1];
    }
  }

  lemma {:induction false} EndsAscend(data: seq<Byte>, at: nat)
    ensures forall i :: 0 <= i < |Ends(data, at)| ==> at < Ends(data, at)[i] <= at + |data|
    ensures forall i, j :: 0 <= i < j < |Ends(data, at)| ==> Ends(data, at)[i] < Ends(data, at)[j]
    decreases |data|
  {
    hide Chunk, Ends, Lines, Complete;
    var n := Chunk(data);
    FirstLine(data, at);
    if Complete(data[..n]) {
      EndsAscend(data[n..], at + n);
    }
  }

  /** A line is the bytes from the end of the one before it up to its own newline. */
  lemma {:induction false} LineIs(data: seq<Byte>, at: nat, i: nat)
    requires i < |Lines(data)|
    ensures var from, to := if i == 0 then at else Ends(data, at)[i - 1], Ends(data, at)[i];
            && at <= from < to <= at + |data|
            && Lines(data)[i] == data[from - at..to - at - 1] && NEWLINE !in Lines(data)[i]
    decreases |data|
  {
    hide Chunk, Ends, Lines, Complete;
    var n := Chunk(data);
    FirstLine(data, at);
    EndsAscend(data, at);
    if i > 0 {
      LineIs(data[n..], at + n, i - 1);
      assert Lines(data)[i] == Lines(data[n..])[i - 1] && Ends(data, at)[i] == Ends(data[n..], at + n)[i - 1];
      var from, to := Ends(data, at)[i - 1], Ends(data, at)[i];
      assert i > 1 ==> from == Ends(data[n..], at + n)[i - 2];
      assert data[n..][from - at - n..to - at - n - 1] == data[from - at..to - at - 1];
    }
  }

  /** Reading on from the end of line i finds exactly the lines after it. */
  lemma {:induction false} LinesAfter(data: seq<Byte>, at: nat, i: nat)
    requires i < |Ends(data, at)|
    ensures at <= Ends(data, at)[i] <= at + |data|
    ensures Lines(data[Ends(data, at)[i] - at..]) == Lines(data)[i + 1..]
    decreases |data|
  {
    hide Chunk, Ends, Lines, Complete;
    var n := Chunk(data);
    FirstLine(data, at);
    EndsAscend(data, at);
    if i == 0 {
      assert Lines(data)[1..] == Lines(data[n..]);
    } else {
      LinesAfter(data[n..], at + n, i - 1);
      var end := Ends(data, at)[i] - at;
      assert Ends(data, at)[i] == Ends(data[n..], at + n)[i - 1];
      assert data[end..] == data[n..][end - n..];
      assert Lines(data)[i + 1..] == Lines(data[n..])[i..];
    }
  }

  // ---- import ---------------------------------------------------------------------------------

  const NO_RECORD := Record("", "", "", "")

  ghost function Parsed(decode: Decoder, line: seq<Byte>): Record {
    if decode(line).Some? then decode(line).value else NO_RECORD
  }

  ghost predicate Valid(decode: Decoder, session: string, line: seq<Byte>) {
    decode(line).Some? && Parsed(decode, line).id != "" && Parsed(decode, line).sessionName == session
  }

  /** Every line is a record of the session, each with its own id. */
  ghost predicate Importable(decode: Decoder, session: string, lines: seq<seq<Byte>>) {
    && (forall i :: 0 <= i < |lines| ==> Valid(decode, session, lines[i]))
    && (forall i, j :: 0 <= i < j < |lines| ==> Parsed(decode, lines[i]).id != Parsed(decode, lines[j]).id)
  }

  /** A record without a direction is imported as internal. */
  ghost function Backfilled(record: Record): Record {
    if record.direction == "" then record.(direction := INTERNAL) else record
  }

  /** The events of the lines, one for one. */
  ghost function EventsOf(decode: Decoder, lines: seq<seq<Byte>>): (events: seq<Record>)
    ensures |events| == |lines|
    ensures forall i :: 0 <= i < |lines| ==> events[i] == Backfilled(Parsed(decode, lines[i]))
  {
    seq(|lines|, i requires 0 <= i < |lines| => Backfilled(Parsed(decode, lines[i])))
  }

  ghost function Undirected(decode: Decoder, lines: seq<seq<Byte>>): nat {
    if lines == [] then 0
    else Undirected(decode, lines[..|lines| - 1]) +
         if Parsed(decode, lines[|lines| - 1]).direction == "" then 1 else 0
  }

  /** What the loop holds after some lines. */
  ghost predicate Holds(decode: Decoder, session: string, lines: seq<seq<Byte>>, seen: set<string>, events: seq<Record>,
                        backfilled: nat) {
    && Importable(decode, session, lines)
    && events == EventsOf(decode, lines)
    && backfilled == Undirected(decode, lines)
    && (forall id :: id in seen <==> exists i :: 0 <= i < |lines| && Parsed(decode, lines[i]).id == id)
  }

  lemma {:induction false} HoldsMore(decode: Decoder, session: string, lines: seq<seq<Byte>>, seen: set<string>,
                                     events: seq<Record>, backfilled: nat, line: seq<Byte>)
    requires Holds(decode, session, lines, seen, events, backfilled)
    ensures var record := Parsed(decode, line);
            if Valid(decode, session, line) && record.id !in seen
            then Holds(decode, session, lines + [line], seen + {record.id}, events + [Backfilled(record)],
                       backfilled + if record.direction == "" then 1 else 0)
            else !Importable(decode, session, lines + [line])
  {
    hide Backfilled, Parsed, Valid;
    var more, record := lines + [line], Parsed(decode, line);
    assert more[..|lines|] == lines && more[|lines|] == line;
    if Valid(decode, session, line) {
      if record.id in seen {
        var i :| 0 <= i < |lines| && Parsed(decode, lines[i]).id == record.id;
        assert more[i] == lines[i];
      } else {
        forall id ensures id in seen + {record.id} <==>
          exists i :: 0 <= i < |more| && Parsed(decode, more[i]).id == id {
          if id in seen {
            var i :| 0 <= i < |lines| && Parsed(decode, lines[i]).id == id;
            assert more[i] == lines[i];
          }
        }
      }
    }
  }

  lemma {:induction false} HoldsNothing(decode: Decoder, session: string)
    ensures Holds(decode, session, [], {}, [], 0)
  {
  }

  lemma {:induction false} PrefixFails(decode: Decoder, session: string, lines: seq<seq<Byte>>, k: nat)
    requires k <= |lines| && !Importable(decode, session, lines[..k])
    ensures !Importable(decode, session, lines)
  {
  }

  /** Cutting off at a position that leaves the lines read so far and those still to come. */
  ghost predicate ReadUpTo(data: seq<Byte>, pos: nat, k: nat)
    requires pos <= |data|
  {
    && k <= |Lines(data)|
    && Lines(data)[k..] == Lines(data[pos..])
    && Ends(data, 0)[k..] == Ends(data[pos..], pos)
  }

  lemma {:induction false} ReadOneMore(data: seq<Byte>, pos: nat, k: nat)
    requires pos <= |data| && ReadUpTo(data, pos, k) && Complete(data[pos..][..Chunk(data[pos..])])
    ensures var n := Chunk(data[pos..]);
            && n > 0 && pos + n <= |data| && k < |Lines(data)|
            && Lines(data)[k] == data[pos..][..n - 1] && Ends(data, 0)[k] == pos + n
            && ReadUpTo(data, pos + n, k + 1)
  {
    hide Chunk, Ends, Lines, Complete;
    var n := Chunk(data[pos..]);
    FirstLine(data[pos..], pos);
    assert data[pos..][n..] == data[pos + n..];
    assert Lines(data)[k..][1..] == Lines(data)[k + 1..];
    assert Ends(data, 0)[k..][1..] == Ends(data, 0)[k + 1..];
    assert Lines(data)[k] == Lines(data)[k..][0];
    assert Ends(data, 0)[k] == Ends(data, 0)[k..][0];
  }

  /** readLegacyLog: all complete lines, or an error at the first one that must not be imported. */
  method ReadLegacyLog(data: seq<Byte>, session: string, decode: Decoder) returns (r: Result<Imported>)
    ensures r.Ok? <==> Importable(decode, session, Lines(data))
    ensures r.Ok? ==>
              && r.value.events == EventsOf(decode, Lines(data))
              && r.value.lineEnds == Ends(data, 0)
              && r.value.backfilled == Undirected(decode, Lines(data))
  {
    hide Chunk, Lines, Ends, ReadUpTo, Holds, Importable;
    var seen: set<string> := {};
    var pos: nat, events: seq<Record>, lineEnds: seq<nat>, backfilled: nat := 0, [], [], 0;
    ghost var all, k := Lines(data), 0;
    StartReading(data);
    HoldsNothing(decode, session);
    while true
      invariant pos <= |data| && ReadUpTo(data, pos, k) && k <= |all|
      invariant Holds(decode, session, all[..k], seen, events, backfilled)
      invariant lineEnds == Ends(data, 0)[..k]
      decreases |data| - pos
    {
      var n := Chunk(data[pos..]);
      var line := data[pos..][..n];
      if !Complete(line) {
        NothingMore(data, pos, k);
        assert all[..k] == all && Ends(data, 0)[..k] == Ends(data, 0);
        HoldsAll(decode, session, all, seen, events, backfilled);
        return Ok(Imported(events, lineEnds, backfilled));
      }
      ReadOneMore(data, pos, k);
      assert line[..n - 1] == all[k];
      HoldsMore(decode, session, all[..k], seen, events, backfilled, all[k]);
      assert all[..k + 1] == all[..k] + [all[k]];
      var decoded := decode(line[..n - 1]);
      if decoded.None? || decoded.value.id == "" || decoded.value.id in seen || decoded.value.sessionName != session {
        PrefixFails(decode, session, all, k + 1);
        return Err("malformed, without id, duplicate or of another session");
      }
      var record := decoded.value;
      seen := seen + {record.id};
      if record.direction == "" {
        record := record.(direction := INTERNAL);
        backfilled := backfilled + 1;
      }
      assert record == Backfilled(decoded.value);
      events := events + [record];
      assert Ends(data, 0)[..k + 1] == Ends(data, 0)[..k] + [pos + n];
      lineEnds := lineEnds + [pos + n];
      pos := pos + n;
      k := k + 1;
    }
  }

  lemma {:induction false} HoldsAll(decode: Decoder, session: string, lines: seq<seq<Byte>>, seen: set<string>,
                                    events: seq<Record>, backfilled: nat)
    requires Holds(decode, session, lines, seen, events, backfilled)
    ensures Importable(decode, session, lines) && events == EventsOf(decode, lines)
    ensures backfilled == Undirected(decode, lines)
  {
  }

  lemma {:induction false} StartReading(data: seq<Byte>)
    ensures ReadUpTo(data, 0, 0)
  {
    assert data[0..] == data;
  }

  lemma {:induction false} NothingMore(data: seq<Byte>, pos: nat, k: nat)
    requires pos <= |data| && ReadUpTo(data, pos, k) && !Complete(data[pos..][..Chunk(data[pos..])])
    ensures k == |Lines(data)| && |Ends(data, 0)| == k
  {
  }

  // ---- cursors --------------------------------------------------------------------------------

  /** The sequence an offset denotes: one past the lines that end at or before it. */
  ghost predicate Denotes(lineEnds: seq<nat>, offset: int, next: nat) {
    if offset == 0 then next == 1
    else 2 <= next < |lineEnds| + 2 && lineEnds[next - 2] == offset
  }

  /** Translate: 0 is the first sequence; a line's end is the sequence after that line's. */
  method Translate(lineEnds: seq<nat>, offset: int) returns (next: nat, ok: bool)
    ensures ok <==> offset == 0 || (offset > 0 && offset in lineEnds)
    ensures ok ==> Denotes(lineEnds, offset, next)
    ensures !ok ==> next == 0
  {
    if offset == 0 {
      return 1, true;
    }
    if offset < 0 {
      return 0, false;
    }
    for i := 0 to |lineEnds|
      invariant forall j :: 0 <= j < i ==> lineEnds[j] != offset
    {
      if lineEnds[i] == offset {
        return i + 2, true;
      }
    }
    return 0, false;
  }

  /** The offsets that can be translated are 0 and those just after a newline. */
  lemma {:induction false} OnlyLineEndsTranslate(data: seq<Byte>, offset: nat)
    ensures offset == 0 || offset in Ends(data, 0) <==>
            offset == 0 || (offset <= |data| && data[offset - 1] == NEWLINE)
  {
    EndsFollowNewlines(data, 0, offset);
  }

  /** Further on in the file is further on in the sequence. */
  lemma {:induction false} TranslationAscends(data: seq<Byte>, a: nat, b: nat, nextA: nat, nextB: nat)
    requires Denotes(Ends(data, 0), a, nextA) && Denotes(Ends(data, 0), b, nextB)
    ensures a < b <==> nextA < nextB
    ensures a == b <==> nextA == nextB
  {
    EndsAscend(data, 0);
    hide Ends;
  }

  /**
   * The cutover keeps the unread suffix: what the legacy reader would still have read from an
   * offset is exactly the imported events from the translated sequence on.
   */
  lemma {:induction false} UnreadSuffixIsKept(data: seq<Byte>, decode: Decoder, offset: nat, next: nat)
    requires Denotes(Ends(data, 0), offset, next)
    ensures offset <= |data| && 1 <= next <= |Lines(data)| + 1
    ensures EventsOf(decode, Lines(data[offset..])) == EventsOf(decode, Lines(data))[next - 1..]
  {
    hide Ends, Lines;
    if offset == 0 {
      assert data[0..] == data;
    } else {
      LinesAfter(data, 0, next - 2);
    }
  }
}
