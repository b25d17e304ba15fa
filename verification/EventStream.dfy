/**
  The event-stream splitter of the TypeScript SDK, and the frames the server writes for it.

  Chunks cut the stream anywhere. The parser keeps what follows the last blank line, so
  the events it reports do not depend on the cuts.
 */
module EventStream {
  import opened Common
  import opened Splitting

  // ---------- one block of the stream ----------

  predicate StartsWith(line: string, prefix: string) {
    |prefix| <= |line| && line[..|prefix|] == prefix
  }

  function TrimStart(s: string): string {
    if s != [] && IsWhiteSpace(s[0]) then TrimStart(s[1..]) else s
  }

  function TrimEnd(s: string): string {
    if s != [] && IsWhiteSpace(s[|s| - 1]) then TrimEnd(s[..|s| - 1]) else s
  }

  function Trim(s: string): string {
    TrimEnd(TrimStart(s))
  }

  lemma {:induction false} TrimStartMeans(s: string)
    ensures var r := TrimStart(s);
            && |r| <= |s| && r == s[|s| - |r|..] && IsBlank(s[..|s| - |r|])
            && (r != "" ==> !IsWhiteSpace(r[0]))
  {
    if s != [] && IsWhiteSpace(s[0]) {
      TrimStartMeans(s[1..]);
      var n := |s| - |TrimStart(s)|;
      assert s[..n] == [s[0]] + s[1..][..n - 1];
    }
  }

  lemma {:induction false} TrimEndMeans(s: string)
    ensures var r := TrimEnd(s);
            && |r| <= |s| && r == s[..|r|] && IsBlank(s[|r|..])
            && (r != "" ==> !IsWhiteSpace(r[|r| - 1]))
  {
    if s != [] && IsWhiteSpace(s[|s| - 1]) {
      var init := s[..|s| - 1];
      TrimEndMeans(init);
      assert s[|TrimEnd(s)|..] == init[|TrimEnd(s)|..] + [s[|s| - 1]];
    }
  }

  /** Trimming takes away white space at both ends, all of it, and nothing else. */
  lemma TrimMeans(s: string)
    ensures exists i, j :: 0 <= i <= j <= |s| && Trim(s) == s[i..j] && IsBlank(s[..i]) && IsBlank(s[j..])
    ensures Trim(s) != "" ==> !IsWhiteSpace(Trim(s)[0]) && !IsWhiteSpace(Trim(s)[|Trim(s)| - 1])
  {
    var t := TrimStart(s);
    TrimStartMeans(s);
    TrimEndMeans(t);
    var i := |s| - |t|;
    var j := i + |TrimEnd(t)|;
    assert s[i..j] == t[..|TrimEnd(t)|] && s[j..] == t[|TrimEnd(t)|..];
  }

  datatype Fields = Fields(eventType: string, data: string)

  function ReadLine(f: Fields, line: string): Fields {
    if StartsWith(line, "event: ") then f.(eventType := Trim(line[7..]))
    else if StartsWith(line, "data: ") then f.(data := Trim(line[6..]))
    else f
  }

  function ReadLines(f: Fields, lines: seq<string>): Fields
    decreases |lines|
  {
    if lines == [] then f else ReadLines(ReadLine(f, lines[0]), lines[1..])
  }

  predicate IsData(line: string) {
    StartsWith(line, "data: ")
  }

  /** `data` is the last data line, trimmed, or empty if there is none. */
  predicate IsLastData(lines: seq<string>, data: string) {
    && ((forall i :: 0 <= i < |lines| ==> !IsData(lines[i])) ==> data == "")
    && forall k :: 0 <= k < |lines| && IsData(lines[k]) && (forall i :: k < i < |lines| ==> !IsData(lines[i])) ==>
         data == Trim(lines[k][6..])
  }

  /** What the fields say of the data: the last data line, trimmed, or nothing new if there is none. */
  lemma {:induction false} LastDataLine(f: Fields, lines: seq<string>)
    ensures (forall i :: 0 <= i < |lines| ==> !IsData(lines[i])) ==> ReadLines(f, lines).data == f.data
    ensures forall k :: 0 <= k < |lines| && IsData(lines[k]) && (forall i :: k < i < |lines| ==> !IsData(lines[i])) ==>
              ReadLines(f, lines).data == Trim(lines[k][6..])
    decreases |lines|
  {
    if lines != [] {
      var line := lines[0];
      var next := ReadLine(f, line);
      LastDataLine(next, lines[1..]);
      assert forall i :: 0 < i < |lines| ==> lines[i] == lines[1..][i - 1];
      DataIsNoEventLine(f, line);
    }
  }

  /** Likewise the event type is the last event line, trimmed, or empty if there is none. */
  lemma {:induction false} LastEventLine(f: Fields, lines: seq<string>)
    ensures (forall i :: 0 <= i < |lines| ==> !StartsWith(lines[i], "event: ")) ==> ReadLines(f, lines).eventType == f.eventType
    ensures forall k :: 0 <= k < |lines| && StartsWith(lines[k], "event: ")
                        && (forall i :: k < i < |lines| ==> !StartsWith(lines[i], "event: ")) ==>
              ReadLines(f, lines).eventType == Trim(lines[k][7..])
    decreases |lines|
  {
    if lines != [] {
      LastEventLine(ReadLine(f, lines[0]), lines[1..]);
      assert forall i :: 0 < i < |lines| ==> lines[i] == lines[1..][i - 1];
    }
  }

  lemma DataIsNoEventLine(f: Fields, line: string)
    ensures ReadLine(f, line).data == if IsData(line) then Trim(line[6..]) else f.data
  {
    if IsData(line) {
      assert line[0] == line[..6][0] == 'd';
      assert |line| >= 7 ==> line[..7][0] == line[0] && "event: "[0] == 'e';
    }
  }

  /** The block's event: its last data line, if that is not empty and parses. */
  function EventOf<E>(parse: string -> Option<E>, block: string): Option<E> {
    var f := ReadLines(Fields("", ""), Split(block, "\n"));
    if f.data == "" then None else parse(f.data)
  }

  function EventsOf<E>(parse: string -> Option<E>, blocks: seq<string>): seq<E> {
    if blocks == [] then []
    else (if EventOf(parse, blocks[0]).Some? then [EventOf(parse, blocks[0]).value] else []) + EventsOf(parse, blocks[1..])
  }

  // ---------- feeding chunks ----------

  const BLANK_LINE := "\n\n"

  datatype Fed<E> = Fed(events: seq<E>, buffer: string)

  function Feed<E>(parse: string -> Option<E>, buffer: string, chunk: string): Fed<E> {
    var parts := Split(buffer + chunk, BLANK_LINE);
    Fed(EventsOf(parse, Init(parts)), Last(parts))
  }

  function FeedAll<E>(parse: string -> Option<E>, buffer: string, chunks: seq<string>): Fed<E>
    decreases |chunks|
  {
    if chunks == [] then Fed([], buffer)
    else
      var first := Feed(parse, buffer, chunks[0]);
      var rest := FeedAll(parse, first.buffer, chunks[1..]);
      Fed(first.events + rest.events, rest.buffer)
  }

  function Flatten(chunks: seq<string>): string {
    if chunks == [] then "" else chunks[0] + Flatten(chunks[1..])
  }

  /**
    The parser object: the captured buffer, and the loops over blocks and lines. When the data
    does not parse, the source parses the same text once more before it skips the block;
    parsing is a function of the text, so that adds nothing and is not repeated here.
   */
  class Parser<E> {
    const parse: string -> Option<E>
    var buffer: string

    constructor (parse: string -> Option<E>)
      ensures this.parse == parse && buffer == ""
    {
      this.parse := parse;
      buffer := "";
    }

    method ParseSSE(chunk: string) returns (events: seq<E>)
      modifies this
      ensures Fed(events, buffer) == Feed(parse, old(buffer), chunk)
    {
      buffer := buffer + chunk;
      var parts := Split(buffer, BLANK_LINE);
      buffer := parts[|parts| - 1];
      events := EventsIn(parts[..|parts| - 1]);
    }

    method EventsIn(blocks: seq<string>) returns (events: seq<E>)
      ensures events == EventsOf(parse, blocks)
    {
      NoBlocks(parse, blocks);
      hide Split, ReadLines, EventsOf, IsLastData;
      events := [];
      for i := 0 to |blocks|
        invariant EventsOf(parse, blocks) == events + EventsOf(parse, blocks[i..])
      {
        var data := BlockData(blocks[i]);
        NextBlock(parse, blocks, i);
        if data == "" {
          continue;
        }
        var parsed := parse(data);
        if parsed.Some? {
          events := events + [parsed.value];
        }
      }
    }
  }

  lemma NextBlock<E>(parse: string -> Option<E>, blocks: seq<string>, i: nat)
    requires i < |blocks|
    ensures var event := EventOf(parse, blocks[i]);
            EventsOf(parse, blocks[i..]) == (if event.Some? then [event.value] else []) + EventsOf(parse, blocks[i + 1..])
  {
    assert blocks[i..][1..] == blocks[i + 1..];
  }

  lemma NoBlocks<E>(parse: string -> Option<E>, blocks: seq<string>)
    ensures EventsOf(parse, blocks[|blocks|..]) == [] && EventsOf(parse, blocks[0..]) == EventsOf(parse, blocks)
  {
    assert blocks[0..] == blocks;
  }

  method BlockData(block: string) returns (data: string)
    ensures data == ReadLines(Fields("", ""), Split(block, "\n")).data
    ensures IsLastData(Split(block, "\n"), data)
  {
    hide Split;
    var eventType := "";
    data := "";
    var lines := Split(block, "\n");
    for i := 0 to |lines|
      invariant ReadLines(Fields("", ""), lines) == ReadLines(Fields(eventType, data), lines[i..])
    {
      var line := lines[i];
      assert lines[i..][1..] == lines[i + 1..];
      if StartsWith(line, "event: ") {
        eventType := Trim(line[7..]);
      } else if StartsWith(line, "data: ") {
        data := Trim(line[6..]);
      }
    }
    LastDataLine(Fields("", ""), lines);
  }

  // ---------- cutting does not matter ----------

  lemma {:induction false} EventsOfConcat<E>(parse: string -> Option<E>, a: seq<string>, b: seq<string>)
    ensures EventsOf(parse, a + b) == EventsOf(parse, a) + EventsOf(parse, b)
  {
    if a == [] {
      assert a + b == b;
    } else {
      assert (a + b)[1..] == a[1..] + b;
      EventsOfConcat(parse, a[1..], b);
    }
  }

  lemma FeedTwice<E>(parse: string -> Option<E>, buffer: string, x: string, y: string)
    ensures var first := Feed(parse, buffer, x);
            var second := Feed(parse, first.buffer, y);
            Feed(parse, buffer, x + y) == Fed(first.events + second.events, second.buffer)
  {
    var parts := Split(buffer + x, BLANK_LINE);
    var open := Split(Last(parts) + y, BLANK_LINE);
    assert buffer + (x + y) == (buffer + x) + y;
    SplitInTwo(buffer + x, y, BLANK_LINE);
    assert Init(Init(parts) + open) == Init(parts) + Init(open);
    EventsOfConcat(parse, Init(parts), Init(open));
  }

  /** Feeding a text in any chunks gives the events and the buffer of feeding it whole. */
  lemma {:induction false} ChunkingDoesNotMatter<E>(parse: string -> Option<E>, buffer: string, chunks: seq<string>)
    requires Free(buffer, BLANK_LINE)
    ensures FeedAll(parse, buffer, chunks) == Feed(parse, buffer, Flatten(chunks))
    decreases |chunks|
  {
    if chunks == [] {
      assert buffer + "" == buffer;
      FreeIsOnePiece(buffer, BLANK_LINE);
    } else {
      var first := Feed(parse, buffer, chunks[0]);
      LastPieceIsFree(buffer + chunks[0], BLANK_LINE);
      ChunkingDoesNotMatter(parse, first.buffer, chunks[1..]);
      FeedTwice(parse, buffer, chunks[0], Flatten(chunks[1..]));
    }
  }

  // ---------- the server's frames come back ----------

  datatype Frame = Event(eventType: string, data: string) | Heartbeat

  /** What the server's stream writes. */
  function Written(f: Frame): string {
    Block(f) + "\n\n"
  }

  function Block(f: Frame): string {
    match f
    case Event(eventType, data) => "event: " + eventType + "\n" + "data: " + data
    case Heartbeat => ": heartbeat"
  }

  /** JSON text has no line break, is not empty, and neither starts nor ends with white space. */
  predicate OneLine(f: Frame) {
    f.Event? ==>
      && '\n' !in f.eventType && '\n' !in f.data
      && f.data != "" && !IsWhiteSpace(f.data[0]) && !IsWhiteSpace(f.data[|f.data| - 1])
  }

  function Sent(frames: seq<Frame>): string {
    if frames == [] then "" else Written(frames[0]) + Sent(frames[1..])
  }

  function Delivered<E>(parse: string -> Option<E>, frames: seq<Frame>): seq<E> {
    if frames == [] then []
    else (if frames[0].Event? && parse(frames[0].data).Some? then [parse(frames[0].data).value] else [])
         + Delivered(parse, frames[1..])
  }

  /** A block has a character other than a line break after each line break, so a blank line ends it. */
  lemma BlockEndsAtBlankLine(f: Frame, rest: string)
    requires OneLine(f)
    ensures Split(Written(f) + rest, BLANK_LINE) == [Block(f)] + Split(rest, BLANK_LINE)
  {
    var b := Block(f);
    var s := Written(f) + rest;
    assert s[|b|..|b| + 2] == BLANK_LINE;
    assert OccursAt(s, BLANK_LINE, |b|);
    BlockHasNoBlankLine(f);
    forall j: nat | j < |b| ensures !OccursAt(s, BLANK_LINE, j) {
      assert s[j] == b[j];
      assert s[j..j + 2] == [s[j], s[j + 1]];
      if b[j] == '\n' {
        assert s[j + 1] == b[j + 1] == 'd';
      }
    }
    assert FindFrom(s, BLANK_LINE, 0) == |b|;
    assert s[..|b|] == b && s[|b| + 2..] == rest;
  }

  lemma BlockHasNoBlankLine(f: Frame)
    requires OneLine(f)
    ensures var b := Block(f); forall j :: 0 <= j < |b| && b[j] == '\n' ==> j + 1 < |b| && b[j + 1] == 'd'
  {
    if f.Event? {
      var head := "event: " + f.eventType;
      var tail := "data: " + f.data;
      var b := Block(f);
      assert b == head + "\n" + tail;
      assert '\n' !in "event: " && '\n' !in "data: ";
      assert '\n' !in head && '\n' !in tail;
      assert tail[0] == 'd' && b[|head| + 1] == tail[0];
      forall j | 0 <= j < |b| ensures b[j] == '\n' ==> j == |head| {
        if j < |head| {
          assert b[j] == head[j] && head[j] in head;
        } else if j > |head| {
          assert b[j] == tail[j - |head| - 1] && tail[j - |head| - 1] in tail;
        }
      }
    } else {
      assert '\n' !in ": heartbeat";
    }
  }

  lemma TrimOfClean(s: string)
    requires s != "" && !IsWhiteSpace(s[0]) && !IsWhiteSpace(s[|s| - 1])
    ensures Trim(s) == s
  {
  }

  lemma EventLines(eventType: string, data: string)
    requires '\n' !in eventType && '\n' !in data
    ensures Split(Block(Event(eventType, data)), "\n") == ["event: " + eventType, "data: " + data]
  {
    var head, tail := "event: " + eventType, "data: " + data;
    assert '\n' !in "event: " && '\n' !in "data: ";
    assert Block(Event(eventType, data)) == head + ['\n'] + tail;
    SplitAtFirst(head, '\n', tail);
    SplitNone(tail, '\n');
    assert ['\n'] == "\n";
  }

  lemma ReadDataLine(f: Fields, data: string)
    requires data != "" && !IsWhiteSpace(data[0]) && !IsWhiteSpace(data[|data| - 1])
    ensures ReadLine(f, "data: " + data).data == data
  {
    var line := "data: " + data;
    assert line[0] == 'd' && line[..7][0] == 'd';
    assert line[..6] == "data: " && line[6..] == data;
    TrimOfClean(data);
  }

  lemma BlockReadsBack<E>(parse: string -> Option<E>, f: Frame)
    requires OneLine(f)
    ensures EventOf(parse, Block(f)) == if f.Event? then parse(f.data) else None
  {
    hide Split, Block;
    match f
    case Event(eventType, data) =>
      EventLines(eventType, data);
      TwoLines(Fields("", ""), "event: " + eventType, "data: " + data);
      hide ReadLine;
      ReadDataLine(ReadLine(Fields("", ""), "event: " + eventType), data);
    case Heartbeat =>
      HeartbeatIsOneLine();
      OneLineRead(Fields("", ""), ": heartbeat");
      assert ": heartbeat"[0] == ':' && ": heartbeat"[..7][0] == ':' && ": heartbeat"[..6][0] == ':';
  }

  lemma HeartbeatIsOneLine()
    ensures Split(Block(Heartbeat), "\n") == [": heartbeat"]
  {
    assert '\n' !in ": heartbeat";
    SplitNone(": heartbeat", '\n');
  }

  lemma OneLineRead(f: Fields, a: string)
    ensures ReadLines(f, [a]) == ReadLine(f, a)
  {
    assert [a][1..] == [];
  }

  lemma TwoLines(f: Fields, a: string, b: string)
    ensures ReadLines(f, [a, b]) == ReadLine(ReadLine(f, a), b)
  {
    assert [a, b][1..] == [b];
    OneLineRead(ReadLine(f, a), b);
  }

  lemma {:induction false} SentSplits<E>(parse: string -> Option<E>, frames: seq<Frame>)
    requires forall i :: 0 <= i < |frames| ==> OneLine(frames[i])
    ensures var parts := Split(Sent(frames), BLANK_LINE);
            EventsOf(parse, Init(parts)) == Delivered(parse, frames) && Last(parts) == ""
  {
    if frames != [] {
      var rest := Split(Sent(frames[1..]), BLANK_LINE);
      SentSplits(parse, frames[1..]);
      BlockEndsAtBlankLine(frames[0], Sent(frames[1..]));
      BlockReadsBack(parse, frames[0]);
      assert Init([Block(frames[0])] + rest) == [Block(frames[0])] + Init(rest);
    }
  }

  /** Round trip: however the stream is cut, the client reports exactly the events the server wrote, in order. */
  lemma ServerEventsArrive<E>(parse: string -> Option<E>, frames: seq<Frame>, chunks: seq<string>)
    requires forall i :: 0 <= i < |frames| ==> OneLine(frames[i])
    requires Flatten(chunks) == Sent(frames)
    ensures FeedAll(parse, "", chunks) == Fed(Delivered(parse, frames), "")
  {
    ChunkingDoesNotMatter(parse, "", chunks);
    SentSplits(parse, frames);
    assert "" + Flatten(chunks) == Sent(frames);
  }
}
