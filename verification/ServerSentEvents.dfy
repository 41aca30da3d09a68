/** One whole-body reading of an event stream. */
module EventStreamReference {
  import opened Prelude
  import Encoding

  const LF: byte := 10
  const CR: byte := 13
  const COLON: byte := 58
  const SPACE: byte := 32
  const DATA_FIELD: Bytes := [100, 97, 116, 97, 58]

  /** The terminated lines, and what follows the last terminator. */
  datatype Split = Split(lines: seq<Bytes>, rest: Bytes)

  function SplitLines(body: Bytes): Split {
    if body == [] then Split([], [])
    else
      var front := SplitLines(body[..|body| - 1]);
      var b := body[|body| - 1];
      if b == LF then Split(front.lines + [front.rest], []) else Split(front.lines, front.rest + [b])
  }

  function StripReturn(line: Bytes): Bytes {
    if line != [] && line[|line| - 1] == CR then line[..|line| - 1] else line
  }

  /** The events complete so far, and the data lines of the one being collected. */
  datatype Progress = Progress(events: seq<Bytes>, data: seq<Bytes>)

  function JoinLines(lines: seq<Bytes>): Bytes {
    if lines == [] then []
    else if |lines| == 1 then lines[0]
    else JoinLines(lines[..|lines| - 1]) + [LF] + lines[|lines| - 1]
  }

  function Flush(p: Progress): Progress {
    if p.data == [] then p else Progress(p.events + [JoinLines(p.data)], [])
  }

  /** The value of a data line. */
  function DataOf(line: Bytes): Option<Bytes> {
    if DATA_FIELD <= line then
      var value := line[|DATA_FIELD|..];
      Some(if value != [] && value[0] == SPACE then value[1..] else value)
    else None
  }

  function Feed(p: Progress, line: Bytes): Progress {
    if line == [] then Flush(p)
    else if line[0] == COLON then p
    else match DataOf(line)
      case Some(data) => p.(data := p.data + [data])
      case None => p
  }

  /** Terminated lines lose one carriage return. */
  function FeedAll(lines: seq<Bytes>): Progress {
    if lines == [] then Progress([], [])
    else Feed(FeedAll(lines[..|lines| - 1]), StripReturn(lines[|lines| - 1]))
  }

  /** The unterminated rest is a line too, and the end of the body ends an event. */
  function Parse(body: Bytes): seq<Bytes> {
    var split := SplitLines(body);
    var p := FeedAll(split.lines);
    Flush(if split.rest == [] then p else Feed(p, split.rest)).events
  }

  lemma {:induction false} SplitConcat(a: Bytes, b: Bytes)
    ensures SplitLines(a + b) ==
            var s := SplitLines(SplitLines(a).rest + b);
            Split(SplitLines(a).lines + s.lines, s.rest)
  {
    var rest := SplitLines(a).rest;
    if b == [] {
      assert a + b == a && rest + b == rest;
      RestHasNoTerminator(a);
      NoTerminator(rest);
    } else {
      var n := |b| - 1;
      SplitConcat(a, b[..n]);
      assert (a + b)[..|a| + n] == a + b[..n];
      assert (rest + b)[..|rest| + n] == rest + b[..n];
    }
  }

  lemma {:induction false} RestHasNoTerminator(body: Bytes)
    ensures LF !in SplitLines(body).rest
  {
    if body != [] {
      RestHasNoTerminator(body[..|body| - 1]);
    }
  }

  lemma {:induction false} NoTerminator(line: Bytes)
    requires LF !in line
    ensures SplitLines(line) == Split([], line)
  {
    if line != [] {
      NoTerminator(line[..|line| - 1]);
      assert line == line[..|line| - 1] + [line[|line| - 1]];
    }
  }

  /** Taking one line off the front. */
  lemma FirstLine(line: Bytes, rest: Bytes)
    requires LF !in line
    ensures SplitLines(line + [LF] + rest) == Split([line] + SplitLines(rest).lines, SplitLines(rest).rest)
  {
    NoTerminator(line);
    assert (line + [LF])[..|line|] == line;
    assert SplitLines(line + [LF]) == Split([line], []);
    SplitConcat(line + [LF], rest);
    assert [] + rest == rest;
  }

  // ---- a body written from data lines ----

  function DataPrefix(): (bytes: Bytes)
    ensures |bytes| == 6
  {
    assert Encoding.Plain("data: ");
    Encoding.Ascii("data: ")
  }

  /** One data line, ended by a line feed or by a carriage return and a line feed. */
  function DataLine(data: Bytes, crlf: bool): Bytes {
    DataPrefix() + data + Ending(crlf)
  }

  function Ending(crlf: bool): Bytes {
    if crlf then [CR, LF] else [LF]
  }

  function DataLines(lines: seq<Bytes>, crlf: bool): Bytes {
    if lines == [] then [] else DataLines(lines[..|lines| - 1], crlf) + DataLine(lines[|lines| - 1], crlf)
  }

  /** The events, each its data lines and an empty line. */
  function Written(events: seq<seq<Bytes>>, crlf: bool): Bytes {
    if events == [] then []
    else Written(events[..|events| - 1], crlf) + DataLines(events[|events| - 1], crlf) + Ending(crlf)
  }

  /** A data line that survives the ending: no line feed in it, and no carriage return at its end where
      the ending has none. */
  predicate Writable(line: Bytes, crlf: bool) {
    LF !in line && (!crlf && line != [] ==> line[|line| - 1] != CR)
  }

  ghost predicate AllWritable(events: seq<seq<Bytes>>, crlf: bool) {
    forall i :: 0 <= i < |events| ==>
      events[i] != [] && forall k :: 0 <= k < |events[i]| ==> Writable(events[i][k], crlf)
  }

  /** What the body amounts to when it ends with a complete line. */
  ghost predicate Reads(body: Bytes, p: Progress) {
    SplitLines(body).rest == [] && FeedAll(SplitLines(body).lines) == p
  }

  lemma SplitNext(body: Bytes, line: Bytes)
    requires SplitLines(body).rest == [] && LF !in line
    ensures SplitLines(body + line + [LF]) == Split(SplitLines(body).lines + [line], [])
  {
    hide SplitLines;
    NoTerminator([]);
    FirstLine(line, []);
    SplitConcat(body, line + [LF]);
    assert body + line + [LF] == body + (line + [LF]);
    assert [] + (line + [LF]) == line + [LF] + [] && [line] + [] == [line];
  }

  lemma FeedNext(lines: seq<Bytes>, line: Bytes)
    ensures FeedAll(lines + [line]) == Feed(FeedAll(lines), StripReturn(line))
  {
    hide Feed;
    assert (lines + [line])[..|lines|] == lines;
  }

  lemma Stripped(line: Bytes, crlf: bool)
    requires Writable(line, crlf)
    ensures StripReturn(if crlf then line + [CR] else line) == line
  {
    assert (line + [CR])[..|line|] == line;
  }

  lemma LineReads(body: Bytes, p: Progress, line: Bytes, crlf: bool)
    requires Reads(body, p) && Writable(line, crlf)
    ensures Reads(body + line + Ending(crlf), Feed(p, line))
  {
    hide SplitLines, FeedAll, Feed, StripReturn;
    var whole := if crlf then line + [CR] else line;
    SplitNext(body, whole);
    FeedNext(SplitLines(body).lines, whole);
    Stripped(line, crlf);
    assert body + line + Ending(crlf) == body + whole + [LF];
  }

  lemma DataIsFed(p: Progress, data: Bytes)
    ensures Feed(p, DataPrefix() + data) == p.(data := p.data + [data])
  {
    var line := DataPrefix() + data;
    assert line[..5] == DATA_FIELD && line[5..] == [SPACE] + data;
    assert ([SPACE] + data)[1..] == data;
  }

  lemma DataLineReads(body: Bytes, p: Progress, data: Bytes, crlf: bool)
    requires Reads(body, p) && Writable(data, crlf)
    ensures Reads(body + DataLine(data, crlf), p.(data := p.data + [data]))
  {
    hide Reads, Feed, Ending;
    var line := DataPrefix() + data;
    LineReads(body, p, line, crlf);
    DataIsFed(p, data);
    assert body + DataLine(data, crlf) == body + line + Ending(crlf);
  }

  lemma {:induction false} DataLinesRead(body: Bytes, p: Progress, lines: seq<Bytes>, crlf: bool)
    requires Reads(body, p) && forall k :: 0 <= k < |lines| ==> Writable(lines[k], crlf)
    ensures Reads(body + DataLines(lines, crlf), p.(data := p.data + lines))
  {
    hide Reads, DataLine, Writable;
    if lines == [] {
      assert body + DataLines(lines, crlf) == body && p.data + lines == p.data;
    } else {
      var n := |lines| - 1;
      DataLinesRead(body, p, lines[..n], crlf);
      var before := body + DataLines(lines[..n], crlf);
      DataLineReads(before, p.(data := p.data + lines[..n]), lines[n], crlf);
      assert body + DataLines(lines, crlf) == before + DataLine(lines[n], crlf);
      assert p.data + lines == p.data + lines[..n] + [lines[n]];
    }
  }

  function Joined(events: seq<seq<Bytes>>): seq<Bytes> {
    seq(|events|, i requires 0 <= i < |events| => JoinLines(events[i]))
  }

  lemma {:induction false} WrittenReads(events: seq<seq<Bytes>>, crlf: bool)
    requires AllWritable(events, crlf)
    ensures Reads(Written(events, crlf), Progress(Joined(events), []))
  {
    hide DataLines, Ending, JoinLines, Writable, Reads;
    if events == [] {
      NothingReads();
    } else {
      var n := |events| - 1;
      WrittenReads(events[..n], crlf);
      EventReads(Written(events[..n], crlf), Joined(events[..n]), events[n], crlf);
      assert Joined(events) == Joined(events[..n]) + [JoinLines(events[n])];
    }
  }

  lemma NothingReads()
    ensures Reads([], Progress([], []))
  {
  }

  lemma EventReads(body: Bytes, before: seq<Bytes>, lines: seq<Bytes>, crlf: bool)
    requires Reads(body, Progress(before, [])) && lines != []
    requires forall k :: 0 <= k < |lines| ==> Writable(lines[k], crlf)
    ensures Reads(body + DataLines(lines, crlf) + Ending(crlf), Progress(before + [JoinLines(lines)], []))
  {
    hide Reads, DataLines, Ending;
    DataLinesRead(body, Progress(before, []), lines, crlf);
    assert [] + lines == lines;
    var text := body + DataLines(lines, crlf);
    LineReads(text, Progress(before, lines), [], crlf);
    assert text + [] + Ending(crlf) == text + Ending(crlf);
  }

  /** Written events read back, one for each, their data lines joined by line feeds. */
  lemma WrittenReadsBack(events: seq<seq<Bytes>>, crlf: bool)
    requires AllWritable(events, crlf)
    ensures Parse(Written(events, crlf)) == Joined(events)
  {
    WrittenReads(events, crlf);
  }

  lemma SplitTerminated(front: Bytes)
    ensures SplitLines(front + [LF]) == Split(SplitLines(front).lines + [SplitLines(front).rest], [])
  {
    assert (front + [LF])[..|front|] == front;
  }

  /** Joining loses nothing: the lines are the data up to each line feed, and the rest. */
  lemma {:induction false} JoinedSplits(lines: seq<Bytes>)
    requires lines != [] && forall k :: 0 <= k < |lines| ==> LF !in lines[k]
    ensures SplitLines(JoinLines(lines)) == Split(lines[..|lines| - 1], lines[|lines| - 1])
  {
    hide SplitLines;
    var n := |lines| - 1;
    NoTerminator(lines[n]);
    if n > 0 {
      JoinedSplits(lines[..n]);
      var front := JoinLines(lines[..n]);
      SplitTerminated(front);
      SplitConcat(front + [LF], lines[n]);
      assert [] + lines[n] == lines[n] && lines[..n][..n - 1] + [lines[n - 1]] + [] == lines[..n];
    }
  }

  // ---- events come out in order as the body grows ----

  lemma FeedGrows(p: Progress, line: Bytes)
    ensures p.events <= Feed(p, line).events && p.events <= Flush(p).events
  {
  }

  lemma {:induction false} FeedAllGrows(a: seq<Bytes>, b: seq<Bytes>)
    ensures FeedAll(a).events <= FeedAll(a + b).events
  {
    if b == [] {
      assert a + b == a;
    } else {
      var n := |b| - 1;
      assert (a + b)[..|a| + n] == a + b[..n];
      FeedAllGrows(a, b[..n]);
      FeedGrows(FeedAll(a + b[..n]), StripReturn(b[n]));
    }
  }

  /** The events complete in a part of the body are the first events of the whole. */
  lemma PartIsPrefix(part: Bytes, rest: Bytes)
    ensures FeedAll(SplitLines(part).lines).events <= Parse(part + rest)
  {
    hide SplitLines, FeedAll, Feed, Flush;
    var more := SplitLines(SplitLines(part).rest + rest);
    SplitConcat(part, rest);
    FeedAllGrows(SplitLines(part).lines, more.lines);
    var p := FeedAll(SplitLines(part + rest).lines);
    FeedGrows(p, more.rest);
    FeedGrows(Feed(p, more.rest), []);
  }

  // ---- what is refused ----

  const MAX_SSE_LINE_BYTES: nat := 256 * 1024
  const MAX_SSE_EVENT_BYTES: nat := 1024 * 1024

  type Utf8 = Bytes -> bool

  function Total(data: seq<Bytes>): nat {
    if data == [] then 0 else Total(data[..|data| - 1]) + |data[|data| - 1]|
  }

  predicate LineOk(valid: Utf8, p: Progress, line: Bytes) {
    && |line| <= MAX_SSE_LINE_BYTES
    && (line != [] && line[0] != COLON ==>
          valid(line) && (DataOf(line).Some? ==> Total(p.data) + |DataOf(line).value| <= MAX_SSE_EVENT_BYTES))
  }

  predicate LinesOk(valid: Utf8, lines: seq<Bytes>) {
    lines == [] ||
    var front, last := lines[..|lines| - 1], lines[|lines| - 1];
    LinesOk(valid, front) && |last| <= MAX_SSE_LINE_BYTES && LineOk(valid, FeedAll(front), StripReturn(last))
  }

  /** A body with nothing in it to refuse. */
  predicate BodyOk(valid: Utf8, body: Bytes) {
    var split := SplitLines(body);
    && LinesOk(valid, split.lines)
    && |split.rest| <= MAX_SSE_LINE_BYTES
    && (split.rest != [] ==> LineOk(valid, FeedAll(split.lines), split.rest))
  }

  lemma {:induction false} LinesOkPrefix(valid: Utf8, a: seq<Bytes>, b: seq<Bytes>)
    requires LinesOk(valid, a + b)
    ensures LinesOk(valid, a)
  {
    if b == [] {
      assert a + b == a;
    } else {
      assert (a + b)[..|a| + |b| - 1] == a + b[..|b| - 1];
      LinesOkPrefix(valid, a, b[..|b| - 1]);
    }
  }

  lemma {:induction false} OpenLineGrows(open: Bytes, b: Bytes)
    requires LF !in open
    ensures var s := SplitLines(open + b);
            if s.lines == [] then s.rest == open + b else |open| <= |s.lines[0]|
  {
    if b == [] {
      assert open + b == open;
      NoTerminator(open);
    } else {
      var n := |b| - 1;
      assert (open + b)[..|open| + n] == open + b[..n];
      assert open + b == open + b[..n] + [b[n]];
      OpenLineGrows(open, b[..n]);
    }
  }

  /** A body that can be read can be read up to any point. */
  lemma BodyOkPrefix(valid: Utf8, a: Bytes, b: Bytes)
    requires BodyOk(valid, a + b)
    ensures LinesOk(valid, SplitLines(a).lines) && |SplitLines(a).rest| <= MAX_SSE_LINE_BYTES
  {
    hide SplitLines, FeedAll, LineOk, LinesOk;
    var s, more := SplitLines(a), SplitLines(SplitLines(a).rest + b);
    SplitConcat(a, b);
    LinesOkPrefix(valid, s.lines, more.lines);
    RestHasNoTerminator(a);
    OpenLineGrows(s.rest, b);
    if more.lines != [] {
      LinesOkAt(valid, s.lines, more.lines);
    }
  }

  lemma LinesOkAt(valid: Utf8, a: seq<Bytes>, b: seq<Bytes>)
    requires LinesOk(valid, a + b) && b != []
    ensures |b[0]| <= MAX_SSE_LINE_BYTES
  {
    assert a + b == (a + [b[0]]) + b[1..];
    LinesOkPrefix(valid, a + [b[0]], b[1..]);
    assert (a + [b[0]])[|a|] == b[0];
  }
}

/** The incremental parser, fed one chunk at a time. */
module ServerSentEvents {
  import opened Prelude
  import opened EventStreamReference

  /** `Interrupted` is cancellation or a transport error, `Refused` an invalid response. */
  datatype Item = Event(data: Bytes) | Interrupted | Refused

  datatype Chunk = Received(bytes: Bytes) | TransportError

  function Content(chunk: Chunk): Bytes {
    if chunk.Received? then chunk.bytes else []
  }

  function Concat(chunks: seq<Chunk>): Bytes {
    if chunks == [] then [] else Content(chunks[0]) + Concat(chunks[1..])
  }

  /** Each chunk fits in the buffer beside the line still open before it. */
  ghost predicate ChunksFit(taken: Bytes, chunks: seq<Chunk>)
    decreases |chunks|
  {
    chunks == [] ||
    (&& |SplitLines(taken).rest| + |Content(chunks[0])| <= MAX_SSE_EVENT_BYTES
     && ChunksFit(taken + Content(chunks[0]), chunks[1..]))
  }

  /** What can be read to the end. */
  ghost predicate Readable(valid: Utf8, taken: Bytes, chunks: seq<Chunk>) {
    BodyOk(valid, taken + Concat(chunks)) && ChunksFit(taken, chunks)
  }

  lemma ReadableStep(valid: Utf8, taken: Bytes, chunks: seq<Chunk>)
    requires chunks != []
    ensures var chunk := Content(chunks[0]);
            && taken + Concat(chunks) == (taken + chunk) + Concat(chunks[1..])
            && (Readable(valid, taken, chunks) <==>
                && |SplitLines(taken).rest| + |chunk| <= MAX_SSE_EVENT_BYTES
                && Readable(valid, taken + chunk, chunks[1..]))
  {
    assert taken + (Content(chunks[0]) + Concat(chunks[1..])) == (taken + Content(chunks[0])) + Concat(chunks[1..]);
  }

  class SseState {
    const valid: Utf8
    var body: seq<Chunk>
    var buffer: Bytes
    var eventData: seq<Bytes>
    var queued: seq<Bytes>
    var done: bool
    ghost var taken: Bytes
    ghost var yielded: seq<Bytes>
    ghost var failed: bool

    constructor (valid: Utf8, chunks: seq<Chunk>)
      ensures Valid() && body == chunks && !done && !failed && taken == [] && yielded == [] && this.valid == valid
    {
      this.valid := valid;
      body, buffer, eventData, queued, done := chunks, [], [], [], false;
      taken, yielded, failed := [], [], false;
    }

    /** The limits hold always; what has been read so far has been parsed so far. */
    ghost predicate Valid()
      reads this
    {
      && |buffer| <= MAX_SSE_EVENT_BYTES
      && Total(eventData) <= MAX_SSE_EVENT_BYTES
      && (failed ==> done)
      && (!failed ==> |buffer| <= MAX_SSE_LINE_BYTES)
      && (!failed && !done ==> Parsed(SplitLines(taken).lines) && buffer == SplitLines(taken).rest)
      && (!failed && done ==> body == [] && yielded + queued == Parse(taken) && BodyOk(valid, taken))
    }

    ghost predicate Parsed(lines: seq<Bytes>)
      reads `eventData, `queued, `yielded
    {
      FeedAll(lines) == Progress(yielded + queued, eventData) && LinesOk(valid, lines)
    }

    ghost function Now(): Progress
      reads `eventData, `queued, `yielded
    {
      Progress(yielded + queued, eventData)
    }

    method QueueEvent()
      modifies `eventData, `queued
      ensures Now() == Flush(old(Now())) && eventData == []
    {
      if eventData != [] {
        assert yielded + (queued + [JoinLines(eventData)]) == yielded + queued + [JoinLines(eventData)];
        queued := queued + [JoinLines(eventData)];
        eventData := [];
      }
    }

    method ConsumeLine(line: Bytes) returns (ok: bool)
      requires Total(eventData) <= MAX_SSE_EVENT_BYTES
      modifies `eventData, `queued
      ensures Total(eventData) <= MAX_SSE_EVENT_BYTES
      ensures ok <==> LineOk(valid, old(Now()), line)
      ensures ok ==> Now() == Feed(old(Now()), line)
    {
      if |line| > MAX_SSE_LINE_BYTES { return false; }
      if line == [] {
        QueueEvent();
        return true;
      }
      if line[0] == COLON { return true; }
      if !valid(line) { return false; }
      var data := DataOf(line);
      if data.Some? {
        var current := Total(eventData);
        if current + |data.value| > MAX_SSE_EVENT_BYTES { return false; }
        assert (eventData + [data.value])[..|eventData|] == eventData;
        eventData := eventData + [data.value];
      }
      return true;
    }

    /** The first line feed. */
    method Position(s: Bytes) returns (index: nat)
      requires LF in s
      ensures index < |s| && s[index] == LF && LF !in s[..index]
    {
      index := 0;
      while s[index] != LF
        invariant index < |s| && LF !in s[..index] && LF in s[index..]
        decreases |s| - index
      {
        index := index + 1;
      }
    }

    /** Takes the first line off the buffer and consumes it. */
    method TakeLine(ghost read: seq<Bytes>) returns (ok: bool, ghost line: Bytes)
      requires Total(eventData) <= MAX_SSE_EVENT_BYTES && Parsed(read) && LF in buffer
      modifies `buffer, `eventData, `queued
      ensures Total(eventData) <= MAX_SSE_EVENT_BYTES
      ensures ok ==> |buffer| < |old(buffer)| && Parsed(read + [line])
      ensures ok ==> SplitLines(old(buffer)) == Split([line] + SplitLines(buffer).lines, SplitLines(buffer).rest)
      ensures !ok ==> |buffer| <= |old(buffer)| && !LinesOk(valid, read + [line])
      ensures SplitLines(old(buffer)).lines != [] && SplitLines(old(buffer)).lines[0] == line
    {
      var index := Position(buffer);
      line := buffer[..index];
      FirstLine(line, buffer[index + 1..]);
      assert buffer == line + [LF] + buffer[index + 1..];
      assert (read + [line])[..|read|] == read;
      if index > MAX_SSE_LINE_BYTES { return false, line; }
      var text := buffer[..index];
      buffer := buffer[index + 1..];
      ok := ConsumeLine(StripReturn(text));
    }

    /** Consumes every terminated line of the buffer. */
    method ParseCompleteLines(ghost lines: seq<Bytes>) returns (ok: bool)
      requires Total(eventData) <= MAX_SSE_EVENT_BYTES && Parsed(lines)
      modifies `buffer, `eventData, `queued
      ensures Total(eventData) <= MAX_SSE_EVENT_BYTES && |buffer| <= |old(buffer)|
      ensures ok ==> |buffer| <= MAX_SSE_LINE_BYTES && buffer == SplitLines(old(buffer)).rest
      ensures ok ==> Parsed(lines + SplitLines(old(buffer)).lines)
      ensures !ok ==>
                || !LinesOk(valid, lines + SplitLines(old(buffer)).lines)
                || |SplitLines(old(buffer)).rest| > MAX_SSE_LINE_BYTES
    {
      hide Parsed, SplitLines, Total, LinesOk;
      ghost var read := lines;
      ghost var all := lines + SplitLines(buffer).lines;
      while LF in buffer
        invariant Total(eventData) <= MAX_SSE_EVENT_BYTES && |buffer| <= |old(buffer)|
        invariant Parsed(read)
        invariant read + SplitLines(buffer).lines == all
        invariant SplitLines(buffer).rest == SplitLines(old(buffer)).rest
        decreases |buffer|
      {
        ghost var before := SplitLines(buffer).lines;
        ghost var line: Bytes;
        ok, line := TakeLine(read);
        assert all == (read + [line]) + before[1..];
        if !ok {
          if LinesOk(valid, all) { LinesOkPrefix(valid, read + [line], before[1..]); }
          return;
        }
        read := read + [line];
      }
      NoTerminator(buffer);
      assert read + [] == read;
      ok := |buffer| <= MAX_SSE_LINE_BYTES;
    }

    method Fail()
      requires |buffer| <= MAX_SSE_EVENT_BYTES && Total(eventData) <= MAX_SSE_EVENT_BYTES
      modifies `done, `failed
      ensures Valid() && failed && done
    {
      done := true;
      failed := true;
    }

    /** A chunk has arrived; `rest` is what follows it. */
    method Receive(chunk: Bytes, ghost rest: Bytes) returns (ok: bool)
      requires Valid() && !done && !failed
      modifies `buffer, `eventData, `queued, `taken, `done, `failed
      ensures Valid() && taken == old(taken) + chunk
      ensures ok <==> !failed
      ensures ok ==> !done && |SplitLines(old(taken)).rest| + |chunk| <= MAX_SSE_EVENT_BYTES
      ensures !ok ==> !BodyOk(valid, taken + rest) || |SplitLines(old(taken)).rest| + |chunk| > MAX_SSE_EVENT_BYTES
    {
      hide BodyOk, LinesOk, FeedAll, Parse, SplitLines, Total, Parsed;
      ghost var lines := SplitLines(taken).lines;
      SplitConcat(taken, chunk);
      taken := taken + chunk;
      if |buffer| + |chunk| > MAX_SSE_EVENT_BYTES {
        Fail();
        return false;
      }
      buffer := buffer + chunk;
      ok := ParseCompleteLines(lines);
      if !ok {
        if BodyOk(valid, taken + rest) { BodyOkPrefix(valid, taken, rest); }
        Fail();
      }
    }

    /** The body has ended: the rest is a line, and what is collected is an event. */
    method Close() returns (ok: bool)
      requires Valid() && !done && !failed && body == []
      modifies `buffer, `eventData, `queued, `done, `failed
      ensures Valid() && done
      ensures ok <==> !failed
      ensures !ok ==> !BodyOk(valid, taken)
    {
      hide SplitLines, FeedAll, Flush, Feed, LinesOk, LineOk;
      ok := true;
      if buffer != [] {
        var line := buffer;
        buffer := [];
        ok := ConsumeLine(line);
        if !ok {
          Fail();
          return;
        }
      }
      QueueEvent();
      done := true;
    }

    /** Reads one chunk, or the end of the body. */
    method Advance() returns (outcome: Option<Item>)
      requires Valid() && !done && !failed
      modifies `body, `buffer, `eventData, `queued, `taken, `done, `failed
      ensures Valid()
      ensures outcome in {None, Some(Interrupted), Some(Refused)}
      ensures outcome.None? <==> !failed
      ensures !failed ==> taken + Concat(body) == old(taken + Concat(body))
      ensures !failed ==> Readable(valid, taken, body) == old(Readable(valid, taken, body))
      ensures outcome == Some(Refused) ==> !old(Readable(valid, taken, body))
      ensures done || |body| < |old(body)|
      ensures |body| <= |old(body)|
    {
      hide SplitLines, FeedAll, Parse, Total, Parsed, BodyOk, Concat, ChunksFit, Content;
      var cancelled: bool := *;
      if cancelled {
        Fail();
        return Some(Interrupted);
      }
      if body == [] {
        ghost var whole := taken;
        EndOfBody(taken);
        var ok := Close();
        outcome := if ok then None else Some(Refused);
      } else {
        var chunk := body[0];
        ReadableStep(valid, taken, body);
        body := body[1..];
        if chunk.TransportError? {
          Fail();
          return Some(Interrupted);
        }
        ContentOf(chunk);
        var ok := Receive(chunk.bytes, Concat(body));
        outcome := if ok then None else Some(Refused);
      }
    }

    lemma EndOfBody(taken: Bytes)
      ensures taken + Concat([]) == taken && (Readable(valid, taken, []) <==> BodyOk(valid, taken))
    {
      assert taken + [] == taken;
    }

    lemma ContentOf(chunk: Chunk)
      requires chunk.Received?
      ensures Content(chunk) == chunk.bytes
    {
    }

    method Pop() returns (event: Bytes)
      requires Valid() && queued != []
      modifies `queued, `yielded
      ensures Valid() && event == old(queued)[0] && queued == old(queued)[1..] && yielded == old(yielded) + [event]
    {
      event := queued[0];
      assert yielded + queued == (yielded + [event]) + queued[1..];
      yielded := yielded + [event];
      queued := queued[1..];
    }

    /** The next event, the first failure, or the end. */
    method Next() returns (item: Option<Item>)
      requires Valid()
      modifies this
      ensures Valid()
      ensures !failed ==> taken + Concat(body) == old(taken + Concat(body))
      ensures !failed ==> Readable(valid, taken, body) == old(Readable(valid, taken, body))
      ensures item.None? ==> done && queued == [] && yielded == old(yielded) && failed == old(failed)
      ensures item.Some? && item.value.Event? ==> yielded == old(yielded) + [item.value.data] && failed == old(failed)
      ensures item.Some? && !item.value.Event? ==> failed && !old(failed) && yielded == old(yielded)
      ensures item == Some(Refused) ==> !old(Readable(valid, taken, body))
      ensures item.Some? ==>
                || (done && !old(done))
                || (done == old(done) && |body| < |old(body)|)
                || (done == old(done) && |body| == |old(body)| && |queued| < |old(queued)|)
    {
      hide Valid, Parsed, Concat, Readable;
      while queued == []
        invariant Valid() && yielded == old(yielded) && failed == old(failed)
        invariant !failed ==> taken + Concat(body) == old(taken + Concat(body))
        invariant !failed ==> Readable(valid, taken, body) == old(Readable(valid, taken, body))
        invariant || (done == old(done) && body == old(body) && queued == old(queued))
                  || (done && !old(done))
                  || (done == old(done) && |body| < |old(body)|)
        decreases !done, |body|
      {
        if done { return None; }
        FailedIsDone();
        var outcome := Advance();
        if outcome.Some? {
          FailedIsDone();
          return outcome;
        }
      }
      var event := Pop();
      return Some(Event(event));
    }

    /** What has been handed out are the first events of what was read, and of the whole body. */
    lemma YieldedSoFar()
      requires Valid() && !failed
      ensures yielded <= Parse(taken) && yielded <= Parse(taken + Concat(body))
    {
      hide SplitLines, FeedAll, Parse;
      if done {
        EndOfBody(taken);
      } else {
        PartIsPrefix(taken, []);
        PartIsPrefix(taken, Concat(body));
        assert taken + [] == taken;
      }
    }

    lemma FailedIsDone()
      requires Valid()
      ensures failed ==> done
    {
    }
  }

  datatype End = Complete | Broken | Invalid

  /** Whatever the cutting into chunks, a stream read to its end yields the events of one reading of
      the whole body; it is refused exactly when it cannot be read, unless it was interrupted. What was
      yielded before that are the first events of the part that was read, and of the whole. */
  method ReadAll(valid: Utf8, chunks: seq<Chunk>) returns (end: End, events: seq<Bytes>, ghost read: Bytes)
    ensures end == Complete ==> read == Concat(chunks) && events == Parse(read) && Readable(valid, [], chunks)
    ensures end == Invalid ==> !Readable(valid, [], chunks)
    ensures read <= Concat(chunks) && events <= Parse(read) && events <= Parse(Concat(chunks))
  {
    hide Concat, Parse, SplitLines, BodyOk, ChunksFit, FeedAll;
    var state := new SseState(valid, chunks);
    events := [];
    assert [] + Concat(chunks) == Concat(chunks);
    while true
      invariant fresh(state) && state.Valid() && !state.failed && state.valid == valid
      invariant events == state.yielded
      invariant state.taken + Concat(state.body) == Concat(chunks)
      invariant Readable(valid, state.taken, state.body) == Readable(valid, [], chunks)
      decreases !state.done, |state.body|, |state.queued|
    {
      read := state.taken;
      state.YieldedSoFar();
      var item := state.Next();
      match item
      case None =>
        state.EndOfBody(state.taken);
        assert events + [] == events;
        return Complete, events, state.taken;
      case Some(Interrupted) => return Broken, events, read;
      case Some(Refused) => return Invalid, events, read;
      case Some(Event(data)) => events := events + [data];
    }
    assert false;
  }
}
