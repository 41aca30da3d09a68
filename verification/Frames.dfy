/** A byte source that hands out what it has in pieces of its own choosing. */
module BufferedInput {
  import opened Prelude

  const LF: byte := 10
  const CR: byte := 13

  class BufferedReader {
    var remaining: Bytes

    constructor (stream: Bytes)
      ensures remaining == stream
    {
      remaining := stream;
    }

    /** Some non-empty prefix of what remains, nothing at the end, or `None` for an I/O error. */
    method FillBuf() returns (available: Option<Bytes>)
      ensures available.Some? ==> available.value <= remaining && (available.value == [] <==> remaining == [])
    {
      var broken: bool, size: nat := *, *;
      if broken { return None; }
      if remaining == [] || size == 0 || size > |remaining| { return Some(remaining); }
      return Some(remaining[..size]);
    }

    method Consume(n: nat)
      requires n <= |remaining|
      modifies this
      ensures remaining == old(remaining)[n..]
    {
      remaining := remaining[n..];
    }
  }

  /** Where the first line feed stands. */
  function FirstLf(s: Bytes): (position: Option<nat>)
    ensures position.Some? ==> position.value < |s| && s[position.value] == LF && LF !in s[..position.value]
    ensures position.None? ==> LF !in s
  {
    if s == [] then None
    else if s[0] == LF then Some(0)
    else
      var rest := FirstLf(s[1..]);
      assert s == [s[0]] + s[1..];
      if rest.Some? then
        assert s[..rest.value + 1] == [s[0]] + s[1..][..rest.value];
        Some(rest.value + 1)
      else None
  }

  lemma {:induction false} FirstLfAt(s: Bytes, k: nat)
    requires k < |s| && s[k] == LF && LF !in s[..k]
    ensures FirstLf(s) == Some(k)
  {
    if k > 0 {
      assert s[..k] == [s[0]] + s[1..][..k - 1];
      FirstLfAt(s[1..], k - 1);
    }
  }

  /** The first line feed of the stream, seen from the piece in hand. */
  lemma FirstLfBeyond(read: Bytes, piece: Bytes, rest: Bytes)
    requires LF !in read
    ensures FirstLf(piece).Some? ==> FirstLf(read + piece + rest) == Some(|read| + FirstLf(piece).value)
    ensures FirstLf(piece).None? ==> LF !in read + piece
  {
    var found := FirstLf(piece);
    if found.Some? {
      var s, k := read + piece + rest, |read| + found.value;
      assert s[..k] == read + piece[..found.value];
      FirstLfAt(s, k);
    }
  }

}

/** Newline-terminated JSON-RPC frames. */
module FrameReading {
  import opened Prelude
  import opened BufferedInput

  const MAX_ACP_FRAME_BYTES: nat := 1_048_576

  datatype FrameVerdict = EndOfInput | Frame(bytes: Bytes) | Truncated | TooLarge | Transport

  /** The verdict on a stream and how much of it the reader takes, whatever the pieces. */
  function FrameAt(stream: Bytes, maximum: nat): (r: (FrameVerdict, nat))
    ensures r.1 <= |stream| && r.1 <= maximum + 1
  {
    var newline := FirstLf(stream);
    if stream == [] then (EndOfInput, 0)
    else if newline.Some? && newline.value < maximum then (Frame(stream[..newline.value]), newline.value + 1)
    else if |stream| > maximum then (TooLarge, maximum + 1)
    else (Truncated, |stream|)
  }

  lemma TooLargeAt(stream: Bytes, maximum: nat)
    requires |stream| > maximum && LF !in stream[..maximum]
    ensures FrameAt(stream, maximum) == (TooLarge, maximum + 1)
  {
    forall i | 0 <= i < maximum ensures stream[i] != LF {
      assert stream[..maximum][i] in stream[..maximum];
    }
  }

  lemma NoneBefore(piece: Bytes, n: nat)
    requires n <= |piece| && (FirstLf(piece).Some? ==> n <= FirstLf(piece).value)
    ensures LF !in piece[..n]
  {
    hide FirstLf;
    var newline := FirstLf(piece);
    if newline.Some? {
      assert piece[..n] == piece[..newline.value][..n];
    }
  }

  /** The piece in hand takes the reader past the limit. */
  lemma Overflows(read: Bytes, piece: Bytes, rest: Bytes, consumed: nat, maximum: nat)
    requires LF !in read && 0 < consumed <= |piece| && |read| + consumed == maximum + 1
    requires FirstLf(piece).Some? ==> consumed <= FirstLf(piece).value + 1
    ensures FrameAt(read + piece + rest, maximum) == (TooLarge, maximum + 1)
  {
    hide FirstLf, FrameAt;
    NoneBefore(piece, consumed - 1);
    var stream, before := read + piece + rest, piece[..consumed - 1];
    assert stream[..maximum] == read + before;
    TooLargeAt(stream, maximum);
  }

  /** The piece in hand ends a frame within the limit. */
  lemma Ends(read: Bytes, piece: Bytes, rest: Bytes, maximum: nat)
    requires LF !in read && FirstLf(piece).Some? && |read| + FirstLf(piece).value < maximum
    ensures var k := FirstLf(piece).value;
            FrameAt(read + piece + rest, maximum) == (Frame(read + piece[..k]), |read| + k + 1)
  {
    hide FirstLf, FrameAt;
    var k, stream := FirstLf(piece).value, read + piece + rest;
    FirstLfBeyond(read, piece, rest);
    FrameAtNewline(stream, |read| + k, maximum);
    assert stream[..|read| + k] == read + piece[..k];
  }

  lemma FrameAtNewline(stream: Bytes, k: nat, maximum: nat)
    requires FirstLf(stream) == Some(k) && k < maximum
    ensures k < |stream| && FrameAt(stream, maximum) == (Frame(stream[..k]), k + 1)
  {
    hide FirstLf;
  }

  lemma AtEnd(read: Bytes, maximum: nat)
    requires LF !in read && |read| <= maximum
    ensures FrameAt(read, maximum) == (if read == [] then EndOfInput else Truncated, |read|)
  {
  }

  /** Collects one frame, never holding more than one byte over the limit. The verdict and the bytes
      consumed depend on the stream alone. */
  method CollectFrame(reader: BufferedReader, maximum: nat) returns (verdict: FrameVerdict)
    modifies reader
    ensures verdict != Transport ==>
              && verdict == FrameAt(old(reader.remaining), maximum).0
              && reader.remaining == old(reader.remaining)[FrameAt(old(reader.remaining), maximum).1..]
    ensures verdict == Transport ==> exists n :: 0 <= n <= |old(reader.remaining)| && n <= maximum &&
                                       reader.remaining == old(reader.remaining)[n..]
  {
    hide FirstLf, FrameAt;
    ghost var stream := reader.remaining;
    var bytes: Bytes := [];
    while true
      invariant |bytes| <= |stream| && reader.remaining == stream[|bytes|..] && bytes == stream[..|bytes|]
      invariant |bytes| <= maximum && LF !in bytes
      decreases |reader.remaining|
    {
      var filled := reader.FillBuf();
      if filled.None? { return Transport; }
      var available := filled.value;
      if available == [] {
        assert bytes == stream;
        AtEnd(bytes, maximum);
        return if bytes == [] then EndOfInput else Truncated;
      }
      var newline := FirstLf(available);
      var wanted := if newline.Some? then newline.value + 1 else |available|;
      var room := maximum + 1 - |bytes|;
      var consumed := if wanted < room then wanted else room;
      ghost var rest := reader.remaining[|available|..];
      assert stream == bytes + available + rest;
      if |bytes| + consumed > maximum { Overflows(bytes, available, rest, consumed, maximum); }
      else if newline.Some? { Ends(bytes, available, rest, maximum); }
      FirstLfBeyond(bytes, available, rest);
      bytes := bytes + available[..consumed];
      reader.Consume(consumed);
      if |bytes| > maximum { return TooLarge; }
      if newline.Some? && consumed == wanted {
        return Frame(bytes[..|bytes| - 1]);
      }
      if consumed < wanted { return TooLarge; }
      assert available[..consumed] == available;
    }
    assert false;
  }
}

/** What a JSON-RPC frame may look like. */
module JsonRpc {
  import opened Prelude
  import Encoding

  const MAX_JSON_RPC_STRING_BYTES: nat := 128

  /** `Integer` covers the numbers without a fraction, `Decimal` the others. */
  datatype Json =
    | Null
    | Bool(b: bool)
    | Integer(n: int)
    | Decimal(text: string)
    | String(s: Bytes)
    | Array(items: seq<Json>)
    | Object(fields: map<string, Json>)

  predicate Bounded(s: Bytes) {
    0 < |s| <= MAX_JSON_RPC_STRING_BYTES && 0 !in s
  }

  datatype Id = Numeric(n: nat) | Name(s: Bytes)

  predicate ValidId(id: Id) {
    match id
    case Numeric(n) => n < 0x1_0000_0000_0000_0000
    case Name(s) => Bounded(s)
  }

  datatype Result<+T> = Ok(value: T) | ProtocolViolation

  datatype Incoming = Incoming(value: Json, id: Option<Id>, name: Option<Bytes>)

  // "2.0"
  const VERSION: Bytes := [50, 46, 48]

  function IdFrom(value: Json): Result<Id> {
    match value
    case Integer(n) => if 0 <= n < 0x1_0000_0000_0000_0000 then Ok(Numeric(n)) else ProtocolViolation
    case String(s) => if Bounded(s) then Ok(Name(s)) else ProtocolViolation
    case _ => ProtocolViolation
  }

  function IdValue(id: Id): Json {
    match id
    case Numeric(n) => Integer(n)
    case Name(s) => String(s)
  }

  function MethodFrom(value: Json): Result<Bytes> {
    if value.String? && Bounded(value.s) then Ok(value.s) else ProtocolViolation
  }

  predicate Structured(value: Json) {
    value.Object? || value.Array?
  }

  function ParseIncoming(value: Json): Result<Incoming> {
    if !value.Object? || "jsonrpc" !in value.fields || value.fields["jsonrpc"] != String(VERSION) then ProtocolViolation
    else
      var f := value.fields;
      var id := if "id" in f then IdFrom(f["id"]) else ProtocolViolation;
      var name := if "method" in f then MethodFrom(f["method"]) else ProtocolViolation;
      if ("id" in f && id.ProtocolViolation?) || ("method" in f && name.ProtocolViolation?) then ProtocolViolation
      else if "method" in f then
        if "result" in f || "error" in f || ("params" in f && !Structured(f["params"])) then ProtocolViolation
        else Ok(Incoming(value, if "id" in f then Some(id.value) else None, Some(name.value)))
      else if "id" !in f || ("result" in f <==> "error" in f) || "params" in f then ProtocolViolation
      else Ok(Incoming(value, Some(id.value), None))
  }

  // "protocol error"
  const PROTOCOL_ERROR: Bytes := [112, 114, 111, 116, 111, 99, 111, 108, 32, 101, 114, 114, 111, 114]

  function ResultFrame(id: Id, result: Json): Json {
    Object(map["jsonrpc" := String(VERSION), "id" := IdValue(id), "result" := result])
  }

  function ErrorFrame(id: Id, code: int, message: Bytes): Json {
    var shown := if message == [] || |message| > 256 || 0 in message then PROTOCOL_ERROR else message;
    Object(map["jsonrpc" := String(VERSION), "id" := IdValue(id),
               "error" := Object(map["code" := Integer(code), "message" := String(shown)])])
  }

  function NotificationFrame(name: Bytes, params: Json): Result<Json> {
    if !Bounded(name) || !Structured(params) then ProtocolViolation
    else Ok(Object(map["jsonrpc" := String(VERSION), "method" := String(name), "params" := params]))
  }

  /** What can be sent: the three constructors. */
  datatype Outgoing =
    | Answer(id: Id, result: Json)
    | Failure(id: Id, code: int, message: Bytes)
    | Notification(name: Bytes, params: Json)

  predicate Sendable(frame: Outgoing) {
    match frame
    case Answer(id, _) => ValidId(id)
    case Failure(id, _, _) => ValidId(id)
    case Notification(name, params) => Bounded(name) && Structured(params)
  }

  function ValueOf(frame: Outgoing): Json
    requires Sendable(frame)
  {
    match frame
    case Answer(id, result) => ResultFrame(id, result)
    case Failure(id, code, message) => ErrorFrame(id, code, message)
    case Notification(name, params) => NotificationFrame(name, params).value
  }

  /** Every frame that can be sent is one the other side accepts, with the same id and method. */
  lemma OutgoingIsIncoming(frame: Outgoing)
    requires Sendable(frame)
    ensures ParseIncoming(ValueOf(frame)) ==
            Ok(Incoming(ValueOf(frame),
                        if frame.Notification? then None else Some(frame.id),
                        if frame.Notification? then Some(frame.name) else None))
  {
    match frame
    case Answer(id, result) => assert IdFrom(IdValue(id)) == Ok(id);
    case Failure(id, code, message) => assert IdFrom(IdValue(id)) == Ok(id);
    case Notification(name, params) => assert MethodFrom(String(name)) == Ok(name);
  }

  /** What the other side makes of an accepted value. */
  function Understood(value: Json): Option<Outgoing> {
    var incoming := ParseIncoming(value);
    if incoming.ProtocolViolation? then None
    else
      var f := value.fields;
      if "result" in f then Some(Answer(incoming.value.id.value, f["result"]))
      else if "error" in f then
        match f["error"]
        case Object(e) =>
          if "code" in e && "message" in e && e["code"].Integer? && e["message"].String?
          then Some(Failure(incoming.value.id.value, e["code"].n, e["message"].s)) else None
        case _ => None
      else if "params" in f then Some(Notification(incoming.value.name.value, f["params"]))
      else None
  }

  /** A message that is shown as it is. */
  predicate Showable(message: Bytes) {
    0 < |message| <= 256 && 0 !in message
  }

  /** Id, result, code, message, method and parameters arrive as they were sent; only a message that may
      not be shown arrives as the text "protocol error". */
  lemma SentIsUnderstood(frame: Outgoing)
    requires Sendable(frame)
    ensures Understood(ValueOf(frame)) ==
            Some(if frame.Failure? && !Showable(frame.message)
                 then frame.(message := PROTOCOL_ERROR) else frame)
    ensures Showable(PROTOCOL_ERROR) && PROTOCOL_ERROR == Encoding.Ascii("protocol error")
    ensures VERSION == Encoding.Ascii("2.0")
  {
    OutgoingIsIncoming(frame);
  }

  /** Members the protocol knows, each well-formed where present. */
  ghost predicate MembersOk(f: map<string, Json>) {
    && "jsonrpc" in f && f["jsonrpc"] == String(VERSION)
    && ("id" in f ==> exists id :: ValidId(id) && f["id"] == IdValue(id))
    && ("method" in f ==> f["method"].String? && Bounded(f["method"].s))
  }

  /** A request or notification: a method, perhaps structured parameters, no outcome. */
  predicate IsCall(f: map<string, Json>) {
    "method" in f && "result" !in f && "error" !in f && ("params" in f ==> Structured(f["params"]))
  }

  /** A response: an id and exactly one of result and error. */
  predicate IsResponse(f: map<string, Json>) {
    "method" !in f && "id" in f && ("result" in f <==> "error" !in f) && "params" !in f
  }

  /** Exactly calls and responses are accepted, and the parsed id and method are those of the value. */
  lemma AcceptedShape(value: Json)
    ensures ParseIncoming(value).Ok? <==>
              value.Object? && MembersOk(value.fields) && (IsCall(value.fields) || IsResponse(value.fields))
    ensures ParseIncoming(value).Ok? ==>
              var f, r := value.fields, ParseIncoming(value).value;
              && r.value == value
              && (r.id.Some? <==> "id" in f) && (r.id.Some? ==> ValidId(r.id.value) && IdValue(r.id.value) == f["id"])
              && (r.name.Some? <==> "method" in f) && (r.name.Some? ==> String(r.name.value) == f["method"])
  {
    if value.Object? && "id" in value.fields {
      var id := value.fields["id"];
      if IdFrom(id).Ok? {
        assert ValidId(IdFrom(id).value) && id == IdValue(IdFrom(id).value);
      }
    }
  }
}

/** Frames over a byte stream. */
module Frames {
  import opened Prelude
  import opened BufferedInput
  import opened FrameReading
  import opened JsonRpc

  /** JSON text: strict parsing, and printing on one line. */
  datatype Codec = Codec(parse: Bytes -> Option<Json>, show: Json -> Bytes)

  /** The text of the value is one non-empty line that parses back to it. */
  predicate RoundTrips(codec: Codec, value: Json) {
    var text := codec.show(value);
    LF !in text && text != [] && codec.parse(text) == Some(value)
  }

  datatype Read = Closed | Got(frame: Incoming) | Violation | Oversized | Broken

  function Interpret(codec: Codec, verdict: FrameVerdict): Read {
    match verdict
    case EndOfInput => Closed
    case Truncated => Violation
    case TooLarge => Oversized
    case Transport => Broken
    case Frame(bytes) =>
      if bytes == [] then Violation
      else
        var value := codec.parse(bytes);
        if value.None? then Violation
        else match ParseIncoming(value.value)
          case Ok(frame) => Got(frame)
          case ProtocolViolation => Violation
  }

  predicate LimitOk(maximum: nat) {
    0 < maximum <= MAX_ACP_FRAME_BYTES
  }

  /** The result of reading a frame off a stream, and what is left of the stream. */
  function ReadFrom(codec: Codec, stream: Bytes, maximum: nat): (Read, Bytes) {
    if !LimitOk(maximum) then (Oversized, stream)
    else (Interpret(codec, FrameAt(stream, maximum).0), stream[FrameAt(stream, maximum).1..])
  }

  /** Reads one frame; unless the transport breaks, the pieces the bytes come in make no difference. */
  method ReadFrame(codec: Codec, reader: BufferedReader, maximum: nat) returns (r: Read)
    modifies reader
    ensures r != Broken ==> (r, reader.remaining) == ReadFrom(codec, old(reader.remaining), maximum)
  {
    if !LimitOk(maximum) { return Oversized; }
    var verdict := CollectFrame(reader, maximum);
    r := Interpret(codec, verdict);
  }

  /** The bytes of a frame: exactly when its text and the line feed fit the limit. */
  function WriteFrame(codec: Codec, value: Json, maximum: nat): (r: Option<Bytes>)
    ensures r.Some? <==> |codec.show(value)| < maximum <= MAX_ACP_FRAME_BYTES
    ensures r.Some? ==> |r.value| <= maximum && r.value == codec.show(value) + [LF]
  {
    if !LimitOk(maximum) then None
    else
      var bytes := codec.show(value);
      if |bytes| + 1 > maximum then None else Some(bytes + [LF])
  }

  lemma FrameFirst(line: Bytes, rest: Bytes, maximum: nat)
    requires LF !in line && |line| < maximum
    ensures FrameAt(line + [LF] + rest, maximum) == (Frame(line), |line| + 1)
    ensures (line + [LF] + rest)[|line| + 1..] == rest
  {
    hide FirstLf, FrameAt;
    var stream := line + [LF] + rest;
    assert stream[..|line|] == line;
    FirstLfAt(stream, |line|);
    FrameAtNewline(stream, |line|, maximum);
  }

  /** A text with a line break is cut at the break. */
  lemma FrameCut(text: Bytes, rest: Bytes, maximum: nat)
    requires LF in text && |text| < maximum
    ensures FrameAt(text + [LF] + rest, maximum).1 <= |text|
  {
    hide FirstLf, FrameAt;
    var k := FirstLf(text).value;
    var stream := text + [LF] + rest;
    assert stream[..k] == text[..k];
    FirstLfAt(stream, k);
    FrameAtNewline(stream, k, maximum);
  }

  /** A written frame on one line takes nothing after it, and is read back as itself exactly when its
      value parses back from its text. A text the parser refuses is a protocol violation on reading. */
  lemma WrittenLineReadsBack(codec: Codec, frame: Outgoing, maximum: nat, rest: Bytes)
    requires Sendable(frame) && WriteFrame(codec, ValueOf(frame), maximum).Some?
    requires LF !in codec.show(ValueOf(frame))
    ensures var r := ReadFrom(codec, WriteFrame(codec, ValueOf(frame), maximum).value + rest, maximum);
            && r.1 == rest
            && (r.0 == Got(ParseIncoming(ValueOf(frame)).value) <==> RoundTrips(codec, ValueOf(frame)))
            && (codec.parse(codec.show(ValueOf(frame))).None? ==> r.0 == Violation)
  {
    hide FrameAt, ValueOf, ParseIncoming;
    OutgoingIsIncoming(frame);
    var line := codec.show(ValueOf(frame));
    FrameFirst(line, rest, maximum);
    var value := codec.parse(line);
    if value.Some? && ParseIncoming(value.value).Ok? {
      AcceptedShape(value.value);
    }
  }

  /** A written frame is read back as itself, with nothing after it touched, exactly when its text is
      one non-empty line that parses back. */
  lemma WrittenFrameReadsBack(codec: Codec, frame: Outgoing, maximum: nat, rest: Bytes)
    requires Sendable(frame) && WriteFrame(codec, ValueOf(frame), maximum).Some?
    ensures ReadFrom(codec, WriteFrame(codec, ValueOf(frame), maximum).value + rest, maximum) ==
            (Got(ParseIncoming(ValueOf(frame)).value), rest)
            <==> RoundTrips(codec, ValueOf(frame))
  {
    hide FrameAt, ValueOf, ParseIncoming;
    var text := codec.show(ValueOf(frame));
    if LF in text {
      FrameCut(text, rest, maximum);
    } else {
      WrittenLineReadsBack(codec, frame, maximum, rest);
    }
  }

  /** Every frame fits the limit and is written on one line. */
  ghost predicate AllWritten(codec: Codec, frames: seq<Outgoing>, maximum: nat) {
    forall i :: 0 <= i < |frames| ==>
      && Sendable(frames[i]) && WriteFrame(codec, ValueOf(frames[i]), maximum).Some?
      && LF !in codec.show(ValueOf(frames[i]))
  }

  ghost function Stream(codec: Codec, frames: seq<Outgoing>, maximum: nat): Bytes
    requires AllWritten(codec, frames, maximum)
  {
    if frames == [] then []
    else WriteFrame(codec, ValueOf(frames[0]), maximum).value + Stream(codec, frames[1..], maximum)
  }

  /** The first `n` results. */
  function ReadMany(codec: Codec, stream: Bytes, maximum: nat, n: nat): seq<Read>
    decreases n
  {
    if n == 0 then []
    else
      var first := ReadFrom(codec, stream, maximum);
      [first.0] + ReadMany(codec, first.1, maximum, n - 1)
  }

  function Expected(frames: seq<Outgoing>): seq<Read>
    requires forall i :: 0 <= i < |frames| ==> Sendable(frames[i])
  {
    if frames == [] then [Closed]
    else
      OutgoingIsIncoming(frames[0]);
      [Got(ParseIncoming(ValueOf(frames[0])).value)] + Expected(frames[1..])
  }

  /** Any number of frames written one after the other are read back in order, and then the end,
      exactly when the value of each parses back from its text. */
  lemma {:induction false} StreamReadsBack(codec: Codec, frames: seq<Outgoing>, maximum: nat)
    requires LimitOk(maximum) && AllWritten(codec, frames, maximum)
    ensures ReadMany(codec, Stream(codec, frames, maximum), maximum, |frames| + 1) == Expected(frames)
            <==> forall i :: 0 <= i < |frames| ==> RoundTrips(codec, ValueOf(frames[i]))
  {
    hide FrameAt, ValueOf, WriteFrame, Sendable, ParseIncoming, ReadFrom, RoundTrips;
    if frames == [] {
      NothingLeft(codec, maximum);
    } else {
      OutgoingIsIncoming(frames[0]);
      var rest := Stream(codec, frames[1..], maximum);
      WrittenLineReadsBack(codec, frames[0], maximum, rest);
      StreamReadsBack(codec, frames[1..], maximum);
      var first, later := Got(ParseIncoming(ValueOf(frames[0])).value), ReadMany(codec, rest, maximum, |frames|);
      var read := ReadFrom(codec, Stream(codec, frames, maximum), maximum).0;
      assert [read] + later == [first] + Expected(frames[1..]) <==> read == first && later == Expected(frames[1..]) by {
        SameCons(read, later, first, Expected(frames[1..]));
      }
      AllSplit(codec, frames);
    }
  }

  lemma SameCons<T>(a: T, s: seq<T>, b: T, u: seq<T>)
    ensures [a] + s == [b] + u <==> a == b && s == u
  {
    if [a] + s == [b] + u {
      assert ([a] + s)[0] == a && ([b] + u)[0] == b;
      assert ([a] + s)[1..] == s && ([b] + u)[1..] == u;
    }
  }

  lemma AllSplit(codec: Codec, frames: seq<Outgoing>)
    requires frames != [] && forall i :: 0 <= i < |frames| ==> Sendable(frames[i])
    ensures (forall i :: 0 <= i < |frames| ==> RoundTrips(codec, ValueOf(frames[i]))) <==>
            && RoundTrips(codec, ValueOf(frames[0]))
            && forall i :: 0 <= i < |frames[1..]| ==> RoundTrips(codec, ValueOf(frames[1..][i]))
  {
    hide RoundTrips, ValueOf, Sendable;
    assert forall i :: 0 < i < |frames| ==> frames[i] == frames[1..][i - 1];
    assert forall i :: 0 <= i < |frames[1..]| ==> frames[1..][i] == frames[i + 1];
  }

  lemma NothingLeft(codec: Codec, maximum: nat)
    requires LimitOk(maximum)
    ensures ReadMany(codec, [], maximum, 1) == [Closed]
  {
    assert ReadFrom(codec, [], maximum).0 == Closed;
  }

  /** Reads `n` frames from one reader; the pieces the bytes come in make no difference. */
  method ReadFrames(codec: Codec, reader: BufferedReader, maximum: nat, n: nat)
    returns (results: seq<Read>, broken: bool)
    modifies reader
    ensures !broken ==> results == ReadMany(codec, old(reader.remaining), maximum, n)
  {
    results, broken := [], false;
    for k := 0 to n
      invariant results + ReadMany(codec, reader.remaining, maximum, n - k) ==
                ReadMany(codec, old(reader.remaining), maximum, n)
    {
      ghost var later := ReadMany(codec, reader.remaining, maximum, n - k);
      var r := ReadFrame(codec, reader, maximum);
      if r == Broken { return results, true; }
      assert results + later == results + [r] + later[1..];
      results := results + [r];
    }
  }

  /** The bytes of written frames, in whatever pieces they arrive: unless the transport breaks, the
      frames come back in order and then the end. */
  method ReadBack(codec: Codec, reader: BufferedReader, maximum: nat, n: nat, ghost frames: seq<Outgoing>)
    returns (results: seq<Read>, broken: bool)
    requires LimitOk(maximum) && AllWritten(codec, frames, maximum) && n == |frames| + 1
    requires reader.remaining == Stream(codec, frames, maximum)
    modifies reader
    ensures !broken ==> (results == Expected(frames) <==>
                         forall i :: 0 <= i < |frames| ==> RoundTrips(codec, ValueOf(frames[i])))
  {
    hide RoundTrips, ReadMany, Expected, Stream;
    StreamReadsBack(codec, frames, maximum);
    results, broken := ReadFrames(codec, reader, maximum, n);
  }
}

/** Lines exchanged with a sidecar process. */
module SidecarLines {
  import opened Prelude
  import opened BufferedInput
  import opened JsonRpc
  import opened Frames

  datatype LineRead = Ended | Line(bytes: Bytes) | MissingTerminator | TooLong | IoError

  function StripCr(line: Bytes): Bytes {
    if line != [] && line[|line| - 1] == CR then line[..|line| - 1] else line
  }

  /** The verdict on a stream, whatever the pieces. */
  function LineAt(stream: Bytes, maximum: nat): LineRead {
    var newline := FirstLf(stream);
    if stream == [] then Ended
    else if newline.Some? && newline.value < maximum then Line(StripCr(stream[..newline.value]))
    else if |stream| > maximum then TooLong
    else MissingTerminator
  }

  lemma PastLimit(read: Bytes, piece: Bytes, rest: Bytes, wanted: nat, maximum: nat)
    requires LF !in read && wanted <= |piece| && |read| <= maximum < |read| + wanted
    requires FirstLf(piece).Some? ==> wanted == FirstLf(piece).value + 1
    ensures LineAt(read + piece + rest, maximum) == TooLong
  {
    hide FirstLf;
    FirstLfBeyond(read, piece, rest);
    var stream, n := read + piece + rest, |read| + wanted;
    if FirstLf(piece).None? {
      NotEarlier(stream, read + piece);
    }
  }

  lemma NotEarlier(stream: Bytes, read: Bytes)
    requires read <= stream && LF !in read
    ensures FirstLf(stream).Some? ==> |read| <= FirstLf(stream).value
  {
    hide FirstLf;
    forall i | 0 <= i < |read| ensures stream[i] != LF {
      assert read[i] == stream[i];
    }
  }

  lemma LineAtNewline(stream: Bytes, k: nat, maximum: nat)
    requires FirstLf(stream) == Some(k) && k < maximum
    ensures k < |stream| && LineAt(stream, maximum) == Line(StripCr(stream[..k]))
  {
    hide FirstLf;
  }

  lemma LineMissing(read: Bytes, maximum: nat)
    requires LF !in read && |read| <= maximum
    ensures LineAt(read, maximum) == if read == [] then Ended else MissingTerminator
  {
  }

  /** Reads one line. The verdict depends on the stream alone; at most the limit is consumed. */
  method ReadBoundedLine(reader: BufferedReader, maximum: nat) returns (r: LineRead)
    modifies reader
    ensures r != IoError ==> r == LineAt(old(reader.remaining), maximum)
    ensures r.Line? ==>
              exists k :: FirstLf(old(reader.remaining)) == Some(k) &&
                          reader.remaining == old(reader.remaining)[k + 1..]
    ensures |reader.remaining| <= |old(reader.remaining)| <= |reader.remaining| + maximum
  {
    hide FirstLf, LineAt, StripCr;
    ghost var stream := reader.remaining;
    var line: Bytes := [];
    while true
      invariant |line| <= |stream| && reader.remaining == stream[|line|..] && line == stream[..|line|]
      invariant |line| <= maximum && LF !in line
      decreases |reader.remaining|
    {
      var filled := reader.FillBuf();
      if filled.None? { return IoError; }
      var available := filled.value;
      if available == [] {
        assert line == stream;
        LineMissing(line, maximum);
        return if line == [] then Ended else MissingTerminator;
      }
      var newline := FirstLf(available);
      var consumed := if newline.Some? then newline.value + 1 else |available|;
      ghost var rest := reader.remaining[|available|..];
      assert stream == line + available + rest;
      if |line| + consumed > maximum {
        PastLimit(line, available, rest, consumed, maximum);
        return TooLong;
      }
      FirstLfBeyond(line, available, rest);
      if newline.Some? { LineAtNewline(stream, |line| + newline.value, maximum); }
      line := line + available[..consumed];
      reader.Consume(consumed);
      if newline.Some? {
        assert line[..|line| - 1] == stream[..|line| - 1];
        return Line(StripCr(line[..|line| - 1]));
      }
      assert available[..consumed] == available;
    }
    assert false;
  }

  function EncodeLine(codec: Codec, value: Json, maximum: nat): (r: Option<Bytes>)
    ensures r.Some? ==> |r.value| <= maximum
  {
    var line := codec.show(value);
    if |line| + 1 > maximum then None else Some(line + [LF])
  }

  /** An encoded line within the limit is read back as its text exactly when the text has no line feed
      and no carriage return at its end. */
  lemma EncodedLineReadsBack(codec: Codec, value: Json, maximum: nat, rest: Bytes)
    requires EncodeLine(codec, value, maximum).Some?
    ensures var text := codec.show(value);
            LineAt(EncodeLine(codec, value, maximum).value + rest, maximum) == Line(text)
            <==> LF !in text && (text != [] ==> text[|text| - 1] != CR)
  {
    hide FirstLf, LineAt;
    var text := codec.show(value);
    var stream := text + [LF] + rest;
    var k := if LF in text then FirstLf(text).value else |text|;
    assert stream[..k] == text[..k];
    FirstLfAt(stream, k);
    LineAtNewline(stream, k, maximum);
    assert text[..|text|] == text;
  }
}
