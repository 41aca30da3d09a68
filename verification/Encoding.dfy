/** Length-prefixed canonical encodings: layouts of fields, written and read back. */
module Encoding {
  import opened Prelude

  // ---- big-endian numbers ----

  function Pow256(width: nat): (p: nat)
    ensures p > 0
  {
    if width == 0 then 1 else 256 * Pow256(width - 1)
  }

  function BigEndian(n: nat, width: nat): (bytes: Bytes)
    ensures |bytes| == width
  {
    if width == 0 then [] else BigEndian(n / 256, width - 1) + [n % 256]
  }

  function Value(bytes: Bytes): (n: nat)
    ensures n < Pow256(|bytes|)
  {
    if bytes == [] then 0 else Value(bytes[..|bytes| - 1]) * 256 + bytes[|bytes| - 1]
  }

  lemma {:induction false} BigEndianValue(n: nat, width: nat)
    requires n < Pow256(width)
    ensures Value(BigEndian(n, width)) == n
  {
    if width > 0 {
      BigEndianValue(n / 256, width - 1);
      var bytes := BigEndian(n, width);
      assert bytes[..|bytes| - 1] == BigEndian(n / 256, width - 1);
    }
  }

  // ---- fields ----

  /** `Raw` is copied as is, `Number` is big-endian, `Text` carries a four-byte length, `Optional` a
      one-byte presence tag. */
  datatype Shape = Raw(width: nat) | Number(width: nat) | Text | Optional(width: nat)
  datatype Field =
    | RawField(raw: Bytes) | NumberField(number: nat) | TextField(text: Bytes) | OptionalField(optional: Option<Bytes>)

  /** The value fits its place: what the encoder's conversions demand. */
  predicate Fits(shape: Shape, field: Field) {
    match (shape, field)
    case (Raw(width), RawField(raw)) => |raw| == width
    case (Number(width), NumberField(number)) => number < Pow256(width)
    case (Text, TextField(text)) => |text| < Pow256(4)
    case (Optional(width), OptionalField(optional)) => optional.Some? ==> |optional.value| == width
    case _ => false
  }

  function Encode(shape: Shape, field: Field): Bytes
    requires Fits(shape, field)
  {
    match field
    case RawField(raw) => raw
    case NumberField(number) => BigEndian(number, shape.width)
    case TextField(text) => BigEndian(|text|, 4) + text
    case OptionalField(optional) => if optional.Some? then [1] + optional.value else [0]
  }

  function Decode(shape: Shape, bytes: Bytes): (r: Option<(Field, Bytes)>)
    ensures r.Some? ==> Fits(shape, r.value.0)
  {
    match shape
    case Raw(width) =>
      if |bytes| < width then None else Some((RawField(bytes[..width]), bytes[width..]))
    case Number(width) =>
      if |bytes| < width then None else Some((NumberField(Value(bytes[..width])), bytes[width..]))
    case Text =>
      if |bytes| < 4 then None
      else
        var length := Value(bytes[..4]);
        if |bytes| < 4 + length then None
        else Some((TextField(bytes[4..4 + length]), bytes[4 + length..]))
    case Optional(width) =>
      if bytes == [] then None
      else if bytes[0] == 0 then Some((OptionalField(None), bytes[1..]))
      else if bytes[0] == 1 && |bytes| >= 1 + width then
        Some((OptionalField(Some(bytes[1..1 + width])), bytes[1 + width..]))
      else None
  }

  lemma FieldRoundTrip(shape: Shape, field: Field, rest: Bytes)
    requires Fits(shape, field)
    ensures Decode(shape, Encode(shape, field) + rest) == Some((field, rest))
  {
    var bytes := Encode(shape, field) + rest;
    match field {
      case RawField(raw) =>
        assert bytes[..|raw|] == raw && bytes[|raw|..] == rest;
      case NumberField(number) =>
        var width := shape.width;
        assert bytes[..width] == BigEndian(number, width) && bytes[width..] == rest;
        BigEndianValue(number, width);
      case TextField(text) =>
        assert bytes[..4] == BigEndian(|text|, 4);
        BigEndianValue(|text|, 4);
        assert bytes[4..4 + |text|] == text && bytes[4 + |text|..] == rest;
      case OptionalField(optional) =>
        if optional.Some? {
          assert bytes[1..1 + shape.width] == optional.value && bytes[1 + shape.width..] == rest;
        } else {
          assert bytes[1..] == rest;
        }
    }
  }

  // ---- layouts ----

  predicate FitAll(layout: seq<Shape>, fields: seq<Field>) {
    |layout| == |fields| && forall i :: 0 <= i < |layout| ==> Fits(layout[i], fields[i])
  }

  function EncodeAll(layout: seq<Shape>, fields: seq<Field>): Bytes
    requires FitAll(layout, fields)
  {
    if layout == [] then [] else Encode(layout[0], fields[0]) + EncodeAll(layout[1..], fields[1..])
  }

  function DecodeAll(layout: seq<Shape>, bytes: Bytes): (r: Option<(seq<Field>, Bytes)>)
    ensures r.Some? ==> FitAll(layout, r.value.0)
  {
    if layout == [] then Some(([], bytes))
    else
      match Decode(layout[0], bytes)
      case None => None
      case Some((field, rest)) =>
        match DecodeAll(layout[1..], rest)
        case None => None
        case Some((fields, tail)) => Some(([field] + fields, tail))
  }

  /** Any layout reads back exactly the fields that were written, and stops where they end. */
  lemma {:induction false} LayoutRoundTrip(layout: seq<Shape>, fields: seq<Field>, rest: Bytes)
    requires FitAll(layout, fields)
    ensures DecodeAll(layout, EncodeAll(layout, fields) + rest) == Some((fields, rest))
  {
    if layout == [] {
      assert EncodeAll(layout, fields) + rest == rest;
    } else {
      var tail := EncodeAll(layout[1..], fields[1..]) + rest;
      assert EncodeAll(layout, fields) + rest == Encode(layout[0], fields[0]) + tail;
      FieldRoundTrip(layout[0], fields[0], tail);
      LayoutRoundTrip(layout[1..], fields[1..], rest);
      assert fields == [fields[0]] + fields[1..];
    }
  }

  /** Every field stands, encoded on its own, right after the fields before it. */
  lemma {:induction false} FieldAt(layout: seq<Shape>, fields: seq<Field>, k: nat)
    requires FitAll(layout, fields) && k < |layout|
    ensures var before := EncodeAll(layout[..k], fields[..k]);
            before + Encode(layout[k], fields[k]) <= EncodeAll(layout, fields)
  {
    hide Encode, Fits;
    var first := Encode(layout[0], fields[0]);
    if k == 0 {
      assert EncodeAll(layout[..0], fields[..0]) + first == first;
    } else {
      FieldAt(layout[1..], fields[1..], k - 1);
      assert layout[1..][..k - 1] == layout[..k][1..] && fields[1..][..k - 1] == fields[..k][1..];
      var before := EncodeAll(layout[1..][..k - 1], fields[1..][..k - 1]);
      assert EncodeAll(layout[..k], fields[..k]) == first + before;
      assert first + before + Encode(layout[k], fields[k]) == first + (before + Encode(layout[k], fields[k]));
    }
  }

  // ---- domains ----

  predicate Plain(name: string) {
    forall i :: 0 <= i < |name| ==> 0 < name[i] as int < 128
  }

  function Ascii(name: string): (bytes: Bytes)
    requires Plain(name)
    ensures |bytes| == |name| && forall i :: 0 <= i < |name| ==> bytes[i] == name[i] as int && bytes[i] != 0
  {
    seq(|name|, i requires 0 <= i < |name| => name[i] as int as byte)
  }

  /** A domain separator: the name and a NUL. */
  function Domain(name: string): (bytes: Bytes)
    requires Plain(name)
    ensures |bytes| == |name| + 1
  {
    Ascii(name) + [0]
  }

  /** NUL-terminated domains are prefix-free: the bytes determine the domain and what follows it. */
  lemma DomainsPrefixFree(name: string, body: Bytes, other: string, otherBody: Bytes)
    requires Plain(name) && Plain(other)
    requires Domain(name) + body == Domain(other) + otherBody
    ensures name == other && body == otherBody
  {
    FirstNul(name, body);
    FirstNul(other, otherBody);
    if |name| != |other| {
      assert false;
    }
    var left, right := Domain(name) + body, Domain(other) + otherBody;
    forall i | 0 <= i < |name| ensures name[i] == other[i] {
      assert left[i] == Ascii(name)[i] && right[i] == Ascii(other)[i];
    }
    assert left[|name| + 1..] == body && right[|other| + 1..] == otherBody;
  }

  lemma FirstNul(name: string, body: Bytes)
    requires Plain(name)
    ensures (Domain(name) + body)[|name|] == 0
    ensures forall i :: 0 <= i < |name| ==> (Domain(name) + body)[i] != 0
  {
    forall i | 0 <= i < |name| ensures (Domain(name) + body)[i] != 0 {
      assert (Domain(name) + body)[i] == Ascii(name)[i];
    }
  }

  /** Removes the domain, if the bytes start with it. */
  function Strip(name: string, bytes: Bytes): Option<Bytes>
    requires Plain(name)
  {
    if Domain(name) <= bytes then Some(bytes[|name| + 1..]) else None
  }

  lemma StripDomain(name: string, body: Bytes)
    requires Plain(name)
    ensures Strip(name, Domain(name) + body) == Some(body)
  {
    assert (Domain(name) + body)[..|name| + 1] == Domain(name);
    assert (Domain(name) + body)[|name| + 1..] == body;
  }
}

/** Whole records: a domain followed by a layout, nothing after it. */
module Records {
  import opened Prelude
  import opened Encoding

  function DecodeWhole(name: string, layout: seq<Shape>, bytes: Bytes): (r: Option<seq<Field>>)
    requires Plain(name)
    ensures r.Some? ==> FitAll(layout, r.value)
  {
    match Strip(name, bytes)
    case None => None
    case Some(body) =>
      match DecodeAll(layout, body)
      case None => None
      case Some((fields, rest)) => if rest == [] then Some(fields) else None
  }

  lemma WholeRoundTrip(name: string, layout: seq<Shape>, fields: seq<Field>)
    requires Plain(name) && FitAll(layout, fields)
    ensures DecodeWhole(name, layout, Domain(name) + EncodeAll(layout, fields)) == Some(fields)
  {
    var body := EncodeAll(layout, fields);
    StripDomain(name, body);
    LayoutRoundTrip(layout, fields, []);
    assert body + [] == body;
  }
}

/** The canonical encodings of verification evidence. */
module Evidence {
  import opened Prelude
  import opened Encoding
  import opened Records

  const SPECIFICATION := "carl.verification-spec.v1"
  const ATTESTATION := "carl.verification-executable.v1"
  const ARGUMENTS := "carl.verification-argv.v1"
  const REQUEST := "carl.verification-request.v1"
  const RESULT := "carl.verification-result.v1"
  const DIRECTORY_MANIFEST := "carl.baseline-directories.v1"

  type Digest = d: Bytes | |d| == 32 witness seq(32, _ => 0)
  type Uuid = u: Bytes | |u| == 16 witness seq(16, _ => 0)
  type U64 = n: nat | n < 0x1_0000_0000_0000_0000

  datatype Executable = Executable(path: Bytes, length: U64, content: Digest, riskTag: Bytes, identity: Bytes)
  datatype Limits = Limits(timeout: U64, maxOutput: U64, graceful: U64, forced: U64, poll: U64)
  datatype Specification = Specification(executable: Executable, arguments: seq<Bytes>, limits: Limits)
  datatype Request = Request(
    verification: Uuid, run: Uuid,
    baselineArtifact: Bytes, baselineDigest: Digest,
    preconditionsArtifact: Bytes, preconditionsDigest: Digest,
    directoryDigest: Digest,
    proposalArtifact: Bytes, payloadArtifact: Bytes, payloadDigest: Digest, candidateDigest: Digest,
    specification: Specification)
  datatype Outcome =
    | Passed | NonZeroExit | TimedOut | Cancelled
    | OutputLimitExceeded | ProcessFailed | CandidateMutated | OutputRejected
  datatype Result = Result(
    verification: Uuid, run: Uuid, request: Digest, expectedCandidate: Digest, expectedDirectory: Digest,
    outcome: Outcome, exitCode: Option<int>, observedCandidate: Option<Digest>, observedDirectory: Option<Digest>,
    attestation: Digest, attestationEvidence: Bytes,
    stdoutLength: U64, stdoutDigest: Digest, stderrLength: U64, stderrDigest: Digest, duration: U64)

  lemma Widths()
    ensures Pow256(1) == 0x100 && Pow256(4) == 0x1_0000_0000 && Pow256(8) == 0x1_0000_0000_0000_0000
  {
    assert Pow256(2) == 0x1_0000;
    assert Pow256(3) == 0x100_0000;
    assert Pow256(5) == 0x100_0000_0000;
    assert Pow256(6) == 0x1_0000_0000_0000;
    assert Pow256(7) == 0x100_0000_0000_0000;
  }

  const TEXT_LIMIT: nat := 0x1_0000_0000

  // ---- executable ----

  const EXECUTABLE_LAYOUT := [Text, Number(8), Raw(32), Text, Text]

  function ExecutableFields(e: Executable): seq<Field> {
    [TextField(e.path), NumberField(e.length), RawField(e.content), TextField(e.riskTag), TextField(e.identity)]
  }

  /** The lengths that the source has validated to fit their prefixes. */
  predicate ExecutableFits(e: Executable) {
    |e.path| < TEXT_LIMIT && |e.riskTag| < TEXT_LIMIT && |e.identity| < TEXT_LIMIT
  }

  lemma ExecutableFieldsFit(e: Executable)
    requires ExecutableFits(e)
    ensures FitAll(EXECUTABLE_LAYOUT, ExecutableFields(e)) && Plain(ATTESTATION)
  {
    Widths();
  }

  function EncodeExecutable(e: Executable): Bytes
    requires ExecutableFits(e)
  {
    ExecutableFieldsFit(e);
    Domain(ATTESTATION) + EncodeAll(EXECUTABLE_LAYOUT, ExecutableFields(e))
  }

  function DecodeExecutable(bytes: Bytes): Option<Executable> {
    assert Plain(ATTESTATION);
    match DecodeWhole(ATTESTATION, EXECUTABLE_LAYOUT, bytes)
    case None => None
    case Some(f) => Widths(); Some(Executable(f[0].text, f[1].number, f[2].raw, f[3].text, f[4].text))
  }

  lemma ExecutableRoundTrip(e: Executable)
    requires ExecutableFits(e)
    ensures DecodeExecutable(EncodeExecutable(e)) == Some(e)
  {
    ExecutableFieldsFit(e);
    WholeRoundTrip(ATTESTATION, EXECUTABLE_LAYOUT, ExecutableFields(e));
  }

  // ---- argument vector ----

  function EncodeText(text: Bytes): Bytes {
    BigEndian(|text|, 4) + text
  }

  function EncodeTexts(texts: seq<Bytes>): Bytes {
    if texts == [] then [] else EncodeText(texts[0]) + EncodeTexts(texts[1..])
  }

  predicate TextsFit(texts: seq<Bytes>) {
    |texts| < TEXT_LIMIT && forall i :: 0 <= i < |texts| ==> |texts[i]| < TEXT_LIMIT
  }

  function EncodeArguments(arguments: seq<Bytes>): Bytes
    requires TextsFit(arguments)
  {
    assert Plain(ARGUMENTS);
    Domain(ARGUMENTS) + BigEndian(|arguments|, 4) + EncodeTexts(arguments)
  }

  /** The encoding of a list of directories. */
  function EncodeDirectories(paths: seq<Bytes>): Bytes {
    assert Plain(DIRECTORY_MANIFEST);
    Domain(DIRECTORY_MANIFEST) + BigEndian(|paths|, 4) + EncodeTexts(paths)
  }

  function DecodeTexts(count: nat, bytes: Bytes): Option<(seq<Bytes>, Bytes)> {
    if count == 0 then Some(([], bytes))
    else
      match Decode(Text, bytes)
      case None => None
      case Some((field, rest)) =>
        match DecodeTexts(count - 1, rest)
        case None => None
        case Some((texts, tail)) => Some(([field.text] + texts, tail))
  }

  function DecodeCounted(name: string, bytes: Bytes): Option<seq<Bytes>>
    requires Plain(name)
  {
    match Strip(name, bytes)
    case None => None
    case Some(body) =>
      if |body| < 4 then None
      else
        match DecodeTexts(Value(body[..4]), body[4..])
        case None => None
        case Some((texts, rest)) => if rest == [] then Some(texts) else None
  }

  function DecodeArguments(bytes: Bytes): Option<seq<Bytes>> {
    assert Plain(ARGUMENTS);
    DecodeCounted(ARGUMENTS, bytes)
  }

  /** Appending one more text, as the encoder's loop does. */
  lemma {:induction false} EncodeTextsAppend(texts: seq<Bytes>, last: Bytes)
    ensures EncodeTexts(texts + [last]) == EncodeTexts(texts) + EncodeText(last)
  {
    if texts == [] {
      assert EncodeTexts([last]) == EncodeText(last) + EncodeTexts([]);
    } else {
      assert (texts + [last])[1..] == texts[1..] + [last];
      EncodeTextsAppend(texts[1..], last);
    }
  }

  lemma TextRoundTrip(text: Bytes, rest: Bytes)
    requires |text| < TEXT_LIMIT
    ensures Decode(Text, EncodeText(text) + rest) == Some((TextField(text), rest))
  {
    hide Pow256, BigEndian, Decode;
    Widths();
    FieldRoundTrip(Text, TextField(text), rest);
  }

  lemma {:induction false} TextsRoundTrip(texts: seq<Bytes>, rest: Bytes)
    requires forall i :: 0 <= i < |texts| ==> |texts[i]| < TEXT_LIMIT
    ensures DecodeTexts(|texts|, EncodeTexts(texts) + rest) == Some((texts, rest))
  {
    hide Pow256, BigEndian, Decode, EncodeText;
    if texts == [] {
      assert EncodeTexts(texts) + rest == rest;
    } else {
      var first, tail := EncodeText(texts[0]), EncodeTexts(texts[1..]) + rest;
      assert first + EncodeTexts(texts[1..]) + rest == first + tail;
      TextRoundTrip(texts[0], tail);
      TextsRoundTrip(texts[1..], rest);
      assert texts == [texts[0]] + texts[1..];
    }
  }

  lemma CountedRoundTrip(name: string, texts: seq<Bytes>)
    requires Plain(name) && TextsFit(texts)
    ensures DecodeCounted(name, Domain(name) + BigEndian(|texts|, 4) + EncodeTexts(texts)) == Some(texts)
  {
    hide Value, Strip, DecodeTexts, EncodeTexts, BigEndian, Domain;
    var count, tail := BigEndian(|texts|, 4), EncodeTexts(texts);
    Widths();
    BigEndianValue(|texts|, 4);
    TextsRoundTrip(texts, []);
    assert tail + [] == tail;
    assert (count + tail)[..4] == count && (count + tail)[4..] == tail;
    StripDomain(name, count + tail);
    assert Domain(name) + count + tail == Domain(name) + (count + tail);
  }

  lemma ArgumentsRoundTrip(arguments: seq<Bytes>)
    requires TextsFit(arguments)
    ensures DecodeArguments(EncodeArguments(arguments)) == Some(arguments)
  {
    assert Plain(ARGUMENTS);
    CountedRoundTrip(ARGUMENTS, arguments);
  }

  lemma NoTexts()
    ensures EncodeTexts([]) == []
  {
  }

  /** The encoder's loop. */
  method CanonicalArguments(arguments: seq<Bytes>) returns (bytes: Bytes)
    requires TextsFit(arguments)
    ensures bytes == EncodeArguments(arguments)
  {
    hide BigEndian, Domain, EncodeText, EncodeTexts;
    assert Plain(ARGUMENTS);
    NoTexts();
    bytes := Domain(ARGUMENTS) + BigEndian(|arguments|, 4);
    var head := bytes;
    var i := 0;
    while i < |arguments|
      invariant 0 <= i <= |arguments|
      invariant bytes == head + EncodeTexts(arguments[..i])
    {
      assert arguments[..i + 1] == arguments[..i] + [arguments[i]];
      EncodeTextsAppend(arguments[..i], arguments[i]);
      bytes := bytes + EncodeText(arguments[i]);
      i := i + 1;
    }
    assert arguments[..i] == arguments;
  }

  // ---- specification ----

  const SPECIFICATION_LAYOUT := [
    Raw(32), Text, Raw(32), Text, Number(1), Number(8), Number(8), Number(8), Number(8), Number(8)]
  const CLEAN_V1: nat := 0

  predicate SpecificationFits(s: Specification) {
    && ExecutableFits(s.executable) && TextsFit(s.arguments)
    && |EncodeExecutable(s.executable)| < TEXT_LIMIT && |EncodeArguments(s.arguments)| < TEXT_LIMIT
  }

  function SpecificationFields(digest: Bytes -> Digest, s: Specification): seq<Field>
    requires SpecificationFits(s)
  {
    var attestation, arguments := EncodeExecutable(s.executable), EncodeArguments(s.arguments);
    [RawField(digest(attestation)), TextField(attestation), RawField(digest(arguments)), TextField(arguments),
     NumberField(CLEAN_V1), NumberField(s.limits.timeout), NumberField(s.limits.maxOutput),
     NumberField(s.limits.graceful), NumberField(s.limits.forced), NumberField(s.limits.poll)]
  }

  lemma SpecificationFieldsFit(digest: Bytes -> Digest, s: Specification)
    requires SpecificationFits(s)
    ensures FitAll(SPECIFICATION_LAYOUT, SpecificationFields(digest, s)) && Plain(SPECIFICATION)
  {
    Widths();
  }

  function EncodeSpecification(digest: Bytes -> Digest, s: Specification): Bytes
    requires SpecificationFits(s)
  {
    SpecificationFieldsFit(digest, s);
    Domain(SPECIFICATION) + EncodeAll(SPECIFICATION_LAYOUT, SpecificationFields(digest, s))
  }

  /** Each digest is that of the text after it, and the environment profile is the only one there is. */
  predicate Attested(digest: Bytes -> Digest, f: seq<Field>)
    requires FitAll(SPECIFICATION_LAYOUT, f)
  {
    f[0].raw == digest(f[1].text) && f[2].raw == digest(f[3].text) && f[4].number == 0
  }

  function LimitsFrom(f: seq<Field>): Limits
    requires FitAll(SPECIFICATION_LAYOUT, f)
  {
    Widths();
    Limits(f[5].number, f[6].number, f[7].number, f[8].number, f[9].number)
  }

  /** Reads a specification and checks what it attests. */
  function DecodeSpecification(digest: Bytes -> Digest, bytes: Bytes): Option<Specification> {
    assert Plain(SPECIFICATION);
    match DecodeWhole(SPECIFICATION, SPECIFICATION_LAYOUT, bytes)
    case None => None
    case Some(f) =>
      if !Attested(digest, f) then None
      else
        match (DecodeExecutable(f[1].text), DecodeArguments(f[3].text))
        case (Some(executable), Some(arguments)) => Some(Specification(executable, arguments, LimitsFrom(f)))
        case _ => None
  }

  lemma SpecificationRoundTrip(digest: Bytes -> Digest, s: Specification)
    requires SpecificationFits(s)
    ensures DecodeSpecification(digest, EncodeSpecification(digest, s)) == Some(s)
  {
    SpecificationFieldsFit(digest, s);
    WholeRoundTrip(SPECIFICATION, SPECIFICATION_LAYOUT, SpecificationFields(digest, s));
    ExecutableRoundTrip(s.executable);
    ArgumentsRoundTrip(s.arguments);
  }

  // ---- request ----

  const REQUEST_LAYOUT := [
    Raw(16), Raw(16), Text, Raw(32), Text, Raw(32), Raw(32), Text, Text, Raw(32), Raw(32), Raw(32), Text]

  predicate RequestFits(digest: Bytes -> Digest, r: Request) {
    && |r.baselineArtifact| < TEXT_LIMIT && |r.preconditionsArtifact| < TEXT_LIMIT
    && |r.proposalArtifact| < TEXT_LIMIT && |r.payloadArtifact| < TEXT_LIMIT
    && SpecificationFits(r.specification)
    && |EncodeSpecification(digest, r.specification)| < TEXT_LIMIT
  }

  function RequestFields(digest: Bytes -> Digest, r: Request): seq<Field>
    requires RequestFits(digest, r)
  {
    var specification := EncodeSpecification(digest, r.specification);
    [RawField(r.verification), RawField(r.run),
     TextField(r.baselineArtifact), RawField(r.baselineDigest),
     TextField(r.preconditionsArtifact), RawField(r.preconditionsDigest), RawField(r.directoryDigest),
     TextField(r.proposalArtifact), TextField(r.payloadArtifact), RawField(r.payloadDigest),
     RawField(r.candidateDigest), RawField(digest(specification)), TextField(specification)]
  }

  lemma RequestFieldsFit(digest: Bytes -> Digest, r: Request)
    requires RequestFits(digest, r)
    ensures FitAll(REQUEST_LAYOUT, RequestFields(digest, r)) && Plain(REQUEST)
  {
    Widths();
  }

  function EncodeRequest(digest: Bytes -> Digest, r: Request): Bytes
    requires RequestFits(digest, r)
  {
    RequestFieldsFit(digest, r);
    Domain(REQUEST) + EncodeAll(REQUEST_LAYOUT, RequestFields(digest, r))
  }

  /** Reads a request, checking that the last digest is that of the specification after it. */
  function DecodeRequest(digest: Bytes -> Digest, bytes: Bytes): Option<Request> {
    assert Plain(REQUEST);
    match DecodeWhole(REQUEST, REQUEST_LAYOUT, bytes)
    case None => None
    case Some(f) =>
      if f[11].raw != digest(f[12].text) then None else
      match DecodeSpecification(digest, f[12].text)
      case None => None
      case Some(specification) =>
        Some(Request(f[0].raw, f[1].raw, f[2].text, f[3].raw, f[4].text, f[5].raw, f[6].raw, f[7].text, f[8].text,
                     f[9].raw, f[10].raw, specification))
  }

  lemma RequestRoundTrip(digest: Bytes -> Digest, r: Request)
    requires RequestFits(digest, r)
    ensures DecodeRequest(digest, EncodeRequest(digest, r)) == Some(r)
  {
    RequestFieldsFit(digest, r);
    WholeRoundTrip(REQUEST, REQUEST_LAYOUT, RequestFields(digest, r));
    SpecificationRoundTrip(digest, r.specification);
  }

  // ---- result ----

  const VERDICT_LAYOUT := [
    Raw(16), Raw(16), Raw(32), Raw(32), Raw(32), Number(1), Optional(4), Optional(32), Optional(32)]
  const OUTPUT_LAYOUT := [Raw(32), Text, Number(8), Raw(32), Number(8), Raw(32), Number(8)]

  function Tag(outcome: Outcome): nat {
    match outcome
    case Passed => 0 case NonZeroExit => 1 case TimedOut => 2 case Cancelled => 3
    case OutputLimitExceeded => 4 case ProcessFailed => 5 case CandidateMutated => 6 case OutputRejected => 7
  }

  function Untag(tag: nat): Option<Outcome> {
    match tag
    case 0 => Some(Passed) case 1 => Some(NonZeroExit) case 2 => Some(TimedOut) case 3 => Some(Cancelled)
    case 4 => Some(OutputLimitExceeded) case 5 => Some(ProcessFailed)
    case 6 => Some(CandidateMutated) case 7 => Some(OutputRejected) case _ => None
  }

  /** Two's complement in four big-endian bytes. */
  function SignedBytes(code: int): (bytes: Bytes)
    requires -0x8000_0000 <= code < 0x8000_0000
    ensures |bytes| == 4
  {
    BigEndian(if code < 0 then code + 0x1_0000_0000 else code, 4)
  }

  function SignedValue(bytes: Bytes): int {
    var n := Value(bytes);
    if n >= 0x8000_0000 then n - 0x1_0000_0000 else n
  }

  lemma SignedRoundTrip(code: int)
    requires -0x8000_0000 <= code < 0x8000_0000
    ensures SignedValue(SignedBytes(code)) == code
  {
    Widths();
    BigEndianValue(if code < 0 then code + 0x1_0000_0000 else code, 4);
  }

  predicate ResultFits(r: Result) {
    && |r.attestationEvidence| < TEXT_LIMIT
    && (r.exitCode.Some? ==> -0x8000_0000 <= r.exitCode.value < 0x8000_0000)
  }

  function VerdictFields(r: Result): seq<Field>
    requires ResultFits(r)
  {
    [RawField(r.verification), RawField(r.run), RawField(r.request), RawField(r.expectedCandidate),
     RawField(r.expectedDirectory), NumberField(Tag(r.outcome)),
     OptionalField(if r.exitCode.Some? then Some(SignedBytes(r.exitCode.value)) else None),
     OptionalField(r.observedCandidate), OptionalField(r.observedDirectory)]
  }

  function OutputFields(r: Result): seq<Field>
    requires ResultFits(r)
  {
    [RawField(r.attestation), TextField(r.attestationEvidence), NumberField(r.stdoutLength), RawField(r.stdoutDigest),
     NumberField(r.stderrLength), RawField(r.stderrDigest), NumberField(r.duration)]
  }

  lemma ResultFieldsFit(r: Result)
    requires ResultFits(r)
    ensures FitAll(VERDICT_LAYOUT, VerdictFields(r)) && FitAll(OUTPUT_LAYOUT, OutputFields(r)) && Plain(RESULT)
  {
    Widths();
  }

  function EncodeResult(r: Result): Bytes
    requires ResultFits(r)
  {
    ResultFieldsFit(r);
    Domain(RESULT) + (EncodeAll(VERDICT_LAYOUT, VerdictFields(r)) + EncodeAll(OUTPUT_LAYOUT, OutputFields(r)))
  }

  function ResultFrom(v: seq<Field>, o: seq<Field>): Option<Result>
    requires FitAll(VERDICT_LAYOUT, v) && FitAll(OUTPUT_LAYOUT, o)
  {
    Widths();
    match Untag(v[5].number)
    case None => None
    case Some(outcome) =>
      Some(Result(v[0].raw, v[1].raw, v[2].raw, v[3].raw, v[4].raw, outcome,
                  if v[6].optional.Some? then Some(SignedValue(v[6].optional.value)) else None,
                  v[7].optional, v[8].optional, o[0].raw, o[1].text,
                  o[2].number, o[3].raw, o[4].number, o[5].raw, o[6].number))
  }

  function DecodeResult(bytes: Bytes): Option<Result> {
    assert Plain(RESULT);
    match Strip(RESULT, bytes)
    case None => None
    case Some(body) =>
      match DecodeAll(VERDICT_LAYOUT, body)
      case None => None
      case Some((verdict, rest)) =>
        match DecodeAll(OUTPUT_LAYOUT, rest)
        case None => None
        case Some((output, tail)) => if tail == [] then ResultFrom(verdict, output) else None
  }

  lemma ResultFieldsRoundTrip(r: Result)
    requires ResultFits(r)
    ensures FitAll(VERDICT_LAYOUT, VerdictFields(r)) && FitAll(OUTPUT_LAYOUT, OutputFields(r))
    ensures ResultFrom(VerdictFields(r), OutputFields(r)) == Some(r)
  {
    ResultFieldsFit(r);
    if r.exitCode.Some? {
      SignedRoundTrip(r.exitCode.value);
    }
  }

  lemma ResultRoundTrip(r: Result)
    requires ResultFits(r)
    ensures DecodeResult(EncodeResult(r)) == Some(r)
  {
    ResultFieldsFit(r);
    var verdict, output := EncodeAll(VERDICT_LAYOUT, VerdictFields(r)), EncodeAll(OUTPUT_LAYOUT, OutputFields(r));
    StripDomain(RESULT, verdict + output);
    LayoutRoundTrip(VERDICT_LAYOUT, VerdictFields(r), output);
    LayoutRoundTrip(OUTPUT_LAYOUT, OutputFields(r), []);
    assert output + [] == output;
    ResultFieldsRoundTrip(r);
    hide ResultFrom, DecodeAll, EncodeAll, Strip, VerdictFields, OutputFields;
  }

  /** So different requests, and different results, never share an encoding. */
  lemma EncodingsAreInjective(digest: Bytes -> Digest, q: Request, p: Request, r: Result, s: Result)
    requires RequestFits(digest, q) && RequestFits(digest, p) && ResultFits(r) && ResultFits(s)
    ensures EncodeRequest(digest, q) == EncodeRequest(digest, p) ==> q == p
    ensures EncodeResult(r) == EncodeResult(s) ==> r == s
  {
    hide EncodeRequest, DecodeRequest, EncodeResult, DecodeResult;
    RequestRoundTrip(digest, q);
    RequestRoundTrip(digest, p);
    ResultRoundTrip(r);
    ResultRoundTrip(s);
  }

  // ---- kinds ----

  /** The kind of record a byte string encodes, told by its domain. */
  ghost predicate IsKind(name: string, bytes: Bytes) {
    Plain(name) && exists body :: bytes == Domain(name) + body
  }

  /** No byte string is an encoding of two kinds. */
  lemma KindsDisjoint(name: string, other: string, bytes: Bytes)
    requires IsKind(name, bytes) && IsKind(other, bytes)
    ensures name == other
  {
    var body :| bytes == Domain(name) + body;
    var otherBody :| bytes == Domain(other) + otherBody;
    DomainsPrefixFree(name, body, other, otherBody);
  }

  lemma HasKind(name: string, body: Bytes)
    requires Plain(name)
    ensures IsKind(name, Domain(name) + body)
  {
  }

  /** The six records, whatever they are, never share an encoding. */
  lemma KindsNeverCollide(digest: Bytes -> Digest, e: Executable, a: seq<Bytes>, s: Specification, q: Request,
                          r: Result, directories: seq<Bytes>)
    requires ExecutableFits(e) && TextsFit(a) && SpecificationFits(s) && RequestFits(digest, q) && ResultFits(r)
    ensures var encodings := [EncodeExecutable(e), EncodeArguments(a), EncodeSpecification(digest, s),
                              EncodeRequest(digest, q), EncodeResult(r), EncodeDirectories(directories)];
            forall i, j :: 0 <= i < j < 6 ==> encodings[i] != encodings[j]
  {
    var names := [ATTESTATION, ARGUMENTS, SPECIFICATION, REQUEST, RESULT, DIRECTORY_MANIFEST];
    var encodings := [EncodeExecutable(e), EncodeArguments(a), EncodeSpecification(digest, s),
                      EncodeRequest(digest, q), EncodeResult(r), EncodeDirectories(directories)];
    KindsOf(digest, e, a, s, q, r);
    DirectoriesKind(directories);
    hide EncodeExecutable, EncodeArguments, EncodeSpecification, EncodeRequest, EncodeResult, EncodeDirectories, IsKind;
    forall i, j | 0 <= i < j < 6 ensures encodings[i] != encodings[j] {
      assert names[i] != names[j] by {
        assert |names[i]| != |names[j]| || names[i][18] != names[j][18];
      }
      assert IsKind(names[i], encodings[i]) && IsKind(names[j], encodings[j]);
      if encodings[i] == encodings[j] {
        KindsDisjoint(names[i], names[j], encodings[i]);
      }
    }
  }

  lemma DirectoriesKind(paths: seq<Bytes>)
    ensures IsKind(DIRECTORY_MANIFEST, EncodeDirectories(paths))
  {
    assert Plain(DIRECTORY_MANIFEST);
    HasKind(DIRECTORY_MANIFEST, BigEndian(|paths|, 4) + EncodeTexts(paths));
    assert EncodeDirectories(paths) == Domain(DIRECTORY_MANIFEST) + (BigEndian(|paths|, 4) + EncodeTexts(paths));
  }

  lemma KindsOf(digest: Bytes -> Digest, e: Executable, a: seq<Bytes>, s: Specification, q: Request, r: Result)
    requires ExecutableFits(e) && TextsFit(a) && SpecificationFits(s) && RequestFits(digest, q) && ResultFits(r)
    ensures IsKind(ATTESTATION, EncodeExecutable(e)) && IsKind(ARGUMENTS, EncodeArguments(a))
    ensures IsKind(SPECIFICATION, EncodeSpecification(digest, s))
    ensures IsKind(REQUEST, EncodeRequest(digest, q)) && IsKind(RESULT, EncodeResult(r))
  {
    ArgumentsKind(a);
    ResultKind(r);
    hide EncodeAll, ExecutableFields, SpecificationFields, RequestFields, VerdictFields, OutputFields, IsKind,
         EncodeResult, EncodeArguments;
    ExecutableFieldsFit(e);
    HasKind(ATTESTATION, EncodeAll(EXECUTABLE_LAYOUT, ExecutableFields(e)));
    SpecificationFieldsFit(digest, s);
    HasKind(SPECIFICATION, EncodeAll(SPECIFICATION_LAYOUT, SpecificationFields(digest, s)));
    RequestFieldsFit(digest, q);
    HasKind(REQUEST, EncodeAll(REQUEST_LAYOUT, RequestFields(digest, q)));
  }

  lemma ArgumentsKind(a: seq<Bytes>)
    requires TextsFit(a)
    ensures IsKind(ARGUMENTS, EncodeArguments(a))
  {
    assert Plain(ARGUMENTS);
    HasKind(ARGUMENTS, BigEndian(|a|, 4) + EncodeTexts(a));
    assert EncodeArguments(a) == Domain(ARGUMENTS) + (BigEndian(|a|, 4) + EncodeTexts(a));
  }

  lemma ResultKind(r: Result)
    requires ResultFits(r)
    ensures IsKind(RESULT, EncodeResult(r))
  {
    hide EncodeAll, VerdictFields, OutputFields;
    ResultFieldsFit(r);
    HasKind(RESULT, EncodeAll(VERDICT_LAYOUT, VerdictFields(r)) + EncodeAll(OUTPUT_LAYOUT, OutputFields(r)));
  }
}
