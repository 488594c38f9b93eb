/**
 HTTP/2 frames (sections 4.1 and 6 of RFC 9113): what each kind writes, what reading it back gives, and
 a frame reader that stays in step with the frames on the wire whatever they contain.
 */
module H2Frames {
  import opened Common
  import opened Octets
  import opened H2Wire
  import opened H2Settings

  const DATA: Octet := 0
  const HEADERS: Octet := 1
  const PRIORITY: Octet := 2
  const RST_STREAM: Octet := 3
  const SETTINGS: Octet := 4
  const PUSH_PROMISE: Octet := 5
  const PING: Octet := 6
  const GOAWAY: Octet := 7
  const WINDOW_UPDATE: Octet := 8
  const CONTINUATION: Octet := 9

  const ACK: Flags := 0x1
  const END_STREAM: Flags := 0x1
  const END_HEADERS: Flags := 0x4
  const PADDED: Flags := 0x8
  const PRIORITIZED: Flags := 0x20

  predicate Has(flags: Flags, bit: Flags) {
    flags & bit == bit
  }

  /** Flags are only ever added. */
  function AddIf(flags: Flags, c: bool, bit: Flags): Flags {
    if c then flags | bit else flags
  }

  // ---- Bodies ----

  datatype Dependency = Dependency(stream: Uint32, exclusive: bool, weight: Octet)

  datatype Body =
    | Data(endStream: bool, padded: bool, data: Bytes)
    | Headers(endStream: bool, endHeaders: bool, padded: bool, priority: Option<Dependency>, block: Bytes)
    | Priority(dependency: Dependency)
    | RstStream(code: Uint32)
    | SettingsBody(ack: bool, params: Params)
    | PushPromise(endHeaders: bool, promised: Uint32, block: Bytes)
    | Ping(ack: bool, opaqueData: Bytes)
    | GoAway(last: Uint32, code: Uint32, debug: Bytes)
    | WindowUpdate(increment: int)
    | Continuation(endHeaders: bool, block: Bytes)

  function KindOf(b: Body): Octet {
    match b
    case Data(_, _, _) => DATA
    case Headers(_, _, _, _, _) => HEADERS
    case Priority(_) => PRIORITY
    case RstStream(_) => RST_STREAM
    case SettingsBody(_, _) => SETTINGS
    case PushPromise(_, _, _) => PUSH_PROMISE
    case Ping(_, _) => PING
    case GoAway(_, _, _) => GOAWAY
    case WindowUpdate(_) => WINDOW_UPDATE
    case Continuation(_, _) => CONTINUATION
  }

  /** The flags after Serialize has added those of the body. */
  function FlagsOf(b: Body, flags: Flags): Flags {
    match b
    case Data(end, padded, _) => AddIf(AddIf(flags, end, END_STREAM), padded, PADDED)
    case Headers(end, endHeaders, padded, priority, _) =>
      var ended := AddIf(AddIf(flags, end, END_STREAM), endHeaders, END_HEADERS);
      AddIf(AddIf(ended, padded, PADDED), priority.Some?, PRIORITIZED)
    case SettingsBody(ack, _) => AddIf(flags, ack, ACK)
    case Ping(ack, _) => AddIf(flags, ack, ACK)
    case Continuation(endHeaders, _) => AddIf(flags, endHeaders, END_HEADERS)
    case Priority(_) => flags
    case RstStream(_) => flags
    case PushPromise(_, _, _) => flags
    case GoAway(_, _, _) => flags
    case WindowUpdate(_) => flags
  }

  /** b |= 0x80 for the first byte. */
  function WithTopBit(b: Bytes): (r: Bytes)
    requires b != []
    ensures |r| == |b|
  {
    if b[0] < 128 then b[0 := b[0] + 128] else b
  }

  function DependencyBytes(d: Dependency): (b: Bytes)
    ensures |b| == 5
  {
    (if d.exclusive then WithTopBit(Bytes32(d.stream)) else Bytes32(d.stream)) + [d.weight]
  }

  /** uint32(n) of an int. */
  function ToUint32(n: int): Uint32 {
    n % U32
  }

  /** What Serialize writes; both writers pad with no bytes. */
  function PayloadOf(b: Body): Bytes {
    match b
    case Data(_, padded, data) => (if padded then [0] else []) + data
    case Headers(_, _, padded, priority, block) =>
      (if padded then [0] else []) + ((if priority.Some? then DependencyBytes(priority.value) else []) + block)
    case Priority(d) => DependencyBytes(d)
    case RstStream(code) => Bytes32(code)
    case SettingsBody(ack, p) => if ack then [] else WriteSettings(Listed(p))
    case PushPromise(_, promised, block) => Bytes32(promised) + block
    case Ping(_, data) => data
    case GoAway(last, code, debug) => Bytes32(last) + (Bytes32(code) + debug)
    case WindowUpdate(n) => Bytes32(ToUint32(n))
    case Continuation(_, block) => block
  }

  // ---- Reading a body ----

  datatype FrameError = MissingBytes | Protocol | FrameSize | FlowControl | StreamProtocol | PayloadExceeds

  datatype Result<T> = Ok(value: T) | Err(error: FrameError)

  /** cutPadding. */
  function CutPadding(payload: Bytes, length: nat): Result<Bytes> {
    if payload == [] then Err(MissingBytes)
    else
      var pad := payload[0];
      if pad >= |payload| || length > |payload| || pad >= length || length - pad < 1 then Err(Protocol)
      else Ok(payload[1..length - pad])
  }

  /** Padding is cut exactly: one length byte in front and as many bytes as it says at the end. */
  lemma PaddingIsExact(payload: Bytes, d: Bytes)
    ensures CutPadding(payload, |payload|) == Ok(d)
            <==> exists pad: Octet, tail: Bytes :: |tail| == pad && payload == [pad] + d + tail
  {
    if CutPadding(payload, |payload|) == Ok(d) {
      var pad := payload[0];
      var tail := payload[|payload| - pad..];
      assert |tail| == pad && payload == [pad] + d + tail;
    }
    if pad: Octet, tail: Bytes :| |tail| == pad && payload == [pad] + d + tail {
      assert payload[1..|payload| - pad] == d;
    }
  }

  function Unpadded(flags: Flags, payload: Bytes): Result<Bytes> {
    if Has(flags, PADDED) then CutPadding(payload, |payload|) else Ok(payload)
  }

  function ParseDependency(b: Bytes): Dependency
    requires |b| >= 5
  {
    Dependency(Num32(b) % U31, b[0] >= 128, b[4])
  }

  function ParseData(flags: Flags, stream: Uint32, payload: Bytes): Result<Body> {
    if stream == 0 then Err(Protocol)
    else
      var t := Unpadded(flags, payload);
      if t.Err? then Err(t.error) else Ok(Data(Has(flags, END_STREAM), false, t.value))
  }

  function ParseHeaders(flags: Flags, stream: Uint32, payload: Bytes): Result<Body> {
    if stream == 0 then Err(Protocol)
    else
      var t := Unpadded(flags, payload);
      if t.Err? then Err(t.error)
      else if !Has(flags, PRIORITIZED) then
        Ok(Headers(Has(flags, END_STREAM), Has(flags, END_HEADERS), false, None, t.value))
      else if |t.value| < 5 then Err(FrameSize)
      else
        var d := ParseDependency(t.value);
        if d.stream == stream then Err(Protocol)
        else Ok(Headers(Has(flags, END_STREAM), Has(flags, END_HEADERS), false, Some(d), t.value[5..]))
  }

  function ParsePriority(stream: Uint32, payload: Bytes): Result<Body> {
    if stream == 0 then Err(Protocol)
    else if |payload| != 5 then Err(FrameSize)
    else if ParseDependency(payload).stream == stream then Err(Protocol)
    else Ok(Priority(ParseDependency(payload)))
  }

  function ParseSettings(flags: Flags, stream: Uint32, payload: Bytes): Result<Body> {
    if stream != 0 then Err(Protocol)
    else if |payload| % 6 != 0 || (Has(flags, ACK) && payload != []) then Err(FrameSize)
    else
      var r := ApplyAll(DEFAULTS, SettingsOf(payload));
      if r.err == Some(FlowControlError) then Err(FlowControl)
      else if r.err.Some? then Err(Protocol)
      else Ok(SettingsBody(Has(flags, ACK), r.params))
  }

  function ParsePush(flags: Flags, stream: Uint32, payload: Bytes): Result<Body> {
    if stream == 0 then Err(Protocol)
    else
      var t := Unpadded(flags, payload);
      if t.Err? then Err(t.error)
      else if |t.value| < 4 then Err(FrameSize)
      else Ok(PushPromise(Has(flags, END_HEADERS), Num32(t.value) % U31, t.value[4..]))
  }

  function ParseWindow(stream: Uint32, payload: Bytes): Result<Body> {
    if |payload| != 4 then Err(FrameSize)
    else if Num32(payload) % U31 == 0 then Err(if stream == 0 then Protocol else StreamProtocol)
    else Ok(WindowUpdate(Num32(payload) % U31))
  }

  function ParseGoAway(stream: Uint32, payload: Bytes): Result<Body> {
    if stream != 0 then Err(Protocol)
    else if |payload| < 8 then Err(FrameSize)
    else Ok(GoAway(Num32(payload) % U31, Num32(payload[4..]), payload[8..]))
  }

  function ParsePing(flags: Flags, stream: Uint32, payload: Bytes): Result<Body> {
    if stream != 0 then Err(Protocol)
    else if |payload| != 8 then Err(FrameSize)
    else Ok(Ping(Has(flags, ACK), payload))
  }

  function ParseReset(stream: Uint32, payload: Bytes): Result<Body> {
    if stream == 0 then Err(Protocol)
    else if |payload| != 4 then Err(FrameSize)
    else Ok(RstStream(Num32(payload)))
  }

  function ParseContinuation(flags: Flags, stream: Uint32, payload: Bytes): Result<Body> {
    if stream == 0 then Err(Protocol) else Ok(Continuation(Has(flags, END_HEADERS), payload))
  }

  /** Deserialize of the frame kind. */
  function Parse(kind: Octet, flags: Flags, stream: Uint32, payload: Bytes): Result<Body>
    requires kind <= CONTINUATION
  {
    if kind == DATA then ParseData(flags, stream, payload)
    else if kind == HEADERS then ParseHeaders(flags, stream, payload)
    else if kind == PRIORITY then ParsePriority(stream, payload)
    else if kind == RST_STREAM then ParseReset(stream, payload)
    else if kind == SETTINGS then ParseSettings(flags, stream, payload)
    else if kind == PUSH_PROMISE then ParsePush(flags, stream, payload)
    else if kind == PING then ParsePing(flags, stream, payload)
    else if kind == GOAWAY then ParseGoAway(stream, payload)
    else if kind == WINDOW_UPDATE then ParseWindow(stream, payload)
    else ParseContinuation(flags, stream, payload)
  }

  // ---- Bodies round trip ----

  /** What a reader can know of a body: padding and an acknowledgement's parameters are not sent. */
  function Received(b: Body): Body {
    match b
    case Data(end, _, data) => Data(end, false, data)
    case Headers(end, endHeaders, _, priority, block) => Headers(end, endHeaders, false, priority, block)
    case SettingsBody(ack, p) => if ack then SettingsBody(true, DEFAULTS) else b
    case Priority(_) => b
    case RstStream(_) => b
    case PushPromise(_, _, _) => b
    case Ping(_, _) => b
    case GoAway(_, _, _) => b
    case WindowUpdate(_) => b
    case Continuation(_, _) => b
  }

  predicate DependencyFits(d: Dependency, stream: Uint32) {
    d.stream < U31 && d.stream != stream
  }

  /** What a body needs to be read back: the right stream, numbers in range, and no flag that is not sent. */
  predicate Fits(b: Body, stream: Uint32) {
    match b
    case Data(_, _, _) => stream != 0
    case Headers(_, _, _, priority, _) => stream != 0 && (priority.Some? ==> DependencyFits(priority.value, stream))
    case Priority(d) => stream != 0 && DependencyFits(d, stream)
    case RstStream(_) => stream != 0
    case SettingsBody(ack, p) => stream == 0 && (ack || Allowed(p))
    case PushPromise(endHeaders, promised, _) => stream != 0 && promised < U31 && !endHeaders
    case Ping(_, data) => stream == 0 && |data| == 8
    case GoAway(last, _, _) => stream == 0 && last < U31
    case WindowUpdate(n) => 0 < n < U31
    case Continuation(_, _) => stream != 0
  }

  predicate ReadsBack(b: Body, stream: Uint32) {
    Parse(KindOf(b), FlagsOf(b, 0), stream, PayloadOf(b)) == Ok(Received(b))
  }

  lemma FlagBits(end: bool, endHeaders: bool, padded: bool, priority: bool)
    ensures var ended := AddIf(AddIf(0, end, END_STREAM), endHeaders, END_HEADERS);
            var f := AddIf(AddIf(ended, padded, PADDED), priority, PRIORITIZED);
            && Has(f, END_STREAM) == end && Has(f, END_HEADERS) == endHeaders
            && Has(f, PADDED) == padded && Has(f, PRIORITIZED) == priority
    ensures var f := AddIf(AddIf(0, end, END_STREAM), padded, PADDED);
            Has(f, END_STREAM) == end && Has(f, PADDED) == padded
    ensures Has(AddIf(0, end, ACK), ACK) == end
    ensures Has(AddIf(0, endHeaders, END_HEADERS), END_HEADERS) == endHeaders
    ensures !Has(0, PADDED) && !Has(0, END_HEADERS)
  {
  }

  lemma NoPadding(payload: Bytes)
    ensures CutPadding([0] + payload, |[0] + payload|) == Ok(payload)
  {
    assert ([0] + payload)[1..|[0] + payload|] == payload;
  }

  lemma PadOrNot(flags: Flags, padded: bool, payload: Bytes)
    requires Has(flags, PADDED) == padded
    ensures Unpadded(flags, (if padded then [0] else []) + payload) == Ok(payload)
  {
    if padded {
      NoPadding(payload);
    } else {
      assert [] + payload == payload;
    }
  }

  /** The first of the four bytes holds the high bit. */
  lemma TopByte(b: Bytes)
    requires |b| == 4
    ensures Num32(b) < U31 <==> b[0] < 128
    ensures b[0] < 128 ==> Num32(WithTopBit(b)) == Num32(b) + U31
  {
  }

  lemma Mod31(n: nat)
    requires n < U32
    ensures n % U31 == if n < U31 then n else n - U31
  {
  }

  lemma DependencyStream(d: Dependency)
    requires d.stream < U31
    ensures Num32(DependencyBytes(d)) % U31 == d.stream && (DependencyBytes(d)[0] >= 128) == d.exclusive
  {
    var b := Bytes32(d.stream);
    RoundTrip32(d.stream);
    TopByte(b);
    var t := if d.exclusive then WithTopBit(b) else b;
    NumPrefix(t, [d.weight]);
    Mod31(Num32(t));
  }

  lemma WideDependency(d: Dependency)
    requires d.stream >= U31
    ensures Num32(DependencyBytes(d)) % U31 != d.stream
  {
  }

  /** A dependency survives exactly when its stream has 31 bits. */
  lemma DependencyRoundTrip(d: Dependency, rest: Bytes)
    ensures ParseDependency(DependencyBytes(d) + rest) == d <==> d.stream < U31
  {
    var b := DependencyBytes(d);
    NumPrefix(b, rest);
    assert (b + rest)[0] == b[0] && (b + rest)[4] == b[4] == d.weight;
    if d.stream < U31 {
      DependencyStream(d);
    } else {
      WideDependency(d);
    }
  }

  lemma DataRoundTrip(b: Body, stream: Uint32)
    requires b.Data?
    ensures ReadsBack(b, stream) <==> Fits(b, stream)
  {
    FlagBits(b.endStream, false, b.padded, false);
    PadOrNot(FlagsOf(b, 0), b.padded, b.data);
  }

  lemma HeadersRoundTrip(b: Body, stream: Uint32)
    requires b.Headers?
    ensures ReadsBack(b, stream) <==> Fits(b, stream)
  {
    var flags := FlagsOf(b, 0);
    var d := if b.priority.Some? then DependencyBytes(b.priority.value) else [];
    FlagBits(b.endStream, b.endHeaders, b.padded, b.priority.Some?);
    PadOrNot(flags, b.padded, d + b.block);
    if b.priority.Some? {
      DependencyRoundTrip(b.priority.value, b.block);
      assert (d + b.block)[5..] == b.block;
    } else {
      assert d + b.block == b.block;
    }
  }

  lemma PriorityRoundTrip(b: Body, stream: Uint32)
    requires b.Priority?
    ensures ReadsBack(b, stream) <==> Fits(b, stream)
  {
    DependencyRoundTrip(b.dependency, []);
    assert DependencyBytes(b.dependency) + [] == DependencyBytes(b.dependency);
  }

  lemma {:induction false} SettingsLength(ss: seq<Setting>)
    ensures |WriteSettings(ss)| % 6 == 0
  {
    if ss != [] {
      SettingsLength(ss[1..]);
    }
  }

  lemma SettingsPayload(flags: Flags, stream: Uint32, payload: Bytes, p: Params)
    requires |payload| % 6 == 0 && !Has(flags, ACK)
    requires ApplyAll(DEFAULTS, SettingsOf(payload)) == ReadResult(p, None) <==> Allowed(p)
    ensures ParseSettings(flags, stream, payload) == Ok(SettingsBody(false, p)) <==> stream == 0 && Allowed(p)
  {
  }

  lemma AckPayload(flags: Flags, stream: Uint32)
    requires Has(flags, ACK)
    ensures ParseSettings(flags, stream, []) == Ok(SettingsBody(true, DEFAULTS)) <==> stream == 0
  {
    assert SettingsOf([]) == [];
    assert ApplyAll(DEFAULTS, []) == ReadResult(DEFAULTS, None);
  }

  lemma SettingsBodyRoundTrip(b: Body, stream: Uint32)
    requires b.SettingsBody?
    ensures ReadsBack(b, stream) <==> Fits(b, stream)
  {
    FlagBits(b.ack, false, false, false);
    if b.ack {
      AckPayload(FlagsOf(b, 0), stream);
    } else {
      SettingsLength(Listed(b.params));
      SettingsRoundTrip(b.params);
      SettingsPayload(FlagsOf(b, 0), stream, PayloadOf(b), b.params);
    }
  }

  lemma Promised(n: Uint32, block: Bytes)
    ensures Num32(Bytes32(n) + block) == n && (Bytes32(n) + block)[4..] == block
  {
    RoundTrip32(n);
    NumPrefix(Bytes32(n), block);
  }

  lemma PushRoundTrip(b: Body, stream: Uint32)
    requires b.PushPromise?
    ensures ReadsBack(b, stream) <==> Fits(b, stream)
  {
    FlagBits(false, false, false, false);
    Promised(b.promised, b.block);
    Mod31(b.promised);
  }

  lemma GoAwayRoundTrip(b: Body, stream: Uint32)
    requires b.GoAway?
    ensures ReadsBack(b, stream) <==> Fits(b, stream)
  {
    var rest := Bytes32(b.code) + b.debug;
    Promised(b.last, rest);
    Promised(b.code, b.debug);
    Mod31(b.last);
    assert (Bytes32(b.last) + rest)[8..] == rest[4..];
  }

  lemma ResetRoundTrip(b: Body, stream: Uint32)
    requires b.RstStream?
    ensures ReadsBack(b, stream) <==> Fits(b, stream)
  {
    RoundTrip32(b.code);
  }

  lemma IncrementNumber(n: int)
    ensures ToUint32(n) % U31 == n <==> 0 <= n < U31
  {
    Mod31(ToUint32(n));
  }

  lemma WindowRoundTrip(b: Body, stream: Uint32)
    requires b.WindowUpdate?
    ensures ReadsBack(b, stream) <==> Fits(b, stream)
  {
    RoundTrip32(ToUint32(b.increment));
    IncrementNumber(b.increment);
  }

  lemma PlainRoundTrip(b: Body, stream: Uint32)
    requires b.Ping? || b.Continuation?
    ensures ReadsBack(b, stream) <==> Fits(b, stream)
  {
    if b.Ping? {
      FlagBits(b.ack, false, false, false);
    } else {
      FlagBits(false, b.endHeaders, false, false);
    }
  }

  /** A body is read back as it was written exactly when it fits. */
  lemma BodyRoundTrip(b: Body, stream: Uint32)
    ensures ReadsBack(b, stream) <==> Fits(b, stream)
  {
    match b
    case Data(_, _, _) => DataRoundTrip(b, stream);
    case Headers(_, _, _, _, _) => HeadersRoundTrip(b, stream);
    case Priority(_) => PriorityRoundTrip(b, stream);
    case RstStream(_) => ResetRoundTrip(b, stream);
    case SettingsBody(_, _) => SettingsBodyRoundTrip(b, stream);
    case PushPromise(_, _, _) => PushRoundTrip(b, stream);
    case Ping(_, _) => PlainRoundTrip(b, stream);
    case GoAway(_, _, _) => GoAwayRoundTrip(b, stream);
    case WindowUpdate(_) => WindowRoundTrip(b, stream);
    case Continuation(_, _) => PlainRoundTrip(b, stream);
  }

  // ---- Frames on the wire ----

  /** A frame of any kind, known or not, with any content. */
  datatype Raw = Raw(kind: Octet, flags: Flags, stream: Uint32, payload: Bytes)

  function Wire(f: Raw): Bytes {
    HeadBytes(Head(|f.payload|, f.kind, f.flags, f.stream)) + f.payload
  }

  function WireAll(fs: seq<Raw>): Bytes {
    if fs == [] then [] else Wire(fs[0]) + WireAll(fs[1..])
  }

  datatype Outcome =
    | Frame(stream: Uint32, flags: Flags, body: Body)
    | Unknown(kind: Octet, flags: Flags, stream: Uint32)
    | Bad(error: FrameError)

  /** What a frame is taken for. */
  function Judge(f: Raw, maxLen: nat): Outcome {
    if maxLen != 0 && |f.payload| > maxLen then Bad(PayloadExceeds)
    else if f.kind > CONTINUATION then Unknown(f.kind, f.flags, f.stream)
    else
      var b := Parse(f.kind, f.flags, f.stream, f.payload);
      if b.Ok? then Frame(f.stream, f.flags, b.value) else Bad(b.error)
  }

  /** The outcome of reading one frame, and the bytes left; Starved when the input ends inside a frame. */
  datatype FrameRead = FrameRead(outcome: Outcome, rest: Bytes) | Starved

  /** readFrom: too long and unknown frames are skipped by their length. */
  function ReadFrame(rest: Bytes, maxLen: nat): FrameRead {
    if |rest| < 9 then Starved
    else
      var h := ParseHead(rest);
      var after := rest[9..];
      if |after| < h.length then Starved
      else FrameRead(Judge(Raw(h.kind, h.flags, h.stream, after[..h.length]), maxLen), after[h.length..])
  }

  lemma HeadInFront(h: Head, rest: Bytes)
    ensures ParseHead(HeadBytes(h) + rest) == ParseHead(HeadBytes(h))
  {
    HeadPrefix(HeadBytes(h) + rest);
    assert (HeadBytes(h) + rest)[..9] == HeadBytes(h);
  }

  /** Whatever a frame contains, reading it takes its own bytes and no others, and judges it by them alone. */
  lemma StaysInSync(f: Raw, rest: Bytes, maxLen: nat)
    requires |f.payload| < U24 && f.stream < U31
    ensures ReadFrame(Wire(f) + rest, maxLen) == FrameRead(Judge(f, maxLen), rest)
  {
    var h := Head(|f.payload|, f.kind, f.flags, f.stream);
    var all := Wire(f) + rest;
    assert all == HeadBytes(h) + (f.payload + rest);
    HeadInFront(h, f.payload + rest);
    HeadRoundTrip(h);
    assert all[9..] == f.payload + rest;
    assert (f.payload + rest)[..|f.payload|] == f.payload && (f.payload + rest)[|f.payload|..] == rest;
  }

  /** Reading on until the input is used up. */
  function ReadAll(rest: Bytes, maxLen: nat): seq<Outcome> {
    var r := ReadFrame(rest, maxLen);
    if r.Starved? then [] else [r.outcome] + ReadAll(r.rest, maxLen)
  }

  function JudgeAll(fs: seq<Raw>, maxLen: nat): seq<Outcome> {
    if fs == [] then [] else [Judge(fs[0], maxLen)] + JudgeAll(fs[1..], maxLen)
  }

  /** Any sequence of frames, too long, unknown and malformed ones among them, is read frame by frame. */
  lemma {:induction false} StreamStaysInSync(fs: seq<Raw>, maxLen: nat)
    requires forall i | 0 <= i < |fs| :: |fs[i].payload| < U24 && fs[i].stream < U31
    ensures ReadAll(WireAll(fs), maxLen) == JudgeAll(fs, maxLen)
    decreases |fs|
  {
    if fs != [] {
      StaysInSync(fs[0], WireAll(fs[1..]), maxLen);
      StreamStaysInSync(fs[1..], maxLen);
    }
  }

  datatype Sent = Sent(stream: Uint32, body: Body)

  function ToRaw(s: Sent): Raw {
    Raw(KindOf(s.body), FlagsOf(s.body, 0), s.stream, PayloadOf(s.body))
  }

  /** A frame that fits its stream and the peer's frame size arrives as it was sent. */
  lemma FrameRoundTrip(s: Sent, rest: Bytes, maxLen: nat)
    requires Fits(s.body, s.stream) && s.stream < U31
    requires |PayloadOf(s.body)| < U24 && (maxLen == 0 || |PayloadOf(s.body)| <= maxLen)
    ensures ReadFrame(Wire(ToRaw(s)) + rest, maxLen)
            == FrameRead(Frame(s.stream, FlagsOf(s.body, 0), Received(s.body)), rest)
  {
    StaysInSync(ToRaw(s), rest, maxLen);
    BodyRoundTrip(s.body, s.stream);
  }

  // ---- Whole exchanges ----

  /** What travels: frames of ours, and frames of kinds that the reader does not know. */
  datatype Traffic = Ours(sent: Sent) | Foreign(raw: Raw)

  function RawOf(t: Traffic): Raw {
    if t.Ours? then ToRaw(t.sent) else t.raw
  }

  function RawsOf(ts: seq<Traffic>): seq<Raw> {
    if ts == [] then [] else [RawOf(ts[0])] + RawsOf(ts[1..])
  }

  /** Frames that can be written: our bodies fit their streams, foreign kinds are unknown, lengths have 24 bits. */
  predicate Sendable(t: Traffic) {
    && |RawOf(t).payload| < U24
    && RawOf(t).stream < U31
    && (if t.Ours? then Fits(t.sent.body, t.sent.stream) else t.raw.kind > CONTINUATION)
  }

  /** What the peer must see: our frames field for field, foreign ones by their header, too long ones refused. */
  function Expected(t: Traffic, maxLen: nat): Outcome {
    if maxLen != 0 && |RawOf(t).payload| > maxLen then Bad(PayloadExceeds)
    else if t.Ours? then Frame(t.sent.stream, FlagsOf(t.sent.body, 0), Received(t.sent.body))
    else Unknown(t.raw.kind, t.raw.flags, t.raw.stream)
  }

  function ExpectedAll(ts: seq<Traffic>, maxLen: nat): seq<Outcome> {
    if ts == [] then [] else [Expected(ts[0], maxLen)] + ExpectedAll(ts[1..], maxLen)
  }

  lemma JudgedAsExpected(t: Traffic, maxLen: nat)
    requires Sendable(t)
    ensures Judge(RawOf(t), maxLen) == Expected(t, maxLen)
  {
    if t.Ours? {
      BodyRoundTrip(t.sent.body, t.sent.stream);
    }
  }

  lemma {:induction false} AllJudgedAsExpected(ts: seq<Traffic>, maxLen: nat)
    requires forall i | 0 <= i < |ts| :: Sendable(ts[i])
    ensures |RawsOf(ts)| == |ts| && (forall i | 0 <= i < |ts| :: RawsOf(ts)[i] == RawOf(ts[i]))
    ensures JudgeAll(RawsOf(ts), maxLen) == ExpectedAll(ts, maxLen)
    decreases |ts|
  {
    if ts != [] {
      AllJudgedAsExpected(ts[1..], maxLen);
      JudgedAsExpected(ts[0], maxLen);
    }
  }

  /**
   The frame stream round-trips: any list of frames of ours that fit, with frames of unknown kinds among them,
   is read back in order, ours field for field, each taking exactly its own bytes.
   */
  lemma TrafficRoundTrip(ts: seq<Traffic>, maxLen: nat)
    requires forall i | 0 <= i < |ts| :: Sendable(ts[i])
    ensures ReadAll(WireAll(RawsOf(ts)), maxLen) == ExpectedAll(ts, maxLen)
  {
    AllJudgedAsExpected(ts, maxLen);
    forall i | 0 <= i < |RawsOf(ts)|
      ensures |RawsOf(ts)[i].payload| < U24 && RawsOf(ts)[i].stream < U31
    {
      assert Sendable(ts[i]);
    }
    StreamStaysInSync(RawsOf(ts), maxLen);
  }
}
